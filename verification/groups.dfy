/** Specification files of any length. A group is a Given step, any number
    of And steps, then any number of When/Then pairs, each directive followed
    by the one Block of its command. A stream made of such groups, one after
    another, parses to one scenario per group, in order: its given is the
    Given block, joined in an And chain with the And blocks when there are
    any, and its behaviors are the pairs, in order. */
module Groups {
  import opened Base
  import opened Lexer
  import opened Ast
  import opened Grammar
  import opened Parser
  import opened ParserFacts

  /** A directive's value and the command on the line after it. */
  datatype Clause = Clause(text: string, command: string)

  datatype Pair = Pair(when: Clause, outcome: Clause)

  datatype Group = Group(given: Clause, ands: seq<Clause>, pairs: seq<Pair>)

  function ClauseTokens(t: Token, c: Clause): seq<TokenTuple> {
    [TokenTuple(t, c.text), TokenTuple(Block, c.command)]
  }

  function AndTokens(cs: seq<Clause>): (toks: seq<TokenTuple>)
    ensures |toks| == 2 * |cs|
  {
    if |cs| == 0 then [] else ClauseTokens(And, cs[0]) + AndTokens(cs[1..])
  }

  function PairTokens(ps: seq<Pair>): (toks: seq<TokenTuple>)
    ensures |toks| == 4 * |ps|
  {
    if |ps| == 0 then []
    else ClauseTokens(When, ps[0].when) + ClauseTokens(Then, ps[0].outcome) + PairTokens(ps[1..])
  }

  function GroupTokens(g: Group): (toks: seq<TokenTuple>)
    ensures |toks| == 2 + 2 * |g.ands| + 4 * |g.pairs|
  {
    ClauseTokens(Given, g.given) + AndTokens(g.ands) + PairTokens(g.pairs)
  }

  /** The tokens of the groups, one after another. */
  function GroupsTokens(gs: seq<Group>): seq<TokenTuple> {
    if |gs| == 0 then [] else GroupTokens(gs[0]) + GroupsTokens(gs[1..])
  }

  /** The block the parser builds for a clause: its value, no commands. */
  function Leaf(c: Clause): Expr {
    BlockExpr(c.text, [])
  }

  function Leaves(cs: seq<Clause>): (es: seq<Expr>)
    ensures |es| == |cs|
    ensures forall k :: 0 <= k < |cs| ==> es[k] == Leaf(cs[k])
  {
    if |cs| == 0 then [] else [Leaf(cs[0])] + Leaves(cs[1..])
  }

  function GivenExpr(g: Group): Expr {
    if g.ands == [] then Leaf(g.given) else AndExpr([Leaf(g.given)] + Leaves(g.ands))
  }

  function PairBehaviors(ps: seq<Pair>): (bs: seq<Behavior>)
    ensures |bs| == |ps|
    ensures forall k :: 0 <= k < |ps| ==>
              bs[k] == Behavior(Some(Leaf(ps[k].when)), Some(Leaf(ps[k].outcome)))
  {
    if |ps| == 0 then []
    else [Behavior(Some(Leaf(ps[0].when)), Some(Leaf(ps[0].outcome)))] + PairBehaviors(ps[1..])
  }

  function GroupScenario(g: Group): Scenario {
    Scenario(GivenExpr(g), PairBehaviors(g.pairs))
  }

  /** The scenarios the groups describe: one per group, in order. */
  function GroupScenarios(gs: seq<Group>): (scs: seq<Scenario>)
    ensures |scs| == |gs|
    ensures forall k :: 0 <= k < |gs| ==> scs[k] == GroupScenario(gs[k])
  {
    if |gs| == 0 then [] else [GroupScenario(gs[0])] + GroupScenarios(gs[1..])
  }

  /** toks holds piece from position i on. */
  predicate At(toks: seq<TokenTuple>, i: nat, piece: seq<TokenTuple>) {
    i + |piece| <= |toks| && toks[i..i + |piece|] == piece
  }

  /** A position where a leaf chunk ends: the end of the stream, or a
      directive that neither continues a chain nor is a Block or Text. */
  predicate Boundary(toks: seq<TokenTuple>, j: nat) {
    j <= |toks| && (j == |toks| || toks[j].kind == Given || toks[j].kind == When || toks[j].kind == Then)
  }

  lemma {:induction false} AtSplit(toks: seq<TokenTuple>, i: nat, a: seq<TokenTuple>, b: seq<TokenTuple>)
    requires At(toks, i, a + b)
    ensures At(toks, i, a) && At(toks, i + |a|, b)
  {
    assert toks[i..i + |a|] == toks[i..i + |a + b|][..|a|];
    assert toks[i + |a|..i + |a| + |b|] == toks[i..i + |a + b|][|a|..];
  }

  lemma {:induction false} ClauseAt(toks: seq<TokenTuple>, i: nat, t: Token, c: Clause)
    requires At(toks, i, ClauseTokens(t, c))
    ensures i + 2 <= |toks|
    ensures toks[i] == TokenTuple(t, c.text) && toks[i + 1] == TokenTuple(Block, c.command)
  {
    assert toks[i] == toks[i..i + 2][0];
    assert toks[i + 1] == toks[i..i + 2][1];
  }

  /** A clause read at j: no Text to skip, and its block run is its one
      command, so the cursor after it is j + 2. */
  lemma {:induction false} ClauseRun(toks: seq<TokenTuple>, j: nat, t: Token, c: Clause)
    requires t != Text
    requires At(toks, j, ClauseTokens(t, c))
    requires j + 2 == |toks| || toks[j + 2].kind != Block
    ensures j + 2 <= |toks| && toks[j] == TokenTuple(t, c.text)
    ensures SkipText(toks, j) == j && BlockRunEnd(toks, j + 1) == j + 2
  {
    ClauseAt(toks, j, t, c);
    assert BlockRunEnd(toks, j + 2) == j + 2;
  }

  /** A Given, When or Then clause followed by a boundary is a chunk of one
      block. */
  lemma {:induction false} LeafChunk(ts: TokenStream, t: Token, c: Clause, j: nat)
    requires ts.err == None
    requires t == Given || t == When || t == Then
    requires At(ts.toks, j, ClauseTokens(t, c))
    requires Boundary(ts.toks, j + 2)
    ensures Chunk(ts, t, j) == Success((Some(Leaf(c)), j + 2))
  {
    ClauseRun(ts.toks, j, t, c);
    ChunkStartsWithHead(ts, t, j, j, j + 2);
    assert SkipText(ts.toks, j + 2) == j + 2;
  }

  /** The And clauses from i on extend a chain by their blocks, in order. */
  lemma {:induction false} AndChain(ts: TokenStream, cs: seq<Expr>, i: nat, ands: seq<Clause>)
    requires ts.err == None
    requires At(ts.toks, i, AndTokens(ands))
    requires Boundary(ts.toks, i + 2 * |ands|)
    ensures ChainFrom(ts, And, cs, i) == Success((cs + Leaves(ands), i + 2 * |ands|))
    decreases |ands|
  {
    var toks := ts.toks;
    if |ands| == 0 {
      assert SkipText(toks, i) == i;
      AppendEmpty(cs);
    } else {
      var rest := ands[1..];
      AtSplit(toks, i, ClauseTokens(And, ands[0]), AndTokens(rest));
      if |rest| > 0 {
        AtSplit(toks, i + 2, ClauseTokens(And, rest[0]), AndTokens(rest[1..]));
        ClauseAt(toks, i + 2, And, rest[0]);
      }
      ClauseRun(toks, i, And, ands[0]);
      var cs' := cs + [Leaf(ands[0])];
      AndChain(ts, cs', i + 2, rest);
      AppendAssoc(cs, [Leaf(ands[0])], Leaves(rest));
    }
  }

  /** The Given chunk of a group: the Given block alone, or an And chain of
      it and the And blocks. */
  lemma {:induction false} GivenChunk(ts: TokenStream, i: nat, g: Group)
    requires ts.err == None
    requires At(ts.toks, i, ClauseTokens(Given, g.given) + AndTokens(g.ands))
    requires Boundary(ts.toks, i + 2 + 2 * |g.ands|)
    ensures Chunk(ts, Given, i) == Success((Some(GivenExpr(g)), i + 2 + 2 * |g.ands|))
  {
    var toks := ts.toks;
    AtSplit(toks, i, ClauseTokens(Given, g.given), AndTokens(g.ands));
    if |g.ands| == 0 {
      LeafChunk(ts, Given, g.given, i);
    } else {
      AtSplit(toks, i + 2, ClauseTokens(And, g.ands[0]), AndTokens(g.ands[1..]));
      ClauseAt(toks, i + 2, And, g.ands[0]);
      ClauseRun(toks, i, Given, g.given);
      var head := Leaf(g.given);
      ChunkStartsWithHead(ts, Given, i, i, i + 2);
      assert SkipText(toks, i + 2) == i + 2;
      ChainOpens(ts, head, i + 2);
      AndChain(ts, [head], i + 2, g.ands);
    }
  }

  /** A chain opened at m is the chain from m that starts with the head. */
  lemma {:induction false} ChainOpens(ts: TokenStream, head: Expr, m: nat)
    requires IsParsedBlock(head)
    requires m < |ts.toks| && ts.toks[m].kind != Text
    ensures Chain(ts, head, m) == ChainFrom(ts, ts.toks[m].kind, [head], m)
  {
    assert SkipText(ts.toks, m) == m;
    assert [head] + [BlockExpr(ts.toks[m].value, [])] == [head, BlockExpr(ts.toks[m].value, [])];
  }

  /** Where the behaviors stop: the end of the stream, or a Given. */
  predicate GivenOrEnd(toks: seq<TokenTuple>, j: nat) {
    j == |toks| || (j < |toks| && toks[j].kind == Given)
  }

  /** No behavior starts at the end of the stream or at a Given. */
  lemma {:induction false} NoBehaviors(ts: TokenStream, i: nat)
    requires ts.err == None
    requires GivenOrEnd(ts.toks, i)
    ensures Behaviors(ts, i) == Success(([], i))
  {
    assert SkipText(ts.toks, i) == i;
    assert Chunk(ts, When, i) == Success((None, i));
    assert Chunk(ts, Then, i) == Success((None, i));
  }

  /** A When clause and a Then clause, followed by a boundary, are one
      behavior of one block each. */
  lemma {:induction false} PairBehavior(ts: TokenStream, i: nat, p: Pair)
    requires ts.err == None
    requires At(ts.toks, i, ClauseTokens(When, p.when) + ClauseTokens(Then, p.outcome))
    requires Boundary(ts.toks, i + 4)
    ensures BehaviorAt(ts, i) == Success((Some(Behavior(Some(Leaf(p.when)), Some(Leaf(p.outcome)))), i + 4))
  {
    AtSplit(ts.toks, i, ClauseTokens(When, p.when), ClauseTokens(Then, p.outcome));
    ClauseAt(ts.toks, i + 2, Then, p.outcome);
    LeafChunk(ts, When, p.when, i);
    LeafChunk(ts, Then, p.outcome, i + 2);
  }

  /** The tokens of a non-empty run of pairs open with a When. */
  lemma {:induction false} PairsOpen(toks: seq<TokenTuple>, i: nat, ps: seq<Pair>)
    requires |ps| > 0 && At(toks, i, PairTokens(ps))
    ensures i < |toks| && toks[i].kind == When
  {
    var w := ClauseTokens(When, ps[0].when);
    AtSplit(toks, i, w + ClauseTokens(Then, ps[0].outcome), PairTokens(ps[1..]));
    AtSplit(toks, i, w, ClauseTokens(Then, ps[0].outcome));
    ClauseAt(toks, i, When, ps[0].when);
  }

  /** The When/Then pairs from i on are the behaviors, in order, when the
      stream ends or a Given follows them. */
  lemma {:induction false} PairsBehave(ts: TokenStream, i: nat, ps: seq<Pair>, e: nat)
    requires ts.err == None
    requires At(ts.toks, i, PairTokens(ps))
    requires e == i + 4 * |ps| && GivenOrEnd(ts.toks, e)
    ensures Behaviors(ts, i) == Success((PairBehaviors(ps), e))
    decreases |ps|
  {
    var toks := ts.toks;
    if |ps| == 0 {
      NoBehaviors(ts, i);
    } else {
      var rest := ps[1..];
      AtSplit(toks, i, ClauseTokens(When, ps[0].when) + ClauseTokens(Then, ps[0].outcome), PairTokens(rest));
      if |rest| > 0 {
        PairsOpen(toks, i + 4, rest);
      }
      PairBehavior(ts, i, ps[0]);
      PairsBehave(ts, i + 4, rest, e);
    }
  }

  /** The tokens of a non-empty run of groups open with a Given. */
  lemma {:induction false} GroupsOpen(toks: seq<TokenTuple>, i: nat, gs: seq<Group>)
    requires |gs| > 0 && At(toks, i, GroupsTokens(gs))
    ensures i < |toks| && toks[i].kind == Given
  {
    var g := gs[0];
    AtSplit(toks, i, GroupTokens(g), GroupsTokens(gs[1..]));
    AtSplit(toks, i, ClauseTokens(Given, g.given) + AndTokens(g.ands), PairTokens(g.pairs));
    AtSplit(toks, i, ClauseTokens(Given, g.given), AndTokens(g.ands));
    ClauseAt(toks, i, Given, g.given);
  }

  /** ScenarioAt from its Given chunk and its behaviors. */
  lemma {:induction false} ScenarioAtOf(ts: TokenStream, i: nat, given: Expr, p: nat, bs: seq<Behavior>, e: nat)
    requires i <= |ts.toks| && p <= |ts.toks|
    requires Chunk(ts, Given, i) == Success((Some(given), p))
    requires Behaviors(ts, p) == Success((bs, e))
    ensures ScenarioAt(ts, i) == Success((Some(Scenario(given, bs)), e))
  {
  }

  /** One group, followed by the end of the stream or a Given, is one
      scenario. */
  lemma {:induction false} GroupScenarioAt(ts: TokenStream, i: nat, g: Group, p: nat, e: nat)
    requires ts.err == None
    requires At(ts.toks, i, GroupTokens(g))
    requires p == i + 2 + 2 * |g.ands| && e == p + 4 * |g.pairs|
    requires GivenOrEnd(ts.toks, e)
    ensures ScenarioAt(ts, i) == Success((Some(GroupScenario(g)), e))
  {
    var toks := ts.toks;
    AtSplit(toks, i, ClauseTokens(Given, g.given) + AndTokens(g.ands), PairTokens(g.pairs));
    if |g.pairs| > 0 {
      PairsOpen(toks, p, g.pairs);
    }
    GivenChunk(ts, i, g);
    PairsBehave(ts, p, g.pairs, e);
    ScenarioAtOf(ts, i, GivenExpr(g), p, PairBehaviors(g.pairs), e);
  }

  /** The groups from i to the end of the stream are its scenarios. */
  lemma {:induction false} GroupsProgram(ts: TokenStream, i: nat, gs: seq<Group>)
    requires ts.err == None
    requires At(ts.toks, i, GroupsTokens(gs)) && i + |GroupsTokens(gs)| == |ts.toks|
    ensures Program(ts, i) == Outcome(GroupScenarios(gs), None, |ts.toks|)
    decreases |gs|
  {
    var toks := ts.toks;
    if |gs| == 0 {
      assert SkipText(toks, i) == i;
      assert ScenarioAt(ts, i) == Success((None, i));
    } else {
      var e := i + |GroupTokens(gs[0])|;
      AtSplit(toks, i, GroupTokens(gs[0]), GroupsTokens(gs[1..]));
      if |gs[1..]| > 0 {
        GroupsOpen(toks, e, gs[1..]);
      }
      GroupScenarioAt(ts, i, gs[0], i + 2 + 2 * |gs[0].ands|, e);
      GroupsProgram(ts, e, gs[1..]);
    }
  }

  /** A stream of well-formed groups, without error, parses to one scenario
      per group, in order, each with the group's Given (And) blocks as its
      given and the group's When/Then pairs as its behaviors; nothing is
      left over. */
  lemma {:induction false} GroupsParse(gs: seq<Group>)
    ensures ParseTokens(TokenStream(GroupsTokens(gs), None))
         == Outcome(GroupScenarios(gs), None, |GroupsTokens(gs)|)
    ensures Parse(TokenStream(GroupsTokens(gs), None)) == (GroupScenarios(gs), None)
  {
    var ts := TokenStream(GroupsTokens(gs), None);
    assert ts.toks[0..|ts.toks|] == ts.toks;
    GroupsProgram(ts, 0, gs);
    ParseMatchesGrammar(ts);
  }

  /** A group of a lone Given step is two tokens and a scenario without
      behaviors. */
  lemma {:induction false} LoneGiven(c: Clause)
    ensures GroupTokens(Group(c, [], [])) == [TokenTuple(Given, c.text), TokenTuple(Block, c.command)]
    ensures GroupScenario(Group(c, [], [])) == Scenario(BlockExpr(c.text, []), [])
  {
    assert AndTokens([]) == [] && PairTokens([]) == [];
  }

  /** Two Given steps in a row are two scenarios without behaviors. */
  lemma {:induction false} TwoGivens(a: string, x: string, b: string, y: string, toks: seq<TokenTuple>)
    requires toks == [TokenTuple(Given, a), TokenTuple(Block, x), TokenTuple(Given, b), TokenTuple(Block, y)]
    ensures Parse(TokenStream(toks, None)) == ([Scenario(BlockExpr(a, []), []), Scenario(BlockExpr(b, []), [])], None)
  {
    var g1 := Group(Clause(a, x), [], []);
    var g2 := Group(Clause(b, y), [], []);
    var gs := [g1, g2];
    LoneGiven(g1.given);
    LoneGiven(g2.given);
    assert gs[1..] == [g2] && gs[1..][1..] == [];
    assert GroupsTokens(gs[1..]) == GroupTokens(g2) + [];
    assert toks == GroupsTokens(gs);
    assert GroupScenarios(gs) == [GroupScenario(g1), GroupScenario(g2)];
    GroupsParse(gs);
  }

  /** The group of a Given step and two And steps. */
  lemma {:induction false} TwoAnds(grp: Group)
    requires |grp.ands| == 2 && grp.pairs == []
    ensures GroupsTokens([grp])
         == ClauseTokens(Given, grp.given) + ClauseTokens(And, grp.ands[0]) + ClauseTokens(And, grp.ands[1])
    ensures GroupScenarios([grp])
         == [Scenario(AndExpr([Leaf(grp.given), Leaf(grp.ands[0]), Leaf(grp.ands[1])]), [])]
  {
    var ands := grp.ands;
    assert ands[1..] == [ands[1]] && ands[1..][1..] == [];
    assert AndTokens(ands[1..]) == ClauseTokens(And, ands[1]) + [];
    assert AndTokens(ands) == ClauseTokens(And, ands[0]) + ClauseTokens(And, ands[1]);
    assert GroupTokens(grp) == ClauseTokens(Given, grp.given) + AndTokens(ands) + [];
    assert [grp][1..] == [];
    assert GroupsTokens([grp]) == GroupTokens(grp) + [];
    assert Leaves(ands) == [Leaf(ands[0]), Leaf(ands[1])];
    assert PairBehaviors([]) == [];
    assert [Leaf(grp.given)] + Leaves(ands) == [Leaf(grp.given), Leaf(ands[0]), Leaf(ands[1])];
    assert GroupScenario(grp) == Scenario(AndExpr([Leaf(grp.given), Leaf(ands[0]), Leaf(ands[1])]), []);
    assert GroupScenarios([grp]) == [GroupScenario(grp)] + GroupScenarios([]);
  }

  /** A Given step with two And steps is one scenario whose given is an And
      of the three blocks, in order. */
  lemma {:induction false} GivenAndAnd(g: string, a1: string, a2: string, c0: string, c1: string, c2: string, toks: seq<TokenTuple>)
    requires toks == [TokenTuple(Given, g), TokenTuple(Block, c0), TokenTuple(And, a1), TokenTuple(Block, c1),
                      TokenTuple(And, a2), TokenTuple(Block, c2)]
    ensures Parse(TokenStream(toks, None)) == ([Scenario(AndExpr([BlockExpr(g, []), BlockExpr(a1, []), BlockExpr(a2, [])]), [])], None)
  {
    var grp := Group(Clause(g, c0), [Clause(a1, c1), Clause(a2, c2)], []);
    TwoAnds(grp);
    assert toks == GroupsTokens([grp]);
    GroupsParse([grp]);
  }
}

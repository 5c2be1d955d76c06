/** The grammar the parser recognises, stated over a cursor into the token
    stream instead of a pushback slot:

      program  := scenario*
      scenario := chunk(Given) behavior*
      behavior := chunk(When)? chunk(Then)?     (at least one present)
      chunk(T) := T block (And block)* | T block (Or block)* | T block
      block    := Block*

    Text tokens are skipped wherever a directive is expected; a Text token
    ends a run of Blocks. Each function returns what it built and the cursor
    of the first token it did not consume. A read past the last token fails
    with the lexer's error if there is one, and otherwise sees the end of
    input. */
module Grammar {
  import opened Base
  import opened Lexer
  import opened Ast

  /** The first position at or after i that does not hold a Text token. */
  function SkipText(toks: seq<TokenTuple>, i: nat): (j: nat)
    requires i <= |toks|
    ensures i <= j <= |toks|
    ensures j < |toks| ==> toks[j].kind != Text
    decreases |toks| - i
  {
    if i < |toks| && toks[i].kind == Text then SkipText(toks, i + 1) else i
  }

  /** The end of the run of Block tokens starting at i. */
  function BlockRunEnd(toks: seq<TokenTuple>, i: nat): (j: nat)
    requires i <= |toks|
    ensures i <= j <= |toks|
    ensures j < |toks| ==> toks[j].kind != Block
    decreases |toks| - i
  {
    if i < |toks| && toks[i].kind == Block then BlockRunEnd(toks, i + 1) else i
  }

  /** Everything SkipText passes over is Text. */
  lemma {:induction false} SkipTextSkipsOnlyText(toks: seq<TokenTuple>, i: nat)
    requires i <= |toks|
    ensures forall k :: i <= k < SkipText(toks, i) ==> toks[k].kind == Text
    decreases |toks| - i
  {
    if i < |toks| && toks[i].kind == Text {
      SkipTextSkipsOnlyText(toks, i + 1);
    }
  }

  /** Everything in a block run is a Block. */
  lemma {:induction false} BlockRunIsBlocks(toks: seq<TokenTuple>, i: nat)
    requires i <= |toks|
    ensures forall k :: i <= k < BlockRunEnd(toks, i) ==> toks[k].kind == Block
    decreases |toks| - i
  {
    if i < |toks| && toks[i].kind == Block {
      BlockRunIsBlocks(toks, i + 1);
    }
  }

  /** A read past the last token. */
  function AtEnd<T>(ts: TokenStream, v: T): Result<(T, nat)> {
    match ts.err
    case Some(e) => Failure(e)
    case None => Success((v, |ts.toks|))
  }

  /** chunk(t) at cursor i: None, with only Text consumed, when the next
      directive is not t; otherwise the head block, wrapped in an And (Or)
      expression when And (Or) chunks follow. */
  function Chunk(ts: TokenStream, t: Token, i: nat): (r: Result<(Option<Expr>, nat)>)
    requires i <= |ts.toks|
    ensures r.Failure? ==> ts.err == Some(r.error)
    ensures r.Success? ==> i <= r.value.1 <= |ts.toks|
    ensures r.Success? && r.value.1 < |ts.toks| ==> ts.toks[r.value.1].kind != Text
    ensures r.Success? && r.value.0.None? ==>
              && r.value.1 == SkipText(ts.toks, i)
              && (r.value.1 == |ts.toks| || ts.toks[r.value.1].kind != t)
    ensures r.Success? && r.value.0.Some? ==>
              && i < r.value.1
              && SkipText(ts.toks, i) < |ts.toks|
              && ts.toks[SkipText(ts.toks, i)].kind == t
              && IsChunkExpr(r.value.0.value)
    ensures r.Success? && r.value.0.Some? && r.value.1 < |ts.toks| ==>
              var next := ts.toks[r.value.1].kind;
              match r.value.0.value
              case BlockExpr(_, _) => next != And && next != Or
              case AndExpr(_) => next != And
              case OrExpr(_) => next != Or
  {
    var toks := ts.toks;
    var j := SkipText(toks, i);
    if j == |toks| then AtEnd(ts, None)
    else if toks[j].kind != t then Success((None, j))
    else ChunkTail(ts, BlockExpr(toks[j].value, []), BlockRunEnd(toks, j + 1))
  }

  /** The rest of chunk(t) at cursor k, just after its head block. */
  function ChunkTail(ts: TokenStream, head: Expr, k: nat): (r: Result<(Option<Expr>, nat)>)
    requires k <= |ts.toks| && IsParsedBlock(head)
    ensures r.Failure? ==> ts.err == Some(r.error)
    ensures r.Success? ==> k <= r.value.1 <= |ts.toks|
    ensures r.Success? ==> r.value.0.Some? && IsChunkExpr(r.value.0.value)
    ensures r.Success? && r.value.1 < |ts.toks| ==>
              var next := ts.toks[r.value.1].kind;
              && next != Text
              && match r.value.0.value
                 case BlockExpr(_, _) => next != And && next != Or
                 case AndExpr(_) => next != And
                 case OrExpr(_) => next != Or
  {
    var toks := ts.toks;
    var m := SkipText(toks, k);
    if m == |toks| then AtEnd(ts, Some(head))
    else if toks[m].kind == And then
      var (cs, c) :- Chain(ts, head, m);
      Success((Some(AndExpr(cs)), c))
    else if toks[m].kind == Or then
      var (cs, c) :- Chain(ts, head, m);
      Success((Some(OrExpr(cs)), c))
    else Success((Some(head), m))
  }

  /** The children of an And (Or) chunk whose head block is followed by the
      And (Or) directive at m. */
  function Chain(ts: TokenStream, head: Expr, m: nat): (r: Result<(seq<Expr>, nat)>)
    requires IsParsedBlock(head)
    requires m < |ts.toks|
    ensures r.Failure? ==> ts.err == Some(r.error)
    ensures r.Success? ==> m < r.value.1 <= |ts.toks|
    ensures r.Success? && r.value.1 < |ts.toks| ==>
              ts.toks[r.value.1].kind != Text && ts.toks[r.value.1].kind != ts.toks[m].kind
    ensures r.Success? ==> |r.value.0| >= 2 && r.value.0[0] == head
    ensures r.Success? ==> forall c :: c in r.value.0 ==> IsParsedBlock(c)
  {
    var first := [head, BlockExpr(ts.toks[m].value, [])];
    var r := ChainFrom(ts, ts.toks[m].kind, first, BlockRunEnd(ts.toks, m + 1));
    assert r.Success? ==> r.value.0[..2] == first;
    r
  }

  /** The rest of a chain of trailing chunks of one kind, from cursor i just
      after a block: each further chunk of that kind contributes one block,
      in source order, and the chain stops at any other kind. */
  function ChainFrom(ts: TokenStream, kind: Token, cs: seq<Expr>, i: nat): (r: Result<(seq<Expr>, nat)>)
    requires i <= |ts.toks|
    ensures r.Failure? ==> ts.err == Some(r.error)
    ensures r.Success? ==> i <= r.value.1 <= |ts.toks|
    ensures r.Success? && r.value.1 < |ts.toks| ==>
              ts.toks[r.value.1].kind != Text && ts.toks[r.value.1].kind != kind
    ensures r.Success? ==> |r.value.0| >= |cs| && r.value.0[..|cs|] == cs
    ensures r.Success? ==> forall c :: c in r.value.0[|cs|..] ==> IsParsedBlock(c)
    decreases |ts.toks| - i
  {
    var toks := ts.toks;
    var m := SkipText(toks, i);
    if m == |toks| then AtEnd(ts, cs)
    else if toks[m].kind != kind then Success((cs, m))
    else
      var cs' := cs + [BlockExpr(toks[m].value, [])];
      var r := ChainFrom(ts, kind, cs', BlockRunEnd(toks, m + 1));
      assert r.Success? ==> r.value.0[..|cs'|] == cs' && r.value.0[..|cs|] == cs'[..|cs|];
      r
  }

  /** behavior at cursor i: an optional When chunk, then an optional Then
      chunk; None when both are absent. */
  function BehaviorAt(ts: TokenStream, i: nat): (r: Result<(Option<Behavior>, nat)>)
    requires i <= |ts.toks|
    ensures r.Failure? ==> ts.err == Some(r.error)
    ensures r.Success? ==> i <= r.value.1 <= |ts.toks|
    ensures r.Success? && r.value.1 < |ts.toks| ==> ts.toks[r.value.1].kind != Text
    ensures r.Success? && r.value.0.Some? ==> i < r.value.1 && IsParsedBehavior(r.value.0.value)
    ensures r.Success? && r.value.0.None? ==>
              && r.value.1 == SkipText(ts.toks, i)
              && (r.value.1 == |ts.toks| || (ts.toks[r.value.1].kind != When && ts.toks[r.value.1].kind != Then))
  {
    var (w, j) :- Chunk(ts, When, i);
    var (th, k) :- Chunk(ts, Then, j);
    if w.None? && th.None? then Success((None, k))
    else Success((Some(Behavior(w, th)), k))
  }

  /** behavior*: behaviors in the order they appear. */
  function Behaviors(ts: TokenStream, i: nat): (r: Result<(seq<Behavior>, nat)>)
    requires i <= |ts.toks|
    ensures r.Failure? ==> ts.err == Some(r.error)
    ensures r.Success? ==> i <= r.value.1 <= |ts.toks|
    ensures r.Success? && r.value.1 < |ts.toks| ==>
              (ts.toks[r.value.1].kind != Text && ts.toks[r.value.1].kind != When && ts.toks[r.value.1].kind != Then)
    ensures r.Success? ==> forall b :: b in r.value.0 ==> IsParsedBehavior(b)
    decreases |ts.toks| - i
  {
    var (b, j) :- BehaviorAt(ts, i);
    if b.None? then Success(([], j))
    else
      var (bs, c) :- Behaviors(ts, j);
      var all := [b.value] + bs;
      Success((all, c))
  }

  /** scenario at cursor i: None when the next directive is not Given. */
  function ScenarioAt(ts: TokenStream, i: nat): (r: Result<(Option<Scenario>, nat)>)
    requires i <= |ts.toks|
    ensures r.Failure? ==> ts.err == Some(r.error)
    ensures r.Success? ==> i <= r.value.1 <= |ts.toks|
    ensures r.Success? && r.value.1 < |ts.toks| ==> ts.toks[r.value.1].kind != Text
    ensures r.Success? && r.value.0.Some? ==> i < r.value.1 && IsParsedScenario(r.value.0.value)
    ensures r.Success? && r.value.0.Some? && r.value.1 < |ts.toks| ==>
              (ts.toks[r.value.1].kind != When && ts.toks[r.value.1].kind != Then)
    ensures r.Success? && r.value.0.None? ==>
              && r.value.1 == SkipText(ts.toks, i)
              && (r.value.1 == |ts.toks| || ts.toks[r.value.1].kind != Given)
  {
    var (g, j) :- Chunk(ts, Given, i);
    if g.None? then Success((None, j))
    else
      var (bs, k) :- Behaviors(ts, j);
      Success((Some(Scenario(g.value, bs)), k))
  }

  /** The result of parsing a whole token stream: the scenarios completed,
      the error that aborted the parse (if any), and the cursor where parsing
      stopped. */
  datatype Outcome = Outcome(scenarios: seq<Scenario>, err: Option<Error>, stop: nat)

  /** program from cursor i. On an error, the scenarios completed before the
      failing one are kept. */
  function Program(ts: TokenStream, i: nat): (r: Outcome)
    requires i <= |ts.toks|
    ensures r.err.Some? ==> r.err == ts.err && r.stop == |ts.toks|
    ensures i <= r.stop <= |ts.toks|
    ensures r.err.None? && r.stop < |ts.toks| ==> (ts.toks[r.stop].kind != Text && ts.toks[r.stop].kind != Given)
    ensures r.err.None? && r.stop < |ts.toks| && |r.scenarios| > 0 ==>
              (ts.toks[r.stop].kind != When && ts.toks[r.stop].kind != Then)
    ensures r.err.None? && |r.scenarios| == 0 ==> r.stop == SkipText(ts.toks, i)
    ensures |r.scenarios| <= |ts.toks| - i
    ensures forall sc :: sc in r.scenarios ==> IsParsedScenario(sc)
    decreases |ts.toks| - i
  {
    match ScenarioAt(ts, i)
    case Failure(e) => Outcome([], Some(e), |ts.toks|)
    case Success((None, j)) => Outcome([], None, j)
    case Success((Some(sc), j)) =>
      var rest := Program(ts, j);
      var all := [sc] + rest.scenarios;
      Outcome(all, rest.err, rest.stop)
  }

  function ParseTokens(ts: TokenStream): Outcome {
    Program(ts, 0)
  }
}

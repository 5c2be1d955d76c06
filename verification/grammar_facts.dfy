/** Properties of the grammar: the lexer's error matters only once a read
    goes past the last token, so a failed parse keeps every scenario
    completed before the read that failed; a stream whose first
    directive is not Given yields no scenario at all; and nothing from the
    first Finally token on is ever read. */
module GrammarFacts {
  import opened Base
  import opened Lexer
  import opened Ast
  import opened Grammar
  import opened Parser
  import opened ParserFacts

  /** The same tokens, ending at the end of input instead of an error. */
  function Clean(ts: TokenStream): TokenStream {
    ts.(err := None)
  }

  /** The relation each grammar function keeps between a stream and its
      clean version: a success does not depend on the error, and a failure
      is a read past the last token, where the clean stream ends. */
  ghost predicate ErrorOnlyAtEnd<T>(ts: TokenStream, f: Result<(T, nat)>, g: Result<(T, nat)>) {
    && g.Success?
    && (f.Success? ==> g == f)
    && (f.Failure? ==> g.value.1 == |ts.toks|)
  }

  lemma ChainFromErrorOnlyAtEnd(ts: TokenStream, kind: Token, cs: seq<Expr>, i: nat)
    requires i <= |ts.toks|
    ensures ErrorOnlyAtEnd(ts, ChainFrom(ts, kind, cs, i), ChainFrom(Clean(ts), kind, cs, i))
    decreases |ts.toks| - i
  {
    var c := Clean(ts);
    var m := SkipText(ts.toks, i);
    if m == |ts.toks| {
      assert ChainFrom(ts, kind, cs, i) == AtEnd(ts, cs);
      assert ChainFrom(c, kind, cs, i) == Success((cs, m));
    } else if ts.toks[m].kind != kind {
      assert ChainFrom(ts, kind, cs, i) == Success((cs, m)) == ChainFrom(c, kind, cs, i);
    } else {
      var cs' := cs + [BlockExpr(ts.toks[m].value, [])];
      var n := BlockRunEnd(ts.toks, m + 1);
      ChainFromErrorOnlyAtEnd(ts, kind, cs', n);
      assert ChainFrom(ts, kind, cs, i) == ChainFrom(ts, kind, cs', n);
      assert ChainFrom(c, kind, cs, i) == ChainFrom(c, kind, cs', n);
    }
  }

  lemma ChunkTailErrorOnlyAtEnd(ts: TokenStream, head: Expr, k: nat)
    requires k <= |ts.toks| && IsParsedBlock(head)
    ensures ErrorOnlyAtEnd(ts, ChunkTail(ts, head, k), ChunkTail(Clean(ts), head, k))
  {
    var c := Clean(ts);
    var m := SkipText(ts.toks, k);
    if m == |ts.toks| {
      assert ChunkTail(ts, head, k) == AtEnd(ts, Some(head));
      assert ChunkTail(c, head, k) == Success((Some(head), m));
    } else if ts.toks[m].kind == And || ts.toks[m].kind == Or {
      var first := [head, BlockExpr(ts.toks[m].value, [])];
      var n := BlockRunEnd(ts.toks, m + 1);
      ChainFromErrorOnlyAtEnd(ts, ts.toks[m].kind, first, n);
      assert Chain(ts, head, m) == ChainFrom(ts, ts.toks[m].kind, first, n);
      assert Chain(c, head, m) == ChainFrom(c, ts.toks[m].kind, first, n);
    } else {
      assert ChunkTail(ts, head, k) == Success((Some(head), m)) == ChunkTail(c, head, k);
    }
  }

  lemma ChunkErrorOnlyAtEnd(ts: TokenStream, t: Token, i: nat)
    requires i <= |ts.toks|
    ensures ErrorOnlyAtEnd(ts, Chunk(ts, t, i), Chunk(Clean(ts), t, i))
  {
    var c := Clean(ts);
    var j := SkipText(ts.toks, i);
    if j == |ts.toks| {
      assert Chunk(ts, t, i) == AtEnd(ts, None);
      assert Chunk(c, t, i) == Success((None, j));
    } else if ts.toks[j].kind == t {
      var head := BlockExpr(ts.toks[j].value, []);
      ChunkTailErrorOnlyAtEnd(ts, head, BlockRunEnd(ts.toks, j + 1));
      assert Chunk(ts, t, i) == ChunkTail(ts, head, BlockRunEnd(ts.toks, j + 1));
      assert Chunk(c, t, i) == ChunkTail(c, head, BlockRunEnd(ts.toks, j + 1));
    } else {
      assert Chunk(ts, t, i) == Success((None, j)) == Chunk(c, t, i);
    }
  }

  lemma BehaviorAtErrorOnlyAtEnd(ts: TokenStream, i: nat)
    requires i <= |ts.toks|
    ensures ErrorOnlyAtEnd(ts, BehaviorAt(ts, i), BehaviorAt(Clean(ts), i))
  {
    ChunkErrorOnlyAtEnd(ts, When, i);
    var w := Chunk(ts, When, i);
    var cw := Chunk(Clean(ts), When, i);
    ChunkErrorOnlyAtEnd(ts, Then, cw.value.1);
    if w.Failure? {
      EndChunk(Clean(ts), Then);
    }
  }

  /** At the end of a clean stream a chunk is absent and consumes nothing. */
  lemma EndChunk(ts: TokenStream, t: Token)
    requires ts.err == None
    ensures Chunk(ts, t, |ts.toks|) == Success((None, |ts.toks|))
  {
    assert SkipText(ts.toks, |ts.toks|) == |ts.toks|;
  }

  lemma BehaviorsErrorOnlyAtEnd(ts: TokenStream, i: nat)
    requires i <= |ts.toks|
    ensures ErrorOnlyAtEnd(ts, Behaviors(ts, i), Behaviors(Clean(ts), i))
    decreases |ts.toks| - i
  {
    BehaviorAtErrorOnlyAtEnd(ts, i);
    var b := BehaviorAt(ts, i);
    var cb := BehaviorAt(Clean(ts), i);
    if cb.value.0.Some? {
      BehaviorsErrorOnlyAtEnd(ts, cb.value.1);
      if b.Failure? {
        EndBehaviors(Clean(ts));
      }
    }
  }

  /** At the end of a clean stream there are no more behaviors. */
  lemma EndBehaviors(ts: TokenStream)
    requires ts.err == None
    ensures Behaviors(ts, |ts.toks|) == Success(([], |ts.toks|))
  {
    EndChunk(ts, When);
    EndChunk(ts, Then);
  }

  lemma ScenarioAtErrorOnlyAtEnd(ts: TokenStream, i: nat)
    requires i <= |ts.toks|
    ensures ErrorOnlyAtEnd(ts, ScenarioAt(ts, i), ScenarioAt(Clean(ts), i))
  {
    ChunkErrorOnlyAtEnd(ts, Given, i);
    var cg := Chunk(Clean(ts), Given, i);
    if cg.value.0.Some? {
      BehaviorsErrorOnlyAtEnd(ts, cg.value.1);
      if Chunk(ts, Given, i).Failure? {
        EndBehaviors(Clean(ts));
      }
    }
  }

  /** A parse that ends in the lexer's error has kept the scenarios
      completed before it: they are those of the same tokens without the
      error, except at most the last one, whose reading the error cut
      short. A parse without error is the same as on the clean stream. */
  lemma {:induction false} ErrorKeepsCompletedScenarios(ts: TokenStream, i: nat)
    requires i <= |ts.toks|
    ensures Program(Clean(ts), i).err == None
    ensures Program(ts, i).err == None ==> Program(ts, i) == Program(Clean(ts), i)
    ensures Program(ts, i).err.Some? ==>
              && IsPrefix(Program(ts, i).scenarios, Program(Clean(ts), i).scenarios)
              && |Program(Clean(ts), i).scenarios| <= |Program(ts, i).scenarios| + 1
    decreases |ts.toks| - i
  {
    var c := Clean(ts);
    var n := |ts.toks|;
    ScenarioAtErrorOnlyAtEnd(ts, i);
    var s := ScenarioAt(ts, i);
    var cs := ScenarioAt(c, i);
    if s.Failure? {
      assert Program(ts, i) == Outcome([], Some(s.error), n);
      if cs.value.0.None? {
        assert Program(c, i) == Outcome([], None, n);
      } else {
        EndProgram(c);
        assert Program(c, i) == Outcome([cs.value.0.value] + [], None, n);
      }
    } else if s.value.0.None? {
      assert Program(ts, i) == Outcome([], None, s.value.1) == Program(c, i);
    } else {
      var sc := s.value.0.value;
      var j := s.value.1;
      ErrorKeepsCompletedScenarios(ts, j);
      var rest := Program(ts, j);
      var crest := Program(c, j);
      assert Program(ts, i) == Outcome([sc] + rest.scenarios, rest.err, rest.stop);
      assert Program(c, i) == Outcome([sc] + crest.scenarios, crest.err, crest.stop);
      if rest.err.Some? {
        PrefixCons(sc, rest.scenarios, crest.scenarios);
      }
    }
  }

  lemma PrefixCons<T>(x: T, a: seq<T>, b: seq<T>)
    requires IsPrefix(a, b)
    ensures IsPrefix([x] + a, [x] + b)
  {
    assert ([x] + b)[..1 + |a|] == [x] + b[..|a|];
  }

  /** At the end of a clean stream no scenario starts. */
  lemma EndProgram(ts: TokenStream)
    requires ts.err == None
    ensures Program(ts, |ts.toks|) == Outcome([], None, |ts.toks|)
  {
    EndChunk(ts, Given);
  }

  /** When the first directive at or after i is not Given, the program is
      empty and stops there without error; when only Text tokens remain,
      it is empty and ends in the lexer's error, if any. */
  lemma ProgramWithoutGiven(ts: TokenStream, i: nat)
    requires i <= |ts.toks|
    ensures var j := SkipText(ts.toks, i);
      && (j < |ts.toks| && ts.toks[j].kind != Given ==> Program(ts, i) == Outcome([], None, j))
      && (j == |ts.toks| ==> Program(ts, i) == Outcome([], ts.err, |ts.toks|))
  {
  }

  /** A stream without a Given token has no scenario. */
  lemma NoGivenNoScenario(ts: TokenStream)
    requires forall k :: 0 <= k < |ts.toks| ==> ts.toks[k].kind != Given
    ensures ParseTokens(ts).scenarios == []
  {
    ProgramWithoutGiven(ts, 0);
  }

  /** A Block before the first directive ends the parse where it stands:
      no scenario and no error, whatever follows it, Given steps and a read
      error included. */
  lemma LeadingBlockEndsParse(ts: TokenStream)
    requires |ts.toks| > 0 && ts.toks[0].kind == Block
    ensures ParseTokens(ts) == Outcome([], None, 0)
    ensures Parse(ts) == ([], None)
  {
    assert SkipText(ts.toks, 0) == 0;
    ProgramWithoutGiven(ts, 0);
    ParseMatchesGrammar(ts);
  }

  /** What Parse returns on a stream that ends in a read error: the
      scenarios it returns with the error are those of the same tokens
      without the error, less at most the last one. */
  lemma ParseKeepsCompletedScenarios(ts: TokenStream)
    ensures Parse(Clean(ts)).1 == None
    ensures Parse(ts).1.None? ==> Parse(ts) == Parse(Clean(ts))
    ensures Parse(ts).1.Some? ==>
              && Parse(ts).1 == ts.err
              && IsPrefix(Parse(ts).0, Parse(Clean(ts)).0)
              && |Parse(Clean(ts)).0| <= |Parse(ts).0| + 1
  {
    ParseMatchesGrammar(ts);
    ParseMatchesGrammar(Clean(ts));
    ErrorKeepsCompletedScenarios(ts, 0);
  }

  /** Parse finds no scenario in a stream without a Given token. */
  lemma ParseWithoutGiven(ts: TokenStream)
    requires forall k :: 0 <= k < |ts.toks| ==> ts.toks[k].kind != Given
    ensures Parse(ts).0 == []
  {
    ParseMatchesGrammar(ts);
    NoGivenNoScenario(ts);
  }

  /** The tokens before position f, ending at the end of input. */
  function Cut(ts: TokenStream, f: nat): TokenStream
    requires f <= |ts.toks|
  {
    TokenStream(ts.toks[..f], None)
  }

  /** A Finally token at f. */
  predicate FinallyAt(ts: TokenStream, f: nat) {
    f < |ts.toks| && ts.toks[f].kind == Finally
  }

  /** Skipping Text from i, at or before a Finally at f, never passes f:
      the tokens from f on do not matter. */
  lemma {:induction false} CutSkipText(ts: TokenStream, i: nat, f: nat)
    requires FinallyAt(ts, f) && i <= f
    ensures SkipText(ts.toks, i) == SkipText(Cut(ts, f).toks, i) <= f
    decreases f - i
  {
    if i < f {
      assert Cut(ts, f).toks[i] == ts.toks[i];
      if ts.toks[i].kind == Text {
        CutSkipText(ts, i + 1, f);
      }
    }
  }

  lemma {:induction false} CutBlockRun(ts: TokenStream, i: nat, f: nat)
    requires FinallyAt(ts, f) && i <= f
    ensures BlockRunEnd(ts.toks, i) == BlockRunEnd(Cut(ts, f).toks, i) <= f
    decreases f - i
  {
    if i < f {
      assert Cut(ts, f).toks[i] == ts.toks[i];
      if ts.toks[i].kind == Block {
        CutBlockRun(ts, i + 1, f);
      }
    }
  }

  lemma {:induction false} CutChainFrom(ts: TokenStream, kind: Token, cs: seq<Expr>, i: nat, f: nat)
    requires FinallyAt(ts, f) && i <= f && kind != Finally
    ensures ChainFrom(ts, kind, cs, i) == ChainFrom(Cut(ts, f), kind, cs, i)
    decreases f - i
  {
    var cut := Cut(ts, f);
    var m := SkipText(ts.toks, i);
    CutSkipText(ts, i, f);
    if m == f {
      assert ChainFrom(ts, kind, cs, i) == Success((cs, f));
      assert ChainFrom(cut, kind, cs, i) == Success((cs, f));
    } else {
      assert cut.toks[m] == ts.toks[m];
      if ts.toks[m].kind == kind {
        var cs' := cs + [BlockExpr(ts.toks[m].value, [])];
        var n := BlockRunEnd(ts.toks, m + 1);
        CutBlockRun(ts, m + 1, f);
        assert ChainFrom(ts, kind, cs, i) == ChainFrom(ts, kind, cs', n);
        assert ChainFrom(cut, kind, cs, i) == ChainFrom(cut, kind, cs', n);
        CutChainFrom(ts, kind, cs', n, f);
      }
    }
  }

  lemma {:induction false} CutChain(ts: TokenStream, head: Expr, m: nat, f: nat)
    requires FinallyAt(ts, f) && m < f && IsParsedBlock(head)
    requires ts.toks[m].kind != Finally
    ensures Chain(ts, head, m) == Chain(Cut(ts, f), head, m)
  {
    assert Cut(ts, f).toks[m] == ts.toks[m];
    CutBlockRun(ts, m + 1, f);
    CutChainFrom(ts, ts.toks[m].kind, [head, BlockExpr(ts.toks[m].value, [])], BlockRunEnd(ts.toks, m + 1), f);
  }

  lemma {:induction false} CutChunkTail(ts: TokenStream, head: Expr, k: nat, f: nat)
    requires FinallyAt(ts, f) && k <= f && IsParsedBlock(head)
    ensures ChunkTail(ts, head, k) == ChunkTail(Cut(ts, f), head, k)
  {
    var cut := Cut(ts, f);
    var m := SkipText(ts.toks, k);
    CutSkipText(ts, k, f);
    if m == f {
      assert ChunkTail(ts, head, k) == Success((Some(head), f));
      assert ChunkTail(cut, head, k) == Success((Some(head), f));
    } else {
      assert cut.toks[m] == ts.toks[m];
      if ts.toks[m].kind == And || ts.toks[m].kind == Or {
        CutChain(ts, head, m, f);
      }
    }
  }

  lemma {:induction false} CutChunk(ts: TokenStream, t: Token, i: nat, f: nat)
    requires FinallyAt(ts, f) && i <= f && t != Finally
    ensures Chunk(ts, t, i) == Chunk(Cut(ts, f), t, i)
  {
    var cut := Cut(ts, f);
    var j := SkipText(ts.toks, i);
    CutSkipText(ts, i, f);
    if j == f {
      assert Chunk(ts, t, i) == Success((None, f));
      assert Chunk(cut, t, i) == Success((None, f));
    } else {
      assert cut.toks[j] == ts.toks[j];
      if ts.toks[j].kind == t {
        var head := BlockExpr(ts.toks[j].value, []);
        var k := BlockRunEnd(ts.toks, j + 1);
        CutBlockRun(ts, j + 1, f);
        assert Chunk(ts, t, i) == ChunkTail(ts, head, k);
        assert Chunk(cut, t, i) == ChunkTail(cut, head, k);
        CutChunkTail(ts, head, k, f);
      }
    }
  }

  lemma {:induction false} CutBehaviorAt(ts: TokenStream, i: nat, f: nat)
    requires FinallyAt(ts, f) && i <= f
    ensures BehaviorAt(ts, i) == BehaviorAt(Cut(ts, f), i)
  {
    CutChunk(ts, When, i, f);
    var c := Chunk(Cut(ts, f), When, i);
    if c.Success? {
      CutChunk(ts, Then, c.value.1, f);
    }
  }

  lemma {:induction false} CutBehaviors(ts: TokenStream, i: nat, f: nat)
    requires FinallyAt(ts, f) && i <= f
    ensures Behaviors(ts, i) == Behaviors(Cut(ts, f), i)
    decreases f - i
  {
    CutBehaviorAt(ts, i, f);
    var b := BehaviorAt(Cut(ts, f), i);
    if b.Success? && b.value.0.Some? {
      CutBehaviors(ts, b.value.1, f);
    }
  }

  lemma {:induction false} CutScenarioAt(ts: TokenStream, i: nat, f: nat)
    requires FinallyAt(ts, f) && i <= f
    ensures ScenarioAt(ts, i) == ScenarioAt(Cut(ts, f), i)
  {
    CutChunk(ts, Given, i, f);
    var g := Chunk(Cut(ts, f), Given, i);
    if g.Success? && g.value.0.Some? {
      CutBehaviors(ts, g.value.1, f);
    }
  }

  /** The grammar never reads past a Finally token: parsing from any cursor
      at or before it gives what it gives on the tokens before it alone, so
      it stops at or before the Finally, and without error, whatever follows,
      a read error included. */
  lemma {:induction false} ProgramStopsAtFinally(ts: TokenStream, i: nat, f: nat)
    requires FinallyAt(ts, f) && i <= f
    ensures Program(ts, i) == Program(Cut(ts, f), i)
    ensures Program(ts, i).stop <= f && Program(ts, i).err == None
    decreases f - i
  {
    CutScenarioAt(ts, i, f);
    var r := ScenarioAt(Cut(ts, f), i);
    if r.Success? && r.value.0.Some? {
      ProgramStopsAtFinally(ts, r.value.1, f);
    }
  }

  /** Parse stops at the first Finally token without error, and returns what
      it returns on the tokens before it. */
  lemma ParseStopsAtFinally(ts: TokenStream, f: nat)
    requires FinallyAt(ts, f)
    ensures Parse(ts) == Parse(Cut(ts, f))
    ensures Parse(ts).1 == None
  {
    ProgramStopsAtFinally(ts, 0, f);
    ParseMatchesGrammar(ts);
    ParseMatchesGrammar(Cut(ts, f));
  }
}

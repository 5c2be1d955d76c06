/** The one-slot-pushback parser computes exactly what the cursor-based
    grammar describes. A parser state stands for a cursor: the position of
    the token the next scan returns. The slot is always consistent with the
    stream, because the parser pushes back only a token it has just scanned,
    and scans again before pushing back again. */
module ParserFacts {
  import opened Base
  import opened Lexer
  import opened Ast
  import opened Grammar
  import opened Parser

  /** A pending pushback is the token read most recently. */
  predicate Coherent(ts: TokenStream, st: ParserState) {
    && st.pos <= |ts.toks|
    && (st.buffered ==> 0 < st.pos && st.last == Some(ts.toks[st.pos - 1]))
  }

  /** The position of the token the next scan returns. */
  function Cursor(st: ParserState): nat {
    if st.buffered && st.pos > 0 then st.pos - 1 else st.pos
  }

  /** The state right after scan returned the token at j. */
  function After(ts: TokenStream, j: nat): ParserState
    requires j < |ts.toks|
  {
    ParserState(j + 1, Some(ts.toks[j]), false)
  }

  /** The state after a scan found the end of input. */
  function Exhausted(ts: TokenStream): ParserState {
    ParserState(|ts.toks|, None, false)
  }

  /** How a parsing step that built v ends when the token at k is the first
      it does not want: that token is pushed back, or, at the end of input,
      the lexer's error panics or the scan returns nil. */
  function Settle<T>(ts: TokenStream, v: T, k: nat): (r: Result<(T, ParserState)>)
    requires k <= |ts.toks|
    ensures r.Failure? ==> k == |ts.toks| && ts.err == Some(r.error)
    ensures r.Success? ==> r.value.0 == v && Coherent(ts, r.value.1) && Cursor(r.value.1) == k
    ensures r.Success? <==> k < |ts.toks| || ts.err.None?
  {
    if k < |ts.toks| then Success((v, Unscan(After(ts, k))))
    else match ts.err
      case Some(e) => Failure(e)
      case None => Success((v, Exhausted(ts)))
  }

  /** A parser result and a grammar result agree: the same error, or the
      same value with the parser left at the grammar's cursor. */
  ghost predicate Agrees<T>(ts: TokenStream, f: Result<(T, ParserState)>, g: Result<(T, nat)>) {
    && f.Success? == g.Success?
    && (f.Failure? ==> f.error == g.error)
    && (f.Success? ==> f.value.0 == g.value.0 && Coherent(ts, f.value.1) && Cursor(f.value.1) == g.value.1)
  }

  /** scanIgnoreText returns the first non-Text token at or after the
      cursor, and leaves the parser just past it. */
  lemma {:induction false} ScanIgnoreTextSkips(ts: TokenStream, st: ParserState)
    requires Coherent(ts, st)
    ensures var j := SkipText(ts.toks, Cursor(st));
      ScanIgnoreText(ts, st)
        == if j < |ts.toks| then Success((Some(ts.toks[j]), After(ts, j)))
           else if ts.err.Some? then Failure(ts.err.value)
           else Success((None, Exhausted(ts)))
    decreases Measure(ts, st)
  {
    var c := Cursor(st);
    if c < |ts.toks| {
      assert Scan(ts, st) == Success((Some(ts.toks[c]), After(ts, c)));
      if ts.toks[c].kind == Text {
        ScanIgnoreTextSkips(ts, After(ts, c));
      }
    }
  }

  /** scanIgnoreText when the first non-Text token is at j. */
  lemma ScanIgnoreTextFinds(ts: TokenStream, st: ParserState, j: nat)
    requires Coherent(ts, st)
    requires j == SkipText(ts.toks, Cursor(st)) && j < |ts.toks|
    ensures ScanIgnoreText(ts, st) == Success((Some(ts.toks[j]), After(ts, j)))
  {
    ScanIgnoreTextSkips(ts, st);
  }

  /** parseBlock consumes the run of Blocks at the cursor and settles on the
      token that ends it. */
  lemma {:induction false} ParseBlockConsumesRun(ts: TokenStream, head: TokenTuple, st: ParserState)
    requires Coherent(ts, st)
    ensures ParseBlock(ts, head, st) == Settle(ts, BlockExpr(head.value, []), BlockRunEnd(ts.toks, Cursor(st)))
    decreases Measure(ts, st)
  {
    var c := Cursor(st);
    if c < |ts.toks| {
      assert Scan(ts, st) == Success((Some(ts.toks[c]), After(ts, c)));
      if ts.toks[c].kind == Block {
        ParseBlockConsumesRun(ts, head, After(ts, c));
      }
    }
  }

  /** The trailing-chunk loop at the end of input. */
  lemma TrailingLoopAtEnd(ts: TokenStream, kind: Token, out: seq<Expr>, st: ParserState)
    requires Coherent(ts, st) && SkipText(ts.toks, Cursor(st)) == |ts.toks|
    ensures Agrees(ts, TrailingLoop(ts, kind, out, st), ChainFrom(ts, kind, out, Cursor(st)))
  {
    ScanIgnoreTextSkips(ts, st);
  }

  /** The trailing-chunk loop meets a directive of another kind. */
  lemma TrailingLoopStops(ts: TokenStream, kind: Token, out: seq<Expr>, st: ParserState)
    requires Coherent(ts, st)
    requires var m := SkipText(ts.toks, Cursor(st)); m < |ts.toks| && ts.toks[m].kind != kind
    ensures Agrees(ts, TrailingLoop(ts, kind, out, st), ChainFrom(ts, kind, out, Cursor(st)))
  {
    ScanIgnoreTextSkips(ts, st);
    var m := SkipText(ts.toks, Cursor(st));
    assert TrailingLoop(ts, kind, out, st) == Success((out, Unscan(After(ts, m))));
  }

  /** The trailing-chunk loop meets one more chunk of its kind: it takes
      its block and continues after the block's run. */
  lemma TrailingLoopStep(ts: TokenStream, kind: Token, out: seq<Expr>, st: ParserState, m: nat, k: nat)
    requires Coherent(ts, st)
    requires m == SkipText(ts.toks, Cursor(st)) && m < |ts.toks| && ts.toks[m].kind == kind
    requires k == BlockRunEnd(ts.toks, m + 1)
    ensures var s := Settle(ts, BlockExpr(ts.toks[m].value, []), k);
      TrailingLoop(ts, kind, out, st)
        == if s.Failure? then Failure(s.error) else TrailingLoop(ts, kind, out + [BlockExpr(ts.toks[m].value, [])], s.value.1)
  {
    ScanIgnoreTextFinds(ts, st, m);
    ParseBlockConsumesRun(ts, ts.toks[m], After(ts, m));
    assert Cursor(After(ts, m)) == m + 1;
  }

  /** The loop of parseTrailingChunks agrees with ChainFrom. */
  lemma {:induction false} TrailingLoopAgrees(ts: TokenStream, kind: Token, out: seq<Expr>, st: ParserState)
    requires Coherent(ts, st)
    ensures Agrees(ts, TrailingLoop(ts, kind, out, st), ChainFrom(ts, kind, out, Cursor(st)))
    decreases Measure(ts, st), 1
  {
    var m := SkipText(ts.toks, Cursor(st));
    if m == |ts.toks| {
      TrailingLoopAtEnd(ts, kind, out, st);
    } else if ts.toks[m].kind != kind {
      TrailingLoopStops(ts, kind, out, st);
    } else {
      TrailingLoopTakesAgrees(ts, kind, out, st);
    }
  }

  /** The loop of parseTrailingChunks and ChainFrom, when one more chunk of
      their kind follows, agree. */
  lemma {:induction false} TrailingLoopTakesAgrees(ts: TokenStream, kind: Token, out: seq<Expr>, st: ParserState)
    requires Coherent(ts, st)
    requires var m := SkipText(ts.toks, Cursor(st)); m < |ts.toks| && ts.toks[m].kind == kind
    ensures Agrees(ts, TrailingLoop(ts, kind, out, st), ChainFrom(ts, kind, out, Cursor(st)))
    decreases Measure(ts, st), 0
  {
    var m := SkipText(ts.toks, Cursor(st));
    var b := BlockExpr(ts.toks[m].value, []);
    var k := BlockRunEnd(ts.toks, m + 1);
    var s := Settle(ts, b, k);
    if s.Success? {
      var st2 := s.value.1;
      assert Coherent(ts, st2) && Cursor(st2) == k;
      assert TrailingLoop(ts, kind, out, st) == TrailingLoop(ts, kind, out + [b], st2) by {
        TrailingLoopStep(ts, kind, out, st, m, k);
      }
      assert ChainFrom(ts, kind, out, Cursor(st)) == ChainFrom(ts, kind, out + [b], k) by {
        ChainFromStep(ts, kind, out, Cursor(st), m, k);
      }
      MeasureFollowsCursor(ts, st, st2);
      TrailingLoopAgrees(ts, kind, out + [b], st2);
      AgreesTransfer(ts, TrailingLoop(ts, kind, out, st), ChainFrom(ts, kind, out, Cursor(st)),
                     TrailingLoop(ts, kind, out + [b], st2), ChainFrom(ts, kind, out + [b], Cursor(st2)));
    } else {
      TrailingLoopCutShort(ts, kind, out, st);
    }
  }

  /** Of two states consistent with the stream, the one further along has
      the smaller measure. */
  lemma MeasureFollowsCursor(ts: TokenStream, st: ParserState, st': ParserState)
    requires Coherent(ts, st) && Coherent(ts, st')
    requires Cursor(st) < Cursor(st')
    ensures Measure(ts, st') < Measure(ts, st)
  {
  }

  /** Both loops fail when the next chunk's block runs into the read error. */
  lemma TrailingLoopCutShort(ts: TokenStream, kind: Token, out: seq<Expr>, st: ParserState)
    requires Coherent(ts, st)
    requires var m := SkipText(ts.toks, Cursor(st)); m < |ts.toks| && ts.toks[m].kind == kind
    requires var m := SkipText(ts.toks, Cursor(st));
      Settle(ts, BlockExpr(ts.toks[m].value, []), BlockRunEnd(ts.toks, m + 1)).Failure?
    ensures Agrees(ts, TrailingLoop(ts, kind, out, st), ChainFrom(ts, kind, out, Cursor(st)))
  {
    var m := SkipText(ts.toks, Cursor(st));
    var b := BlockExpr(ts.toks[m].value, []);
    var k := BlockRunEnd(ts.toks, m + 1);
    var e := Settle(ts, b, k).error;
    assert TrailingLoop(ts, kind, out, st) == Failure(e) by {
      TrailingLoopStep(ts, kind, out, st, m, k);
    }
    assert ChainFrom(ts, kind, out, Cursor(st)) == Failure(e) by {
      ChainFromStep(ts, kind, out, Cursor(st), m, k);
      assert SkipText(ts.toks, k) == k;
    }
  }

  /** Agreement carries over to equal results. */
  lemma AgreesTransfer<T>(ts: TokenStream, f: Result<(T, ParserState)>, g: Result<(T, nat)>,
                          f': Result<(T, ParserState)>, g': Result<(T, nat)>)
    requires f == f' && g == g' && Agrees(ts, f', g')
    ensures Agrees(ts, f, g)
  {
  }

  /** ChainFrom, when the next directive is of its kind, takes that
      chunk's block and continues after the block's run. */
  lemma ChainFromStep(ts: TokenStream, kind: Token, cs: seq<Expr>, i: nat, m: nat, k: nat)
    requires i <= |ts.toks|
    requires m == SkipText(ts.toks, i) && m < |ts.toks| && ts.toks[m].kind == kind
    requires k == BlockRunEnd(ts.toks, m + 1)
    ensures ChainFrom(ts, kind, cs, i) == ChainFrom(ts, kind, cs + [BlockExpr(ts.toks[m].value, [])], k)
  {
    assert m != |ts.toks|;
    assert ts.toks[m].kind == kind;
  }

  /** parseTrailingChunks, called with the And (Or) token at m just
      scanned, agrees with Chain. */
  lemma TrailingChunksAgree(ts: TokenStream, head: Expr, m: nat)
    requires m < |ts.toks| && IsParsedBlock(head)
    ensures Agrees(ts, ParseTrailingChunks(ts, head, ts.toks[m], After(ts, m)), Chain(ts, head, m))
  {
    var b := BlockExpr(ts.toks[m].value, []);
    var k := BlockRunEnd(ts.toks, m + 1);
    ParseBlockConsumesRun(ts, ts.toks[m], After(ts, m));
    var s := Settle(ts, b, k);
    if s.Success? {
      TrailingLoopAgrees(ts, ts.toks[m].kind, [head, b], s.value.1);
    }
  }

  /** The rest of parseChunk, when And (Or) chunks follow the head. */
  lemma ChunkTailChain(ts: TokenStream, head: Expr, st: ParserState)
    requires Coherent(ts, st) && IsParsedBlock(head)
    requires var m := SkipText(ts.toks, Cursor(st)); m < |ts.toks| && (ts.toks[m].kind == And || ts.toks[m].kind == Or)
    ensures Agrees(ts, ParseChunkTail(ts, head, st), ChunkTail(ts, head, Cursor(st)))
  {
    var m := SkipText(ts.toks, Cursor(st));
    ScanIgnoreTextSkips(ts, st);
    TrailingChunksAgree(ts, head, m);
  }

  /** The rest of parseChunk agrees with ChunkTail. */
  lemma ChunkTailAgrees(ts: TokenStream, head: Expr, st: ParserState)
    requires Coherent(ts, st) && IsParsedBlock(head)
    ensures Agrees(ts, ParseChunkTail(ts, head, st), ChunkTail(ts, head, Cursor(st)))
  {
    var m := SkipText(ts.toks, Cursor(st));
    if m < |ts.toks| && (ts.toks[m].kind == And || ts.toks[m].kind == Or) {
      ChunkTailChain(ts, head, st);
    } else {
      ScanIgnoreTextSkips(ts, st);
    }
  }

  /** parseChunk when the next directive is not t: nothing but Text is
      consumed, and the directive is pushed back. */
  lemma ChunkAbsent(ts: TokenStream, t: Token, st: ParserState)
    requires Coherent(ts, st)
    requires var j := SkipText(ts.toks, Cursor(st)); j == |ts.toks| || ts.toks[j].kind != t
    ensures Agrees(ts, ParseChunk(ts, t, st), Chunk(ts, t, Cursor(st)))
  {
    ScanIgnoreTextSkips(ts, st);
  }

  /** parseChunk when the next directive, at j, is t: the head block, then
      the rest after the block run ending at k. */
  lemma ChunkPresent(ts: TokenStream, t: Token, st: ParserState, j: nat, k: nat)
    requires Coherent(ts, st)
    requires j == SkipText(ts.toks, Cursor(st)) && j < |ts.toks| && ts.toks[j].kind == t
    requires k == BlockRunEnd(ts.toks, j + 1)
    ensures var s := Settle(ts, BlockExpr(ts.toks[j].value, []), k);
      ParseChunk(ts, t, st)
        == if s.Failure? then Failure(s.error) else ParseChunkTail(ts, BlockExpr(ts.toks[j].value, []), s.value.1)
  {
    ScanIgnoreTextFinds(ts, st, j);
    ParseBlockConsumesRun(ts, ts.toks[j], After(ts, j));
    assert Cursor(After(ts, j)) == j + 1;
  }

  /** parseChunk agrees with Chunk. */
  lemma ChunkAgrees(ts: TokenStream, t: Token, st: ParserState)
    requires Coherent(ts, st)
    ensures Agrees(ts, ParseChunk(ts, t, st), Chunk(ts, t, Cursor(st)))
  {
    var j := SkipText(ts.toks, Cursor(st));
    if j < |ts.toks| && ts.toks[j].kind == t {
      ChunkPresentAgrees(ts, t, st);
    } else {
      ChunkAbsent(ts, t, st);
    }
  }

  lemma ChunkPresentAgrees(ts: TokenStream, t: Token, st: ParserState)
    requires Coherent(ts, st)
    requires var j := SkipText(ts.toks, Cursor(st)); j < |ts.toks| && ts.toks[j].kind == t
    ensures Agrees(ts, ParseChunk(ts, t, st), Chunk(ts, t, Cursor(st)))
  {
    var j := SkipText(ts.toks, Cursor(st));
    var head := BlockExpr(ts.toks[j].value, []);
    var k := BlockRunEnd(ts.toks, j + 1);
    var s := Settle(ts, head, k);
    ChunkStartsWithHead(ts, t, Cursor(st), j, k);
    if s.Success? {
      assert ParseChunk(ts, t, st) == ParseChunkTail(ts, head, s.value.1) by {
        ChunkPresent(ts, t, st, j, k);
      }
      ChunkTailAgrees(ts, head, s.value.1);
    } else {
      assert ParseChunk(ts, t, st) == Failure(s.error) by {
        ChunkPresent(ts, t, st, j, k);
      }
      assert SkipText(ts.toks, k) == k;
      assert ChunkTail(ts, head, k) == Failure(s.error);
    }
  }

  /** Chunk, when the next directive, at j, is t, is the tail after its
      head block, whose run ends at k. */
  lemma ChunkStartsWithHead(ts: TokenStream, t: Token, i: nat, j: nat, k: nat)
    requires i <= |ts.toks|
    requires j == SkipText(ts.toks, i) && j < |ts.toks| && ts.toks[j].kind == t
    requires k == BlockRunEnd(ts.toks, j + 1)
    ensures Chunk(ts, t, i) == ChunkTail(ts, BlockExpr(ts.toks[j].value, []), k)
  {
    var toks := ts.toks;
    assert toks[j].kind == t;
  }


  /** parseBehavior agrees with BehaviorAt. */
  lemma BehaviorAgrees(ts: TokenStream, st: ParserState)
    requires Coherent(ts, st)
    ensures Agrees(ts, ParseBehavior(ts, st), BehaviorAt(ts, Cursor(st)))
  {
    var c := Cursor(st);
    ChunkAgrees(ts, When, st);
    var w := ParseChunk(ts, When, st);
    if w.Failure? {
      assert ParseBehavior(ts, st) == Failure(w.error);
      assert BehaviorAt(ts, c) == Failure(w.error);
    } else {
      var (wv, st1) := w.value;
      assert Chunk(ts, When, c) == Success((wv, Cursor(st1)));
      ChunkAgrees(ts, Then, st1);
      var th := ParseChunk(ts, Then, st1);
      if th.Failure? {
        assert ParseBehavior(ts, st) == Failure(th.error);
        assert BehaviorAt(ts, c) == Failure(th.error);
      } else {
        var (tv, st2) := th.value;
        assert Chunk(ts, Then, Cursor(st1)) == Success((tv, Cursor(st2)));
        ParseBehaviorOf(ts, st, wv, st1, tv, st2);
        BehaviorAtOf(ts, c, wv, Cursor(st1), tv, Cursor(st2));
      }
    }
  }

  /** The behavior parseBehavior builds from its two chunks. */
  lemma ParseBehaviorOf(ts: TokenStream, st: ParserState, wv: Option<Expr>, st1: ParserState,
                        tv: Option<Expr>, st2: ParserState)
    requires ParseChunk(ts, When, st) == Success((wv, st1))
    requires ParseChunk(ts, Then, st1) == Success((tv, st2))
    ensures ParseBehavior(ts, st)
         == Success((if wv.None? && tv.None? then None else Some(Behavior(wv, tv)), st2))
  {
  }

  /** The behavior BehaviorAt builds from its two chunks. */
  lemma BehaviorAtOf(ts: TokenStream, i: nat, wv: Option<Expr>, j: nat, tv: Option<Expr>, k: nat)
    requires i <= |ts.toks| && j <= |ts.toks|
    requires Chunk(ts, When, i) == Success((wv, j))
    requires Chunk(ts, Then, j) == Success((tv, k))
    ensures BehaviorAt(ts, i)
         == Success((if wv.None? && tv.None? then None else Some(Behavior(wv, tv)), k))
  {
  }

  /** A parser loop that collected f after the items acc agrees with the
      grammar's g: the same error, or the same items after acc with the
      parser left at the grammar's cursor. */
  ghost predicate Collects<T>(ts: TokenStream, acc: seq<T>, f: Result<(seq<T>, ParserState)>, g: Result<(seq<T>, nat)>) {
    && f.Success? == g.Success?
    && (f.Failure? ==> f.error == g.error)
    && (f.Success? ==> f.value.0 == acc + g.value.0 && Coherent(ts, f.value.1) && Cursor(f.value.1) == g.value.1)
  }

  /** Moving one collected item from the accumulator to the front of the
      grammar's list. */
  lemma CollectsCons<T>(ts: TokenStream, acc: seq<T>, x: T, f: Result<(seq<T>, ParserState)>, g: Result<(seq<T>, nat)>)
    requires Collects(ts, acc + [x], f, g)
    ensures Collects(ts, acc, f, if g.Failure? then Failure(g.error) else Success(([x] + g.value.0, g.value.1)))
  {
    if g.Success? {
      assert acc + [x] + g.value.0 == acc + ([x] + g.value.0);
    }
  }

  /** The loop of parseScenario collects, after the behaviors it is given,
      exactly the behaviors Behaviors finds. */
  lemma {:induction false} BehaviorLoopAgrees(ts: TokenStream, acc: seq<Behavior>, st: ParserState)
    requires Coherent(ts, st)
    ensures Collects(ts, acc, BehaviorLoop(ts, acc, st), Behaviors(ts, Cursor(st)))
    decreases Measure(ts, st)
  {
    var b := ParseBehavior(ts, st);
    if b.Success? && b.value.0.Some? {
      BehaviorLoopStep(ts, acc, st);
      var (bh, st1) := b.value;
      BehaviorLoopAgrees(ts, acc + [bh.value], st1);
      CollectsCons(ts, acc, bh.value, BehaviorLoop(ts, acc + [bh.value], st1), Behaviors(ts, Cursor(st1)));
    } else {
      BehaviorLoopStops(ts, acc, st);
    }
  }

  /** The loop of parseScenario when no behavior follows. */
  lemma BehaviorLoopStops(ts: TokenStream, acc: seq<Behavior>, st: ParserState)
    requires Coherent(ts, st)
    requires ParseBehavior(ts, st).Failure? || ParseBehavior(ts, st).value.0.None?
    ensures Collects(ts, acc, BehaviorLoop(ts, acc, st), Behaviors(ts, Cursor(st)))
  {
    BehaviorAgrees(ts, st);
    AppendEmpty(acc);
  }

  /** The loop of parseScenario takes one behavior and continues. */
  lemma BehaviorLoopStep(ts: TokenStream, acc: seq<Behavior>, st: ParserState)
    requires Coherent(ts, st)
    requires ParseBehavior(ts, st).Success? && ParseBehavior(ts, st).value.0.Some?
    ensures var (b, st1) := ParseBehavior(ts, st).value;
      && Coherent(ts, st1)
      && Measure(ts, st1) < Measure(ts, st)
      && BehaviorLoop(ts, acc, st) == BehaviorLoop(ts, acc + [b.value], st1)
      && var g := Behaviors(ts, Cursor(st1));
      && Behaviors(ts, Cursor(st))
           == (if g.Failure? then Failure(g.error) else Success(([b.value] + g.value.0, g.value.1)))
  {
    BehaviorAgrees(ts, st);
  }

  /** parseScenario agrees with ScenarioAt. */
  lemma ScenarioAgrees(ts: TokenStream, st: ParserState)
    requires Coherent(ts, st)
    ensures Agrees(ts, ParseScenario(ts, st), ScenarioAt(ts, Cursor(st)))
  {
    var c := Cursor(st);
    ChunkAgrees(ts, Given, st);
    var g := ParseChunk(ts, Given, st);
    if g.Failure? {
      assert ParseScenario(ts, st) == Failure(g.error);
      assert ScenarioAt(ts, c) == Failure(g.error);
    } else if g.value.0.None? {
      assert ParseScenario(ts, st) == Success((None, g.value.1));
      assert ScenarioAt(ts, c) == Success((None, Cursor(g.value.1)));
    } else {
      var (gv, st1) := g.value;
      assert Chunk(ts, Given, c) == Success((gv, Cursor(st1)));
      BehaviorLoopAgrees(ts, [], st1);
      var f := BehaviorLoop(ts, [], st1);
      if f.Failure? {
        assert ParseScenario(ts, st) == Failure(f.error);
        assert ScenarioAt(ts, c) == Failure(f.error);
      } else {
        var (bs, st2) := f.value;
        AppendEmpty(bs);
        assert Behaviors(ts, Cursor(st1)) == Success((bs, Cursor(st2)));
        assert ParseScenario(ts, st) == Success((Some(Scenario(gv.value, bs)), st2));
        assert ScenarioAt(ts, c) == Success((Some(Scenario(gv.value, bs)), Cursor(st2)));
      }
    }
  }

  /** The loop of Parse returns, after the scenarios it is given, exactly the
      scenarios and the error Program finds. */
  lemma {:induction false} ScenarioLoopAgrees(ts: TokenStream, out: seq<Scenario>, st: ParserState)
    requires Coherent(ts, st)
    ensures var p := Program(ts, Cursor(st));
      ScenarioLoop(ts, out, st) == (out + p.scenarios, p.err)
    decreases Measure(ts, st)
  {
    var s := ParseScenario(ts, st);
    if s.Success? && s.value.0.Some? {
      ScenarioLoopStep(ts, out, st);
      var (sc, st1) := s.value;
      ScenarioLoopAgrees(ts, out + [sc.value], st1);
      var rest := Program(ts, Cursor(st1));
      AppendAssoc(out, [sc.value], rest.scenarios);
    } else {
      ScenarioLoopStops(ts, out, st);
    }
  }

  /** The loop of Parse when no scenario follows, or the next one fails. */
  lemma ScenarioLoopStops(ts: TokenStream, out: seq<Scenario>, st: ParserState)
    requires Coherent(ts, st)
    requires ParseScenario(ts, st).Failure? || ParseScenario(ts, st).value.0.None?
    ensures var p := Program(ts, Cursor(st));
      ScenarioLoop(ts, out, st) == (out + p.scenarios, p.err)
  {
    ScenarioAgrees(ts, st);
    AppendEmpty(out);
  }

  /** The loop of Parse takes one scenario and continues. */
  lemma ScenarioLoopStep(ts: TokenStream, out: seq<Scenario>, st: ParserState)
    requires Coherent(ts, st)
    requires ParseScenario(ts, st).Success? && ParseScenario(ts, st).value.0.Some?
    ensures var (sc, st1) := ParseScenario(ts, st).value;
      && Coherent(ts, st1)
      && Measure(ts, st1) < Measure(ts, st)
      && ScenarioLoop(ts, out, st) == ScenarioLoop(ts, out + [sc.value], st1)
      && var rest := Program(ts, Cursor(st1));
      Program(ts, Cursor(st)) == Outcome([sc.value] + rest.scenarios, rest.err, rest.stop)
  {
    ScenarioAgrees(ts, st);
  }

  /** The parser with one token of pushback computes what the grammar
      describes: the same scenarios and the same error. */
  lemma ParseMatchesGrammar(ts: TokenStream)
    ensures Parse(ts) == (ParseTokens(ts).scenarios, ParseTokens(ts).err)
  {
    ScenarioLoopAgrees(ts, [], Start);
    AppendEmpty(ParseTokens(ts).scenarios);
  }
}

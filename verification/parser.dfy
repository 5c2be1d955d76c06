/** The recursive-descent parser (parser.go) as written: it pulls tokens from
    the lexer one at a time and keeps one token of pushback (`last` and
    `buffered`). A lexer error panics, and Parse recovers it into its error
    result; here the panic is the Failure of a Result.

    The lexer is represented by the token stream it produces: the n-th call
    to Lex returns the n-th token, and every call after the last token
    returns the lexer's error or, if there is none, the end of input. */
module Parser {
  import opened Base
  import opened Lexer
  import opened Ast

  /** `pos` counts the tokens taken from the lexer so far; `last` is the
      token scan returned last; `buffered` is the pushback flag. */
  datatype ParserState = ParserState(pos: nat, last: Option<TokenTuple>, buffered: bool)

  const Start := ParserState(0, None, false)

  /** Decreases with every token a scan returns; a pushback adds one. */
  function Measure(ts: TokenStream, st: ParserState): nat {
    2 * (if st.pos < |ts.toks| then |ts.toks| - st.pos else 0) + (if st.buffered then 1 else 0)
  }

  /** scan: replays the pushed-back token, or calls the lexer. */
  function Scan(ts: TokenStream, st: ParserState): (r: Result<(Option<TokenTuple>, ParserState)>)
    ensures r.Failure? ==> ts.err == Some(r.error) && !st.buffered && st.pos >= |ts.toks|
    ensures r.Success? ==> !r.value.1.buffered && Measure(ts, r.value.1) <= Measure(ts, st)
    ensures r.Success? && r.value.0.Some? ==> Measure(ts, r.value.1) < Measure(ts, st)
    ensures r.Success? && r.value.0.Some? ==> r.value.1.last == r.value.0
  {
    if st.buffered then Success((st.last, st.(buffered := false)))
    else if st.pos < |ts.toks| then
      var tt := ts.toks[st.pos];
      Success((Some(tt), ParserState(st.pos + 1, Some(tt), false)))
    else
      match ts.err
      case Some(e) => Failure(e)
      case None => Success((None, ParserState(st.pos, None, false)))
  }

  /** unscan: the next scan returns `last` again. */
  function Unscan(st: ParserState): ParserState {
    st.(buffered := true)
  }

  /** After unscan, whatever the state, the next scan returns `last` again
      without calling the lexer, and clears the flag. */
  lemma UnscanReplays(ts: TokenStream, st: ParserState)
    ensures Scan(ts, Unscan(st)) == Success((st.last, st.(buffered := false)))
  {
  }

  /** scanIgnoreText: scans past Text tokens. */
  function ScanIgnoreText(ts: TokenStream, st: ParserState): (r: Result<(Option<TokenTuple>, ParserState)>)
    ensures r.Failure? ==> ts.err == Some(r.error)
    ensures r.Success? ==> !r.value.1.buffered && Measure(ts, r.value.1) <= Measure(ts, st)
    ensures r.Success? && r.value.0.Some? ==>
              && Measure(ts, r.value.1) < Measure(ts, st)
              && r.value.0.value.kind != Text
    decreases Measure(ts, st)
  {
    var (tt, st1) :- Scan(ts, st);
    if tt.None? || tt.value.kind != Text then Success((tt, st1))
    else ScanIgnoreText(ts, st1)
  }

  /** parseBlock: consumes the Block tokens that follow and pushes back the
      first token that is not one (a Text token included). The loop never
      appends to `commands`, so the block it builds has no commands. */
  function ParseBlock(ts: TokenStream, head: TokenTuple, st: ParserState): (r: Result<(Expr, ParserState)>)
    ensures r.Failure? ==> ts.err == Some(r.error)
    ensures r.Success? ==> r.value.0 == BlockExpr(head.value, [])
    ensures r.Success? ==> Measure(ts, r.value.1) <= Measure(ts, st)
    decreases Measure(ts, st)
  {
    var (tt, st1) :- Scan(ts, st);
    if tt.None? then Success((BlockExpr(head.value, []), st1))
    else if tt.value.kind != Block then Success((BlockExpr(head.value, []), Unscan(st1)))
    else ParseBlock(ts, head, st1)
  }

  /** parseChunk(t). */
  function ParseChunk(ts: TokenStream, t: Token, st: ParserState): (r: Result<(Option<Expr>, ParserState)>)
    ensures r.Failure? ==> ts.err == Some(r.error)
    ensures r.Success? ==> Measure(ts, r.value.1) <= Measure(ts, st)
    ensures r.Success? && r.value.0.Some? ==> Measure(ts, r.value.1) < Measure(ts, st)
  {
    var (tt, st1) :- ScanIgnoreText(ts, st);
    if tt.None? then Success((None, st1))
    else if tt.value.kind != t then Success((None, Unscan(st1)))
    else
      var (head, st2) :- ParseBlock(ts, tt.value, st1);
      ParseChunkTail(ts, head, st2)
  }

  /** The rest of parseChunk once the head block is built: the head alone,
      or an And (Or) expression when And (Or) chunks follow it. */
  function ParseChunkTail(ts: TokenStream, head: Expr, st: ParserState): (r: Result<(Option<Expr>, ParserState)>)
    ensures r.Failure? ==> ts.err == Some(r.error)
    ensures r.Success? ==> r.value.0.Some? && Measure(ts, r.value.1) <= Measure(ts, st)
  {
    var (nx, st1) :- ScanIgnoreText(ts, st);
    if nx.None? then Success((Some(head), st1))
    else if nx.value.kind == And then
      var (cs, st2) :- ParseTrailingChunks(ts, head, nx.value, st1);
      Success((Some(AndExpr(cs)), st2))
    else if nx.value.kind == Or then
      var (cs, st2) :- ParseTrailingChunks(ts, head, nx.value, st1);
      Success((Some(OrExpr(cs)), st2))
    else Success((Some(head), Unscan(st1)))
  }

  /** parseTrailingChunks: the head, the block of `next`, and one block per
      following chunk of the same kind. */
  function ParseTrailingChunks(ts: TokenStream, head: Expr, next: TokenTuple, st: ParserState)
    : (r: Result<(seq<Expr>, ParserState)>)
    ensures r.Failure? ==> ts.err == Some(r.error)
    ensures r.Success? ==> Measure(ts, r.value.1) <= Measure(ts, st)
    ensures r.Success? ==> |r.value.0| >= 2 && r.value.0[0] == head
  {
    var (b, st1) :- ParseBlock(ts, next, st);
    TrailingLoop(ts, next.kind, [head, b], st1)
  }

  /** The loop of parseTrailingChunks. */
  function TrailingLoop(ts: TokenStream, kind: Token, out: seq<Expr>, st: ParserState)
    : (r: Result<(seq<Expr>, ParserState)>)
    ensures r.Failure? ==> ts.err == Some(r.error)
    ensures r.Success? ==> Measure(ts, r.value.1) <= Measure(ts, st)
    ensures r.Success? ==> |r.value.0| >= |out| && r.value.0[..|out|] == out
    decreases Measure(ts, st)
  {
    var (tt, st1) :- ScanIgnoreText(ts, st);
    if tt.None? then Success((out, st1))
    else if tt.value.kind != kind then Success((out, Unscan(st1)))
    else
      var (b, st2) :- ParseBlock(ts, tt.value, st1);
      var r := TrailingLoop(ts, kind, out + [b], st2);
      assert r.Success? ==> r.value.0[..|out|] == (out + [b])[..|out|];
      r
  }

  /** parseBehavior. */
  function ParseBehavior(ts: TokenStream, st: ParserState): (r: Result<(Option<Behavior>, ParserState)>)
    ensures r.Failure? ==> ts.err == Some(r.error)
    ensures r.Success? ==> Measure(ts, r.value.1) <= Measure(ts, st)
    ensures r.Success? && r.value.0.Some? ==> Measure(ts, r.value.1) < Measure(ts, st)
    ensures r.Success? && r.value.0.Some? ==>
              r.value.0.value.whenExpr.Some? || r.value.0.value.thenExpr.Some?
  {
    var (w, st1) :- ParseChunk(ts, When, st);
    var (th, st2) :- ParseChunk(ts, Then, st1);
    if w.None? && th.None? then Success((None, st2))
    else Success((Some(Behavior(w, th)), st2))
  }

  /** parseScenario. */
  function ParseScenario(ts: TokenStream, st: ParserState): (r: Result<(Option<Scenario>, ParserState)>)
    ensures r.Failure? ==> ts.err == Some(r.error)
    ensures r.Success? ==> Measure(ts, r.value.1) <= Measure(ts, st)
    ensures r.Success? && r.value.0.Some? ==> Measure(ts, r.value.1) < Measure(ts, st)
  {
    var (given, st1) :- ParseChunk(ts, Given, st);
    if given.None? then Success((None, st1))
    else
      var (behaviors, st2) :- BehaviorLoop(ts, [], st1);
      Success((Some(Scenario(given.value, behaviors)), st2))
  }

  /** The loop of parseScenario, appending behaviors in the order they are
      parsed. */
  function BehaviorLoop(ts: TokenStream, behaviors: seq<Behavior>, st: ParserState)
    : (r: Result<(seq<Behavior>, ParserState)>)
    ensures r.Failure? ==> ts.err == Some(r.error)
    ensures r.Success? ==> Measure(ts, r.value.1) <= Measure(ts, st)
    ensures r.Success? ==> |r.value.0| >= |behaviors| && r.value.0[..|behaviors|] == behaviors
    decreases Measure(ts, st)
  {
    var (b, st1) :- ParseBehavior(ts, st);
    if b.None? then Success((behaviors, st1))
    else
      var r := BehaviorLoop(ts, behaviors + [b.value], st1);
      assert r.Success? ==> r.value.0[..|behaviors|] == (behaviors + [b.value])[..|behaviors|];
      r
  }

  /** Parse: the scenarios parsed and the recovered error. Because `out` is
      a named result, a panic keeps the scenarios appended before it. */
  function Parse(ts: TokenStream): (r: (seq<Scenario>, Option<Error>))
    ensures r.1.Some? ==> r.1 == ts.err
    ensures ts.err.None? ==> r.1.None?
  {
    ScenarioLoop(ts, [], Start)
  }

  /** The loop of Parse. */
  function ScenarioLoop(ts: TokenStream, out: seq<Scenario>, st: ParserState): (r: (seq<Scenario>, Option<Error>))
    ensures |r.0| >= |out| && r.0[..|out|] == out
    ensures r.1.Some? ==> r.1 == ts.err
    decreases Measure(ts, st)
  {
    match ParseScenario(ts, st)
    case Failure(e) => (out, Some(e))
    case Success((None, _)) => (out, None)
    case Success((Some(sc), st1)) =>
      var r := ScenarioLoop(ts, out + [sc], st1);
      assert r.0[..|out|] == (out + [sc])[..|out|];
      r
  }
}

/** The tokenizer (lexer.go): token kinds and their spellings, indentation
    measurement, directive recognition, the empty-line filter, and Lex with
    its `lastIndent` state, run over the scanner stack NewLexer builds. */
module Lexer {
  import opened Base
  import opened Strings
  import BufScan

  /** The token kinds, in the order of their iota values. */
  datatype Token = Text | Block | Given | And | Or | When | Then | Finally

  datatype TokenTuple = TokenTuple(kind: Token, value: string)

  /** Every kind except the two special ones is a directive keyword. */
  predicate IsDirective(t: Token) {
    t != Text && t != Block
  }

  /** The `tokens` table: how each kind is spelled. For a directive this is
      the prefix a line must start with. */
  function Spelling(t: Token): (s: string)
    ensures |s| > 0
  {
    match t
    case Text => "<Text>"
    case Block => "<Block>"
    case Given => "Given:"
    case And => "And:"
    case Or => "Or:"
    case When => "When:"
    case Then => "Then:"
    case Finally => "(finally)"
  }

  /** The `directives` array: the order in which prefixes are tried. */
  const Directives: seq<Token> := [Given, When, Then, And, Or, Finally]

  /** getIndent, Go's loop `for i, ch = range line { if ch is not blank
      { break } }`: i stops at the first non-blank character, so for a line
      with content it is the number of leading blanks; on a non-empty line
      of blanks only it ends on the last index, and on the empty line it
      stays 0. */
  function GetIndent(line: string): (n: nat)
    ensures IsContentLine(line) ==> n == LeadingBlanks(line)
    ensures |line| > 0 && !IsContentLine(line) ==> n == |line| - 1
    ensures |line| == 0 ==> n == 0
  {
    if |line| == 0 then 0 else IndentFrom(line, 0)
  }

  /** The loop of getIndent from index i on, every earlier character being
      blank. */
  function IndentFrom(line: string, i: nat): (r: nat)
    requires i < |line|
    requires AllBlank(line[..i])
    ensures i <= r < |line|
    ensures AllBlank(line[..r])
    ensures !IsBlank(line[r]) || r == |line| - 1
    decreases |line| - i
  {
    if !IsBlank(line[i]) || i == |line| - 1 then i
    else
      assert line[..i + 1] == line[..i] + [line[i]];
      IndentFrom(line, i + 1)
  }

  /** strings.Trim(strings.TrimPrefix(s, prefix), " \t"): a token value
      never starts or ends with a blank. */
  function TrimPrefix(s: string, prefix: string): (r: string)
    ensures |r| <= |s|
    ensures r == [] || (!IsBlank(r[0]) && !IsBlank(r[|r| - 1]))
  {
    Trim(if HasPrefix(s, prefix) then s[|prefix|..] else s)
  }

  /** The first directive of ds whose spelling starts line, with the rest of
      the line, trimmed, as its value. */
  function MatchDirective(line: string, ds: seq<Token>): (r: Option<TokenTuple>)
    ensures r.None? <==> forall k :: 0 <= k < |ds| ==> !HasPrefix(line, Spelling(ds[k]))
    ensures r.Some? ==> r.value.kind in ds && HasPrefix(line, Spelling(r.value.kind))
    ensures r.Some? ==> r.value.value == Trim(line[|Spelling(r.value.kind)|..])
  {
    if |ds| == 0 then None
    else if HasPrefix(line, Spelling(ds[0])) then
      Some(TokenTuple(ds[0], TrimPrefix(line, Spelling(ds[0]))))
    else
      var r := MatchDirective(line, ds[1..]);
      assert forall k :: 1 <= k < |ds| ==> ds[k] == ds[1..][k - 1];
      r
  }

  /** parseDirective: a directive token if line starts with a directive's
      spelling, trying them in the order of Directives; None otherwise. */
  function ParseDirective(line: string): (r: Option<TokenTuple>)
    ensures r.None? <==> forall t :: IsDirective(t) ==> !HasPrefix(line, Spelling(t))
    ensures r.Some? ==> IsDirective(r.value.kind) && HasPrefix(line, Spelling(r.value.kind))
    ensures r.Some? ==> r.value.value == Trim(line[|Spelling(r.value.kind)|..])
  {
    assert forall t :: IsDirective(t) <==> t in Directives;
    MatchDirective(line, Directives)
  }

  /** The predicate of the empty-line filter: some character is neither a
      space nor a tab. */
  function IsContentLine(line: string): (keep: bool)
    ensures keep <==> exists k :: 0 <= k < |line| && !IsBlank(line[k])
  {
    if |line| == 0 then false
    else !IsBlank(line[0]) || IsContentLine(line[1..])
  }

  /** One iteration of Lex's loop on a line already read: the token it
      returns (if any) and the new `lastIndent`. */
  function LexLine(line: string, lastIndent: nat): (r: (Option<TokenTuple>, nat))
    ensures r.0.Some? ==> r.0.value.kind != Text
    ensures r.0.None? ==> r.1 == 0
    ensures r.0.Some? && r.0.value.kind != Block ==> r.1 == lastIndent
  {
    var indent := GetIndent(line);
    if indent > 0 && indent >= lastIndent then
      (Some(TokenTuple(Block, TrimPrefix(line, ""))), indent)
    else
      match ParseDirective(line)
      case Some(tt) => (Some(tt), lastIndent)
      case None => (None, 0)
  }

  /** The result of one call to Lex: a token, the end of input (nil, nil),
      or the scanner's read error (nil, err). */
  datatype LexResult = Emit(tt: TokenTuple) | End | Fail(err: Error)

  datatype LexerState = LexerState(s: BufScan.Scanner, lastIndent: nat)

  /** NewLexer: the line source, then the empty-line filter, then the
      buffered scanner. The stack yields the lines with content, in order,
      then the source's error, and lexing starts with no indentation. */
  function NewLexer(lines: seq<string>, err: Option<Error>): (lx: LexerState)
    ensures lx.lastIndent == 0
    ensures BufScan.Drain(lx.s) == (Filter(IsContentLine, lines), err)
  {
    var src := BufScan.Source(lines, 0, err);
    var filtered := BufScan.Filtered(src, IsContentLine);
    BufScan.BufferedTransparent(filtered, "");
    BufScan.FilteredYieldsKeptLines(src, IsContentLine);
    BufScan.SourceYieldsLines(lines, 0, err);
    assert lines[0..] == lines;
    LexerState(BufScan.Buffered(filtered, "", false), 0)
  }

  /** lexer.Lex: reads lines until one yields a token. */
  function Lex(lx: LexerState): (r: (LexResult, LexerState))
    ensures r.0.Emit? ==> r.0.tt.kind != Text
    ensures r.0.Emit? ==> BufScan.Pending(r.1.s) < BufScan.Pending(lx.s)
    decreases BufScan.Pending(lx.s)
  {
    var (ok, s1) := BufScan.Scan(lx.s);
    if !ok then
      (match BufScan.Err(s1) case Some(e) => Fail(e) case None => End, LexerState(s1, lx.lastIndent))
    else
      var (line, s2) := BufScan.Text(s1);
      var (tok, indent) := LexLine(line, lx.lastIndent);
      if tok.Some? then (Emit(tok.value), LexerState(s2, indent))
      else Lex(LexerState(s2, indent))
  }

  /** What a lexer produces when called until it reports the end of input or
      an error: the tokens, then that error (if any). */
  datatype TokenStream = TokenStream(toks: seq<TokenTuple>, err: Option<Error>)

  function LexStream(lx: LexerState): (ts: TokenStream)
    ensures |ts.toks| <= BufScan.Pending(lx.s)
    decreases BufScan.Pending(lx.s)
  {
    match Lex(lx)
    case (End, _) => TokenStream([], None)
    case (Fail(e), _) => TokenStream([], Some(e))
    case (Emit(tt), lx') =>
      var rest := LexStream(lx');
      TokenStream([tt] + rest.toks, rest.err)
  }

  /** Reference tokenization of a sequence of lines, all of which reach the
      loop body, starting from the given `lastIndent`. */
  function LexLines(lines: seq<string>, lastIndent: nat): (toks: seq<TokenTuple>)
    ensures |toks| <= |lines|
    ensures forall k :: 0 <= k < |toks| ==> toks[k].kind != Text
  {
    if |lines| == 0 then []
    else
      var (tok, indent) := LexLine(lines[0], lastIndent);
      (if tok.Some? then [tok.value] else []) + LexLines(lines[1..], indent)
  }

  /** The tokens of a whole input: blank lines never reach the lexer. */
  function LexAll(lines: seq<string>): seq<TokenTuple> {
    LexLines(Filter(IsContentLine, lines), 0)
  }
}

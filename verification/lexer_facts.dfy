/** Properties of the tokenizer: how each kind of line is classified, that
    directive recognition is unambiguous, and that draining a lexer built by
    NewLexer gives the reference tokenization LexAll. */
module LexerFacts {
  import opened Base
  import opened Strings
  import BufScan
  import opened Lexer

  /** No directive is spelled with a leading blank, and no two directives
      start with the same character. */
  lemma SpellingsStartDistinct(a: Token, b: Token)
    requires IsDirective(a) && IsDirective(b)
    ensures !IsBlank(Spelling(a)[0])
    ensures Spelling(a)[0] == Spelling(b)[0] ==> a == b
  {
  }

  /** At most one directive spelling starts any line, so trying them in the
      order of Directives picks the same directive as any other order would. */
  lemma {:induction false} DirectiveMatchIsUnique(line: string, a: Token, b: Token)
    requires IsDirective(a) && IsDirective(b)
    requires HasPrefix(line, Spelling(a)) && HasPrefix(line, Spelling(b))
    ensures a == b
  {
    assert line[0] == line[..|Spelling(a)|][0] == Spelling(a)[0];
    assert line[0] == line[..|Spelling(b)|][0] == Spelling(b)[0];
    SpellingsStartDistinct(a, b);
  }

  /** A line starting with a blank is never a directive. */
  lemma {:induction false} IndentedLineIsNoDirective(line: string)
    requires |line| > 0 && IsBlank(line[0])
    ensures ParseDirective(line).None?
  {
    forall t | IsDirective(t)
      ensures !HasPrefix(line, Spelling(t))
    {
      SpellingsStartDistinct(t, t);
    }
  }

  /** A line indented at least as deep as the block before it is a Block
      token holding the line without its surrounding blanks, and its depth
      becomes `lastIndent`. */
  lemma {:induction false} BlockLine(line: string, lastIndent: nat)
    requires IsContentLine(line)
    requires 0 < LeadingBlanks(line) && lastIndent <= LeadingBlanks(line)
    ensures LexLine(line, lastIndent) == (Some(TokenTuple(Block, Trim(line))), LeadingBlanks(line))
    ensures Trim(line) != []
  {
    assert line[..0] == [];
  }

  /** An unindented line starting with a directive's spelling is that
      directive, valued with the rest of the line trimmed; `lastIndent` is
      left as it was. */
  lemma {:induction false} DirectiveLine(line: string, lastIndent: nat, t: Token)
    requires IsDirective(t) && HasPrefix(line, Spelling(t))
    ensures LexLine(line, lastIndent) == (Some(TokenTuple(t, Trim(line[|Spelling(t)|..]))), lastIndent)
  {
    SpellingsStartDistinct(t, t);
    assert line[0] == line[..|Spelling(t)|][0] == Spelling(t)[0];
    assert IsContentLine(line);
    assert LeadingBlanks(line) == 0;
    var r := ParseDirective(line);
    assert r.Some?;
    DirectiveMatchIsUnique(line, r.value.kind, t);
  }

  /** An indented line shallower than `lastIndent` is dropped: it is not a
      Block, and its leading blank keeps it from being a directive. It
      resets `lastIndent`. */
  lemma {:induction false} DedentedLineDropped(line: string, lastIndent: nat)
    requires IsContentLine(line)
    requires 0 < LeadingBlanks(line) < lastIndent
    ensures LexLine(line, lastIndent) == (None, 0)
  {
    assert line[..1][0] == line[0];
    IndentedLineIsNoDirective(line);
  }

  /** An unindented line that starts with no directive is discarded, and it
      resets `lastIndent`; no Text token is ever produced for it. */
  lemma {:induction false} UnrecognisedLineDropped(line: string, lastIndent: nat)
    requires IsContentLine(line) && LeadingBlanks(line) == 0
    requires forall t :: IsDirective(t) ==> !HasPrefix(line, Spelling(t))
    ensures LexLine(line, lastIndent) == (None, 0)
  {
  }

  /** trimPrefix cuts the prefix a line starts with, then the blanks around
      what is left; with no such prefix it only cuts the blanks. */
  lemma TrimPrefixDropsPrefix(prefix: string, rest: string, s: string)
    ensures TrimPrefix(prefix + rest, prefix) == Trim(rest)
    ensures !HasPrefix(s, prefix) ==> TrimPrefix(s, prefix) == Trim(s)
  {
    assert (prefix + rest)[..|prefix|] == prefix;
    assert (prefix + rest)[|prefix|..] == rest;
  }

  /** `(finally)` alone is a Finally token with the empty value. */
  lemma FinallyAloneHasEmptyValue(lastIndent: nat)
    ensures LexLine("(finally)", lastIndent) == (Some(TokenTuple(Finally, "")), lastIndent)
  {
    var line := "(finally)";
    assert HasPrefix(line, Spelling(Finally));
    DirectiveLine(line, lastIndent, Finally);
    assert line[|Spelling(Finally)|..] == "";
  }

  /** Lex, called until it reports the end, produces the reference
      tokenization of the lines the scanner yields, then the scanner's error,
      whatever the scanner stack. */
  lemma {:induction false} LexFollowsScanner(s: BufScan.Scanner, lastIndent: nat)
    ensures LexStream(LexerState(s, lastIndent))
         == TokenStream(LexLines(BufScan.Drain(s).0, lastIndent), BufScan.Drain(s).1)
    decreases BufScan.Pending(s)
  {
    var lx := LexerState(s, lastIndent);
    var (ok, s1) := BufScan.Scan(s);
    if ok {
      var (line, s2) := BufScan.Text(s1);
      var (tok, indent) := LexLine(line, lastIndent);
      LexFollowsScanner(s2, indent);
      if tok.None? {
        assert Lex(lx) == Lex(LexerState(s2, indent));
        assert LexStream(lx) == LexStream(LexerState(s2, indent));
      }
    }
  }

  /** The lexer NewLexer builds emits exactly LexAll of its lines and then
      the source's error: blank lines are filtered out and the buffered
      layer, which Lex never pushes back into, is transparent. */
  lemma LexerMatchesLexAll(lines: seq<string>, err: Option<Error>)
    ensures LexStream(NewLexer(lines, err)) == TokenStream(LexAll(lines), err)
  {
    LexFollowsScanner(NewLexer(lines, err).s, 0);
  }

  /** The lastIndent in effect after LexLines has read lines, starting from
      lastIndent. */
  function IndentAfter(lines: seq<string>, lastIndent: nat): nat {
    if |lines| == 0 then lastIndent
    else IndentAfter(lines[1..], LexLine(lines[0], lastIndent).1)
  }

  /** Lexing is line by line: the tokens of a + b are those of a, then those
      of b lexed from the lastIndent a leaves behind. */
  lemma {:induction false} LexLinesAppend(a: seq<string>, b: seq<string>, lastIndent: nat)
    ensures LexLines(a + b, lastIndent) == LexLines(a, lastIndent) + LexLines(b, IndentAfter(a, lastIndent))
    ensures IndentAfter(a + b, lastIndent) == IndentAfter(b, IndentAfter(a, lastIndent))
    decreases |a|
  {
    if |a| == 0 {
      assert a + b == b;
    } else {
      var indent := LexLine(a[0], lastIndent).1;
      assert (a + b)[0] == a[0];
      assert (a + b)[1..] == a[1..] + b;
      LexLinesAppend(a[1..], b, indent);
    }
  }
}

/** The worked example of the test suite (lexer_test.go and parser_test.go),
    stated twice: as a family of specification files of the same layout,
    whose tokens and scenario are proved for all prose, descriptions and
    commands, and as the one bank-account file the tests use. */
module Examples {
  import opened Base
  import opened Strings
  import opened Lexer
  import opened LexerFacts
  import opened Ast
  import opened Grammar
  import opened Parser
  import opened ParserFacts

  /** A value Lex passes on unchanged: non-empty, no blank at either end. */
  predicate IsTrimmed(v: string) {
    v != [] && !IsBlank(v[0]) && !IsBlank(v[|v| - 1])
  }

  /** A line of narrative: not indented, and not starting with any
      directive's spelling. */
  predicate IsProse(line: string) {
    line != [] && !IsBlank(line[0])
    && forall t :: IsDirective(t) ==> !HasPrefix(line, Spelling(t))
  }

  /** One step of a specification file: a directive line with its
      description (which may be empty), then the command it runs on the
      next line, indented by one tab. */
  datatype Step = Step(kind: Token, text: string, command: string)

  predicate IsStep(s: Step) {
    IsDirective(s.kind) && (s.text == [] || IsTrimmed(s.text)) && IsTrimmed(s.command)
  }

  function HeaderLine(s: Step): string {
    if s.text == [] then Spelling(s.kind) else Spelling(s.kind) + [' '] + s.text
  }

  function CommandLine(s: Step): string {
    ['\t'] + s.command
  }

  /** The lines of a run of steps, two per step. */
  function StepLines(ss: seq<Step>): (lines: seq<string>)
    ensures |lines| == 2 * |ss|
  {
    if |ss| == 0 then [] else [HeaderLine(ss[0]), CommandLine(ss[0])] + StepLines(ss[1..])
  }

  /** The tokens a run of steps should lex to: the directive with its
      description, then a Block with the command, per step. */
  function StepTokens(ss: seq<Step>): (toks: seq<TokenTuple>)
    ensures |toks| == 2 * |ss|
  {
    if |ss| == 0 then []
    else [TokenTuple(ss[0].kind, ss[0].text), TokenTuple(Block, ss[0].command)] + StepTokens(ss[1..])
  }

  /** lines with an empty line in front of each. */
  function Spaced(lines: seq<string>): (r: seq<string>)
    ensures |r| == 2 * |lines|
  {
    if |lines| == 0 then [] else ["", lines[0]] + Spaced(lines[1..])
  }

  /** The layout of the test's specification: an empty line, the prose, an
      empty line, the first step, then every further line after an empty
      line of its own. */
  function Document(prose: seq<string>, ss: seq<Step>): seq<string>
    requires |ss| > 0
  {
    [""] + prose + [""] + [HeaderLine(ss[0]), CommandLine(ss[0])] + Spaced(StepLines(ss[1..]))
  }

  /** A string with no blank at either end is its own trim. */
  lemma TrimOfTrimmed(s: string)
    requires IsTrimmed(s)
    ensures Trim(s) == s
  {
    assert LeadingBlanks(s) == 0;
    assert s[0..] == s;
  }

  /** The directive line of a step yields the directive with the step's
      description, and leaves lastIndent alone. */
  lemma HeaderLexes(s: Step, lastIndent: nat)
    requires IsStep(s)
    ensures LexLine(HeaderLine(s), lastIndent) == (Some(TokenTuple(s.kind, s.text)), lastIndent)
  {
    var line := HeaderLine(s);
    var n := |Spelling(s.kind)|;
    assert line[..n] == Spelling(s.kind);
    DirectiveLine(line, lastIndent, s.kind);
    var rest := line[n..];
    if s.text == [] {
      assert rest == [];
    } else {
      assert rest == [' '] + s.text;
      assert LeadingBlanks(rest[1..]) == 0;
      assert LeadingBlanks(rest) == 1;
      assert rest[1..] == s.text;
      TrimOfTrimmed(s.text);
    }
  }

  /** The command line of a step yields a Block with the command and sets
      lastIndent to 1, provided the lastIndent before it is at most 1. */
  lemma CommandLexes(s: Step, lastIndent: nat)
    requires IsTrimmed(s.command) && lastIndent <= 1
    ensures LexLine(CommandLine(s), lastIndent) == (Some(TokenTuple(Block, s.command)), 1)
  {
    var line := CommandLine(s);
    assert line[1..] == s.command;
    assert IsContentLine(line) by { assert !IsBlank(line[1]); }
    assert LeadingBlanks(line[1..]) == 0;
    assert LeadingBlanks(line) == 1;
    BlockLine(line, lastIndent);
    assert Trim(line) == Trim(line[1..]) by { assert line[1..][0..] == line[1..]; }
    TrimOfTrimmed(s.command);
  }

  /** The two lines of a step yield its directive and its Block, and leave
      lastIndent at 1. */
  lemma StepLexes(s: Step, lastIndent: nat)
    requires IsStep(s) && lastIndent <= 1
    ensures LexLines([HeaderLine(s), CommandLine(s)], lastIndent)
         == [TokenTuple(s.kind, s.text), TokenTuple(Block, s.command)]
    ensures IndentAfter([HeaderLine(s), CommandLine(s)], lastIndent) == 1
  {
    HeaderLexes(s, lastIndent);
    CommandLexes(s, lastIndent);
    TwoLinesLex(HeaderLine(s), CommandLine(s), lastIndent);
  }

  /** LexLines on two lines, from what LexLine does with each. */
  lemma TwoLinesLex(a: string, b: string, lastIndent: nat)
    requires LexLine(a, lastIndent).0.Some?
    requires LexLine(b, LexLine(a, lastIndent).1).0.Some?
    ensures LexLines([a, b], lastIndent)
         == [LexLine(a, lastIndent).0.value, LexLine(b, LexLine(a, lastIndent).1).0.value]
    ensures IndentAfter([a, b], lastIndent) == LexLine(b, LexLine(a, lastIndent).1).1
  {
    var la := LexLine(a, lastIndent).1;
    assert [a, b][1..] == [b];
    assert [b][1..] == [];
    assert IndentAfter([b], la) == IndentAfter([], LexLine(b, la).1);
    assert LexLines([b], la) == [LexLine(b, la).0.value];
  }

  /** Every line of a run of steps yields its token, and the run leaves
      lastIndent at 1. */
  lemma {:induction false} StepsLex(ss: seq<Step>, lastIndent: nat)
    requires forall k :: 0 <= k < |ss| ==> IsStep(ss[k])
    requires lastIndent <= 1
    ensures LexLines(StepLines(ss), lastIndent) == StepTokens(ss)
    ensures |ss| > 0 ==> IndentAfter(StepLines(ss), lastIndent) == 1
    decreases |ss|
  {
    if |ss| > 0 {
      var s := ss[0];
      StepLexes(s, lastIndent);
      LexLinesAppend([HeaderLine(s), CommandLine(s)], StepLines(ss[1..]), lastIndent);
      StepsLex(ss[1..], 1);
    }
  }

  /** Prose yields no token, and resets lastIndent to 0. */
  lemma {:induction false} ProseLexes(prose: seq<string>, lastIndent: nat)
    requires forall k :: 0 <= k < |prose| ==> IsProse(prose[k])
    ensures LexLines(prose, lastIndent) == []
    ensures IndentAfter(prose, lastIndent) == if |prose| == 0 then lastIndent else 0
    decreases |prose|
  {
    if |prose| > 0 {
      var line := prose[0];
      assert IsContentLine(line) by { assert !IsBlank(line[0]); }
      UnrecognisedLineDropped(line, lastIndent);
      ProseLexes(prose[1..], 0);
    }
  }

  /** Lines that all have content pass the empty-line filter unchanged. */
  lemma {:induction false} ContentFilter(lines: seq<string>)
    requires forall k :: 0 <= k < |lines| ==> IsContentLine(lines[k])
    ensures Filter(IsContentLine, lines) == lines
    decreases |lines|
  {
    if |lines| > 0 {
      ContentFilter(lines[1..]);
    }
  }

  /** Both lines of a step have content. */
  lemma StepLinesHaveContent(s: Step)
    requires IsStep(s)
    ensures IsContentLine(HeaderLine(s)) && IsContentLine(CommandLine(s))
  {
    SpellingsStartDistinct(s.kind, s.kind);
    assert HeaderLine(s)[0] == Spelling(s.kind)[0];
    assert !IsBlank(HeaderLine(s)[0]);
    assert !IsBlank(CommandLine(s)[1]);
  }

  /** An empty line followed by a line with content: the filter keeps the
      second only. */
  lemma BlankThenLine(line: string)
    requires IsContentLine(line)
    ensures Filter(IsContentLine, ["", line]) == [line]
  {
    assert ["", line][1..] == [line];
    assert [line][1..] == [];
  }

  /** Spacing out the lines of a step, then the lines of further steps. */
  lemma SpacedStep(s: Step, lines: seq<string>)
    ensures Spaced([HeaderLine(s), CommandLine(s)] + lines)
         == ["", HeaderLine(s), "", CommandLine(s)] + Spaced(lines)
  {
    var all := [HeaderLine(s), CommandLine(s)] + lines;
    assert all[1..] == [CommandLine(s)] + lines;
    assert ([CommandLine(s)] + lines)[1..] == lines;
  }

  /** The empty-line filter removes exactly the empty lines Spaced puts
      between the lines of a run of steps. */
  lemma {:induction false} SpacedStepsFilter(ss: seq<Step>)
    requires forall k :: 0 <= k < |ss| ==> IsStep(ss[k])
    ensures Filter(IsContentLine, Spaced(StepLines(ss))) == StepLines(ss)
    decreases |ss|
  {
    if |ss| > 0 {
      var s := ss[0];
      var h, c := HeaderLine(s), CommandLine(s);
      var rest := StepLines(ss[1..]);
      var tail := ["", c] + Spaced(rest);
      assert Spaced(StepLines(ss)) == ["", h] + tail by {
        SpacedStep(s, rest);
      }
      StepLinesHaveContent(s);
      assert Filter(IsContentLine, tail) == [c] + rest by {
        BlankThenLine(c);
        FilterAppend(IsContentLine, ["", c], Spaced(rest));
        SpacedStepsFilter(ss[1..]);
      }
      assert Filter(IsContentLine, ["", h] + tail) == [h] + ([c] + rest) by {
        BlankThenLine(h);
        FilterAppend(IsContentLine, ["", h], tail);
      }
    }
  }

  /** The empty-line filter keeps the prose and the lines of the steps of
      a file laid out like the test's specification. */
  lemma DocumentFilter(prose: seq<string>, ss: seq<Step>)
    requires |ss| > 0
    requires forall k :: 0 <= k < |prose| ==> IsProse(prose[k])
    requires forall k :: 0 <= k < |ss| ==> IsStep(ss[k])
    ensures Filter(IsContentLine, Document(prose, ss)) == prose + StepLines(ss)
  {
    var first := [HeaderLine(ss[0]), CommandLine(ss[0])];
    var rest := StepLines(ss[1..]);
    var head := [""] + prose + [""] + first;
    assert Filter(IsContentLine, head) == prose + first by {
      HeadFilter(prose, ss[0]);
    }
    SpacedStepsFilter(ss[1..]);
    FilterAppend(IsContentLine, head, Spaced(rest));
    AppendAssoc(prose, first, rest);
  }

  /** The part of Document before the spaced-out lines. */
  lemma HeadFilter(prose: seq<string>, s: Step)
    requires forall k :: 0 <= k < |prose| ==> IsProse(prose[k])
    requires IsStep(s)
    ensures Filter(IsContentLine, [""] + prose + [""] + [HeaderLine(s), CommandLine(s)])
         == prose + [HeaderLine(s), CommandLine(s)]
  {
    ProseFilter(prose);
    StepLinesHaveContent(s);
    TwoContentLines(HeaderLine(s), CommandLine(s));
    FilterAppend(IsContentLine, [""] + prose + [""], [HeaderLine(s), CommandLine(s)]);
  }

  /** Prose between two empty lines: the filter keeps the prose. */
  lemma ProseFilter(prose: seq<string>)
    requires forall k :: 0 <= k < |prose| ==> IsProse(prose[k])
    ensures Filter(IsContentLine, [""] + prose + [""]) == prose
  {
    var a := [""] + prose;
    assert Filter(IsContentLine, [""]) == [];
    assert Filter(IsContentLine, a) == prose by {
      forall k | 0 <= k < |prose|
        ensures IsContentLine(prose[k])
      {
        assert !IsBlank(prose[k][0]);
      }
      ContentFilter(prose);
      FilterAppend(IsContentLine, [""], prose);
    }
    FilterAppend(IsContentLine, a, [""]);
  }

  lemma TwoContentLines(x: string, y: string)
    requires IsContentLine(x) && IsContentLine(y)
    ensures Filter(IsContentLine, [x, y]) == [x, y]
  {
    assert [x, y][1..] == [y];
    assert [y][1..] == [];
  }

  /** A file laid out like the test's specification lexes to the tokens of
      its steps, whatever its prose, descriptions and commands: the empty
      lines are filtered out, the prose is dropped, and each step yields
      its directive and its Block. */
  lemma DocumentLexes(prose: seq<string>, ss: seq<Step>)
    requires |ss| > 0
    requires forall k :: 0 <= k < |prose| ==> IsProse(prose[k])
    requires forall k :: 0 <= k < |ss| ==> IsStep(ss[k])
    ensures LexAll(Document(prose, ss)) == StepTokens(ss)
  {
    var lines := prose + StepLines(ss);
    assert LexAll(Document(prose, ss)) == LexLines(lines, 0) by {
      DocumentFilter(prose, ss);
    }
    assert LexLines(lines, 0) == [] + LexLines(StepLines(ss), 0) by {
      LexLinesAppend(prose, StepLines(ss), 0);
      ProseLexes(prose, 0);
    }
    StepsLex(ss, 0);
  }

  /** The prose of the test's specification. */
  const ExampleProse: seq<string> := [
    "A bank account is a financial " + "account maintained by a financial",
    "institution for a customer."
  ]

  /** The steps of the test's specification. */
  const ExampleSteps: seq<Step> := [
    Step(Given, "I have a bank account", "ls ./account.csv"),
    Step(And, "The balance is 0", "! bank check-balance ./account.csv"),
    Step(When, "I try to withdraw some money", "bank withdraw 1000 " + "./account.csv > out || true"),
    Step(Then, "nothing will happen", "! grep '.*' out"),
    Step(Finally, "", "rm -rf out")
  ]

  /** ExampleSpec of lexer_test.go, as the lines the line splitter yields;
      Document describes their layout. */
  const ExampleSpec: seq<string> := Document(ExampleProse, ExampleSteps)

  /** The tokens lexer_test.go expects from ExampleSpec, which are also the
      tokens parser_test.go feeds to the parser. */
  const ExampleTokens: seq<TokenTuple> := [
    TokenTuple(Given, "I have a bank account"),
    TokenTuple(Block, "ls ./account.csv"),
    TokenTuple(And, "The balance is 0"),
    TokenTuple(Block, "! bank check-balance ./account.csv"),
    TokenTuple(When, "I try to withdraw some money"),
    TokenTuple(Block, "bank withdraw 1000 " + "./account.csv > out || true"),
    TokenTuple(Then, "nothing will happen"),
    TokenTuple(Block, "! grep '.*' out"),
    TokenTuple(Finally, ""),
    TokenTuple(Block, "rm -rf out")
  ]

  /** StepLines and StepTokens of the steps from index k on. */
  lemma StepsFrom(ss: seq<Step>, k: nat)
    requires k < |ss|
    ensures StepLines(ss[k..]) == [HeaderLine(ss[k]), CommandLine(ss[k])] + StepLines(ss[k + 1..])
    ensures StepTokens(ss[k..])
         == [TokenTuple(ss[k].kind, ss[k].text), TokenTuple(Block, ss[k].command)] + StepTokens(ss[k + 1..])
  {
    assert ss[k..][0] == ss[k];
    assert ss[k..][1..] == ss[k + 1..];
  }

  lemma ExampleTokensAreStepTokens()
    ensures ExampleTokens == StepTokens(ExampleSteps)
  {
    var ss := ExampleSteps;
    StepsFrom(ss, 0);
    StepsFrom(ss, 1);
    StepsFrom(ss, 2);
    StepsFrom(ss, 3);
    StepsFrom(ss, 4);
    assert ss[5..] == [];
    assert ss[0..] == ss;
  }

  /** The prose of the example is prose. */
  lemma ExampleProseIsProse()
    ensures forall k :: 0 <= k < |ExampleProse| ==> IsProse(ExampleProse[k])
  {
    FirstProseLine(ExampleProse[0]);
    SecondProseLine(ExampleProse[1]);
  }

  lemma FirstProseLine(line: string)
    requires line == "A bank account is a financial " + "account maintained by a financial"
    ensures IsProse(line)
  {
    assert line[0] == 'A' && line[1] == ' ';
  }

  lemma SecondProseLine(line: string)
    requires line == "institution for a customer."
    ensures IsProse(line)
  {
    assert line[0] == 'i';
  }

  /** The steps of the example are well formed. */
  lemma ExampleStepsAreSteps()
    ensures forall k :: 0 <= k < |ExampleSteps| ==> IsStep(ExampleSteps[k])
  {
  }

  /** The lexer NewLexer builds over ExampleSpec emits exactly the tokens
      lexer_test.go expects, and then reports the end of input. */
  lemma ExampleLexes()
    ensures LexStream(NewLexer(ExampleSpec, None)) == TokenStream(ExampleTokens, None)
  {
    ExampleProseIsProse();
    ExampleStepsAreSteps();
    DocumentLexes(ExampleProse, ExampleSteps);
    ExampleTokensAreStepTokens();
    LexerMatchesLexAll(ExampleSpec, None);
  }

  /** The token kinds of the example, in order. */
  const ExampleKinds: seq<Token> := [Given, Block, And, Block, When, Block, Then, Block, Finally, Block]

  /** A token stream without error whose kinds are those of the example. */
  predicate HasExampleShape(ts: TokenStream) {
    && ts.err == None
    && |ts.toks| == |ExampleKinds|
    && forall k :: 0 <= k < |ts.toks| ==> ts.toks[k].kind == ExampleKinds[k]
  }

  /** The scenario such a stream describes: Given and And blocks joined by
      And, one behavior of a When and a Then block, each block named after
      its directive's value and without commands. */
  function ExampleScenario(ts: TokenStream): Scenario
    requires HasExampleShape(ts)
  {
    var v := k requires 0 <= k < |ts.toks| => ts.toks[k].value;
    Scenario(
      AndExpr([BlockExpr(v(0), []), BlockExpr(v(2), [])]),
      [Behavior(Some(BlockExpr(v(4), [])), Some(BlockExpr(v(6), [])))])
  }

  /** The Given chunk: the Given block, then an And chain of one more block. */
  lemma ExampleGivenChunk(ts: TokenStream)
    requires HasExampleShape(ts)
    ensures Chunk(ts, Given, 0) == Success((Some(ExampleScenario(ts).given), 4))
  {
    var toks := ts.toks;
    var head := BlockExpr(toks[0].value, []);
    assert SkipText(toks, 0) == 0;
    assert BlockRunEnd(toks, 2) == 2;
    assert SkipText(toks, 2) == 2;
    assert BlockRunEnd(toks, 4) == 4;
    assert SkipText(toks, 4) == 4;
    var cs := [head, BlockExpr(toks[2].value, [])];
    assert ChainFrom(ts, And, cs, 4) == Success((cs, 4));
    assert Chain(ts, head, 2) == Success((cs, 4));
    assert ChunkTail(ts, head, 2) == Success((Some(AndExpr(cs)), 4));
  }

  /** The behavior: a When chunk and a Then chunk of one block each. */
  lemma ExampleBehavior(ts: TokenStream)
    requires HasExampleShape(ts)
    ensures BehaviorAt(ts, 4) == Success((Some(ExampleScenario(ts).behaviors[0]), 8))
  {
    var toks := ts.toks;
    assert SkipText(toks, 4) == 4;
    assert BlockRunEnd(toks, 6) == 6;
    assert SkipText(toks, 6) == 6;
    assert ChunkTail(ts, BlockExpr(toks[4].value, []), 6) == Success((Some(BlockExpr(toks[4].value, [])), 6));
    assert Chunk(ts, When, 4) == Success((Some(BlockExpr(toks[4].value, [])), 6));
    assert BlockRunEnd(toks, 8) == 8;
    assert SkipText(toks, 8) == 8;
    assert ChunkTail(ts, BlockExpr(toks[6].value, []), 8) == Success((Some(BlockExpr(toks[6].value, [])), 8));
    assert Chunk(ts, Then, 6) == Success((Some(BlockExpr(toks[6].value, [])), 8));
  }

  /** At the Finally token no chunk, behavior or scenario starts. */
  lemma ExampleStopsAtFinally(ts: TokenStream)
    requires HasExampleShape(ts)
    ensures Behaviors(ts, 8) == Success(([], 8))
    ensures Program(ts, 8) == Outcome([], None, 8)
  {
    var toks := ts.toks;
    assert SkipText(toks, 8) == 8;
    assert Chunk(ts, When, 8) == Success((None, 8));
    assert Chunk(ts, Then, 8) == Success((None, 8));
    assert BehaviorAt(ts, 8) == Success((None, 8));
    assert Chunk(ts, Given, 8) == Success((None, 8));
    assert ScenarioAt(ts, 8) == Success((None, 8));
  }

  /** The grammar reads one scenario from a stream of the example's shape
      and stops, without error, at the Finally token: the finally section
      is not part of any scenario. */
  lemma ExampleShapeParses(ts: TokenStream)
    requires HasExampleShape(ts)
    ensures ParseTokens(ts) == Outcome([ExampleScenario(ts)], None, 8)
  {
    var sc := ExampleScenario(ts);
    ExampleGivenChunk(ts);
    ExampleBehavior(ts);
    ExampleStopsAtFinally(ts);
    assert [sc.behaviors[0]] + [] == sc.behaviors;
    assert Behaviors(ts, 4) == Success((sc.behaviors, 8));
    assert ScenarioAt(ts, 0) == Success((Some(sc), 8));
  }

  /** The scenario of the example. */
  const ExampleResult: Scenario := Scenario(
    AndExpr([BlockExpr("I have a bank account", []), BlockExpr("The balance is 0", [])]),
    [Behavior(Some(BlockExpr("I try to withdraw some money", [])), Some(BlockExpr("nothing will happen", [])))])

  /** What parser_test.go checks of the example, and more: Parse over the
      tokens it lists returns no error and exactly one scenario. Its Given
      is an And of the Given and And blocks; the commands of the Block
      tokens are dropped; the finally section is ignored. */
  lemma ExampleParses()
    ensures Parse(TokenStream(ExampleTokens, None)) == ([ExampleResult], None)
  {
    var ts := TokenStream(ExampleTokens, None);
    ExampleTokensHaveShape();
    ExampleShapeParses(ts);
    ParseMatchesGrammar(ts);
  }

  lemma ExampleTokensHaveShape()
    ensures HasExampleShape(TokenStream(ExampleTokens, None))
    ensures ExampleScenario(TokenStream(ExampleTokens, None)) == ExampleResult
  {
  }
}

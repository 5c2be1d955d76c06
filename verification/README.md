# gourd front end, modelled in Dafny

gourd reads behaviour-driven test specifications written as
`Given:` / `And:` / `Or:` / `When:` / `Then:` / `(finally)` directives, each
followed by indented shell command lines. This project models its front end:

- the line scanners (`bufscan.go`): a filtering scanner and a buffered
  scanner with one line of pushback (`BufScan`);
- the lexer (`lexer.go`): indentation measurement, directive recognition,
  the empty-line filter, and `Lex` with its `lastIndent` state (`Lexer`,
  with the blank-handling string primitives in `Strings`);
- the recursive-descent parser (`parser.go`) with its one-token pushback
  (`Parser`);
- the syntax tree and the dispatch of `Eval` (`expression.go`,
  `scenario.go`; `Ast`).

The parser has a second, pure description in `Grammar`. There the parser's
position is a cursor into the token list, and every grammar rule returns the
cursor where it stopped. `ParserFacts.ParseMatchesGrammar` proves that the
pushback parser computes exactly what the grammar describes. The grammar is
the partner of every parser function. The reference tokenization
`Lexer.LexAll` plays the same part for the lexer:
`LexerFacts.LexerMatchesLexAll` proves that draining the lexer `NewLexer`
builds gives `LexAll` of its lines, then the source's read error.

Panics become `Result` values. `scan` panics on a lexer error, and `Parse`
recovers it and returns the scenarios appended so far together with the error.
`GrammarFacts.ParseKeepsCompletedScenarios` states what those scenarios are.
A lexer is represented by the token stream it produces: its tokens, then an
optional read error. A scan past the last token returns that error, or nil
when there is none.

`Examples` states what the repository's tests expect, as lemmas. `Examples.ExampleLexes`
covers the specification text in `lexer_test.go`. `Examples.ExampleParses`
covers the token list in `parser_test.go`. `Examples.DocumentLexes`
generalises the lexer test to any document laid out the same way.
`Groups.GroupsParse` generalises the parser test to any number of
scenarios: a stream of groups, each a Given step, any And steps and any
When/Then pairs, parses to one scenario per group, in order.

The model follows the code as written, including these behaviours:

- After a directive line, `Lex` leaves `lastIndent` as it was. Only a
  line that yields no token sets it to 0 (`lexer.go:92-96`).
- `parseBlock` never appends to `commands` (`parser.go:105-121`). Every
  block the parser builds therefore has no commands, even though the Block
  tokens after its directive are consumed.
- A Block before the first Given ends the parse with no scenario and no
  error, whatever comes after it (`GrammarFacts.LeadingBlockEndsParse`).
  Likewise, a chunk, a chain or the scenario list stops at the end or at a
  token that is neither Text nor able to continue what was read (the first
  such token), and that token may be a Block.
- The parser has no rule for `(finally)`. A Finally token ends the
  scenario list without error, and the tokens after it are never read: the
  parse equals the parse of the tokens before the first Finally alone
  (`GrammarFacts.ProgramStopsAtFinally`, `GrammarFacts.ParseStopsAtFinally`;
  for the test's stream, `Examples.ExampleStopsAtFinally`).
- On an all-blank non-empty line, `getIndent` returns the index of the last
  character, not the number of blanks. The empty-line filter removes such
  lines before `Lex` sees them, so this does not change any token.
- `NewLexer` builds its stack from the `scan` package's filter and
  buffered scanners. That package is not part of this model, so they are
  modelled by the wrappers of `bufscan.go`, which have the same interface.

## Model

| member | source | states |
|---|---|---|
| Base.Filter | bufscan.go:57-65 | Keeps only lines satisfying the predicate, and keeps every such line. |
| Base.FilterAppend | bufscan.go:57-65 | Filtering line by line: filtering a + b gives the filtered a followed by the filtered b. |
| Strings.LeadingBlanks | lexer.go:143-147 | The count of leading spaces and tabs: all of them are blank and the next character is not. |
| Strings.TrimRight | lexer.go:151-153 | Cuts only trailing blanks and leaves no blank at the end. |
| Strings.Trim | lexer.go:151-153 | strings.Trim with cutset " \t": empty exactly when the input is all blanks; otherwise no blank at either end. |
| Strings.TrimCutsBlanks | lexer.go:151-153 | Trim returns the slice of the input that starts after the leading blanks and is followed only by blanks. |
| BufScan.Text | bufscan.go:31-38 | Reading the current line never adds to what the scanner stack still has to deliver. |
| BufScan.Scan | bufscan.go:24-29 | A successful Scan followed by Text consumes a line or the pushback, so the filter loop and every read loop end. |
| BufScan.Err | bufscan.go:40-42 | A whole scanner stack reports the error of the line source at its bottom: none until the source is exhausted, then the error that ended it. |
| BufScan.PendingPushbackReplays | bufscan.go:24-38 | With a pushback pending, Scan succeeds without reading, and Text returns the recorded line and clears the flag. |
| BufScan.UnscanThenRescan | bufscan.go:44-46 | Unscanning the line just read makes the next Scan/Text return the same line and reach the same state. |
| BufScan.Unscan | bufscan.go:44-46 | After Unscan the next Scan succeeds without reading, and the next Text replays the last line and clears the flag. |
| BufScan.UnscanIdempotent | bufscan.go:44-46 | Pushback is one line deep: a second Unscan changes nothing. |
| BufScan.BufferedTransparent | bufscan.go:14-38 | Without a pending pushback the buffered scanner yields exactly the lines and the error of the scanner it wraps. |
| BufScan.UnbufferedTextIsPure | bufscan.go:67-69 | The filtering scanner's Text only reads the wrapped scanner's current line. |
| BufScan.FilteredShowsOnlyKept | bufscan.go:57-65 | Every line a successful Scan of the filtering scanner stops on satisfies the filter. |
| BufScan.FilteredYieldsKeptLines | bufscan.go:48-73 | The filtering scanner yields exactly the wrapped lines satisfying the filter, in order, then the wrapped error. |
| Lexer.Spelling | lexer.go:30-39 | The tokens table entry for entry, every spelling non-empty; that directive spellings start with distinct non-blank characters is SpellingsStartDistinct. |
| Lexer.GetIndent | lexer.go:138-149 | On a line with content, the number of leading blanks. On an all-blank non-empty line, the last index. On the empty line, 0. |
| Lexer.IndentFrom | lexer.go:143-147 | The range loop stops at the first non-blank or the last index, with only blanks before it. |
| Lexer.TrimPrefix | lexer.go:151-153 | A token value is no longer than its line and never starts or ends with a blank. |
| LexerFacts.TrimPrefixDropsPrefix | lexer.go:151-153 | trimPrefix(prefix + rest, prefix) is rest trimmed; without the prefix, only the blanks are cut. |
| Lexer.MatchDirective | lexer.go:114-122 | None iff no listed spelling starts the line; otherwise a listed directive whose spelling starts the line, valued with the rest trimmed. |
| Lexer.ParseDirective | lexer.go:105-122 | None iff no directive spelling starts the line; otherwise that directive, valued with the rest of the line trimmed. |
| LexerFacts.SpellingsStartDistinct | lexer.go:30-39 | No directive spelling starts with a blank, and no two start with the same character. |
| LexerFacts.DirectiveMatchIsUnique | lexer.go:105-122 | At most one directive spelling starts any line, so the order of the directives table cannot change the result. |
| LexerFacts.IndentedLineIsNoDirective | lexer.go:114-122 | A line starting with a blank is never a directive. |
| Lexer.IsContentLine | lexer.go:124-136 | The empty-line filter keeps a line iff some character is neither space nor tab. |
| Lexer.LexLine | lexer.go:86-96 | One line yields no Text token. lastIndent becomes 0 when the line yields nothing, and is unchanged after a directive. |
| LexerFacts.BlockLine | lexer.go:87-91 | A line indented at least as deep as lastIndent is a non-empty Block of the trimmed line, and its depth becomes lastIndent. |
| LexerFacts.DirectiveLine | lexer.go:92-95 | An unindented line starting with a directive's spelling is that directive, valued with the trimmed rest, and keeps lastIndent. |
| LexerFacts.DedentedLineDropped | lexer.go:88-96 | An indented line shallower than lastIndent yields nothing and resets lastIndent to 0. |
| LexerFacts.UnrecognisedLineDropped | lexer.go:92-96 | An unindented line with no directive prefix yields nothing and resets lastIndent to 0. |
| LexerFacts.FinallyAloneHasEmptyValue | lexer.go:114-122 | `(finally)` alone lexes to Finally with the empty value. |
| Lexer.Lex | lexer.go:84-103 | Lex never returns a Text token, and each token it returns consumes input. |
| Lexer.LexLines | lexer.go:84-97 | The reference tokenization yields at most one token per line and never a Text token. |
| LexerFacts.LexLinesAppend | lexer.go:84-97 | Lexing is line by line: the tokens of a + b are those of a, then those of b from the lastIndent a leaves. |
| LexerFacts.LexFollowsScanner | lexer.go:84-103 | Lex called until it ends gives the reference tokenization of the lines the scanner yields, then the scanner's error. |
| Lexer.NewLexer | lexer.go:77-82 | The stack NewLexer builds yields the lines with content, in order, then the source's error, and lexing starts at indentation 0. |
| LexerFacts.LexerMatchesLexAll | lexer.go:77-82 | The lexer NewLexer builds emits LexAll of its lines (blank lines removed), then the source's read error. |
| Ast.Eval | expression.go:20-53 | Each variant calls the context's matching hook with its own fields (run with description and commands, and or or with the children); the property is stated by EvalOnlyDispatches. |
| Ast.EvalOnlyDispatches | expression.go:20-53 | Two contexts evaluate an expression alike exactly when their hooks for its variant agree on its fields, so Eval combines nothing itself; and a context whose hooks all answer v evaluates every expression to v, so the verdict is the hook's own, unaltered. |
| Grammar.SkipText | parser.go:123-130 | The first position at or after i not holding a Text token. |
| Grammar.SkipTextSkipsOnlyText | parser.go:123-130 | Everything skipped is Text. |
| Grammar.BlockRunEnd | parser.go:105-121 | The end of the run of Block tokens: the next token, if any, is not a Block. |
| Grammar.BlockRunIsBlocks | parser.go:105-121 | Everything in the run is a Block. |
| Grammar.Chunk | parser.go:63-84 | Absent consumes only Text and stops at the first token that is not Text, which may be a directive of another kind or a Block. Present yields a single block or an And/Or of at least two blocks. Failure only carries the lexer's error. |
| Grammar.ChunkTail | parser.go:72-83 | After the head block, the chunk is the head alone or a chain of blocks, ending at a token that is not Text. |
| Grammar.Chain | parser.go:86-103 | An And (Or) chain stops at the end or at a token that is neither Text nor a further And (Or), the first one after a block run and its Text: a directive of another kind, or a Block after Text. |
| Grammar.ChainFrom | parser.go:91-101 | The blocks collected so far stay the prefix of the chain, and the chain stops at a token that is neither Text nor of its own kind, the first one after a block run and its Text, which may be a Block. |
| Grammar.BehaviorAt | parser.go:51-61 | A behavior never has both sides absent and consumes a token. None consumes only Text. |
| Grammar.Behaviors | parser.go:40-47 | All behaviors are well formed, and the list stops at a token that is neither When nor Then. |
| Grammar.ScenarioAt | parser.go:35-49 | A scenario has a chunk-shaped Given and well-formed behaviors. It consumes input and stops before any When or Then. |
| Grammar.Program | parser.go:19-33 | An error is the lexer's error, at the end of the tokens. Without one, parsing stops at the end or at a token that is neither Text nor Given (the first one that cannot continue what was read), which may be a Block; once a scenario was read, that token is not When or Then either. |
| Parser.Scan | parser.go:132-143 | A scan returning a token consumes input and records it as last. A panic happens only at the end of the tokens with no pushback, and carries the lexer's error. |
| Parser.Unscan | parser.go:145-147 | Only sets the pushback flag; the replay it causes is stated by UnscanReplays. |
| Parser.UnscanReplays | parser.go:132-147 | After unscan the next scan returns the last token again without calling the lexer, and clears the flag. |
| Parser.ScanIgnoreText | parser.go:123-130 | Returns no Text token, consumes what it returns, and fails only with the lexer's error. |
| ParserFacts.ScanIgnoreTextSkips | parser.go:123-130 | From a coherent state it returns the first non-Text token at or after the cursor, or ends at the end of the tokens. |
| Parser.ParseBlock | parser.go:105-121 | The block carries the head's value and no commands. |
| ParserFacts.ParseBlockConsumesRun | parser.go:105-121 | parseBlock consumes exactly the run of Blocks and pushes back the token that ends it, or ends the input. |
| Parser.ParseChunk | parser.go:63-84 | A chunk that is found consumes input. Failure only carries the lexer's error. |
| Parser.ParseChunkTail | parser.go:72-83 | After its head, a chunk is always present. |
| Parser.ParseTrailingChunks | parser.go:86-103 | The children start with the head and number at least two. |
| Parser.TrailingLoop | parser.go:91-101 | The loop only appends: the children collected so far stay a prefix. |
| ParserFacts.TrailingLoopAgrees | parser.go:91-101 | The loop of parseTrailingChunks agrees with ChainFrom: same children or error, parser left at the grammar's cursor. |
| ParserFacts.TrailingChunksAgree | parser.go:86-103 | parseTrailingChunks agrees with Chain. |
| ParserFacts.ChunkTailAgrees | parser.go:72-83 | The rest of parseChunk agrees with ChunkTail. |
| ParserFacts.ChunkAbsent | parser.go:63-71 | When the next directive is not t, parseChunk consumes only Text and pushes the directive back. |
| ParserFacts.ChunkAgrees | parser.go:63-84 | parseChunk agrees with Chunk. |
| Parser.ParseBehavior | parser.go:51-61 | A behavior it returns has a When or a Then, and consumes input. |
| ParserFacts.BehaviorAgrees | parser.go:51-61 | parseBehavior agrees with BehaviorAt. |
| Parser.BehaviorLoop | parser.go:40-47 | Behaviors are appended in order: earlier ones stay a prefix. |
| ParserFacts.BehaviorLoopAgrees | parser.go:40-47 | The behavior loop collects exactly the behaviors Behaviors finds. |
| Parser.ParseScenario | parser.go:35-49 | A scenario it returns consumes input. Failure only carries the lexer's error. |
| ParserFacts.ScenarioAgrees | parser.go:35-49 | parseScenario agrees with ScenarioAt. |
| Parser.ScenarioLoop | parser.go:25-31 | Scenarios already appended are kept, and an error returned is the lexer's error. |
| ParserFacts.ScenarioLoopAgrees | parser.go:25-31 | The loop of Parse returns, after those it has, exactly the scenarios and the error Program finds. |
| Parser.Parse | parser.go:19-33 | Parse returns an error only when the lexer reported one, and then exactly that error; its scenarios are stated by ParseMatchesGrammar. |
| ParserFacts.ParseMatchesGrammar | parser.go:19-33 | Parse returns the scenarios and the error of the grammar's Program. |
| GrammarFacts.ErrorKeepsCompletedScenarios | parser.go:19-33 | Without an error, the parse equals that of the same tokens without error. With one, its scenarios are a prefix of those, short of at most one. |
| GrammarFacts.ParseKeepsCompletedScenarios | parser.go:19-33 | A recovered panic returns the lexer's error with the completed scenarios: a prefix of the error-free parse, short of at most one. |
| GrammarFacts.ProgramWithoutGiven | parser.go:35-39 | When the first token that is not Text is not Given (a Block included), parsing returns no scenario and stops there without error. |
| GrammarFacts.ProgramStopsAtFinally | parser.go:19-33 | From any cursor at or before a Finally token, the grammar gives the same outcome as on the tokens before the Finally alone, so it stops at or before the Finally and without error, whatever follows, a read error included. |
| GrammarFacts.ParseStopsAtFinally | parser.go:19-33 | Parse of a stream with a Finally token returns no error and the same scenarios as Parse of the tokens before the first Finally. |
| GrammarFacts.LeadingBlockEndsParse | parser.go:19-39 | A stream whose first token is a Block parses to no scenario and no error, stopping at 0, whatever follows, a Given or a read error included. |
| GrammarFacts.NoGivenNoScenario | parser.go:35-39 | A token stream without a Given token describes no scenario. |
| GrammarFacts.ParseWithoutGiven | parser.go:35-39 | Parse returns no scenario for a stream without a Given token. |
| Groups.LeafChunk | parser.go:63-84 | A Given, When or Then directive with one Block, followed by the end or by Given, When or Then, is a chunk of one block that ends after the Block. |
| Groups.AndChain | parser.go:86-103 | And steps extend a chain by one block each, in source order, and the chain ends after the last step's Block. |
| Groups.GivenChunk | parser.go:63-84 | A Given step alone is its block; a Given step followed by And steps is an And of the Given block and the And blocks, in order. |
| Groups.NoBehaviors | parser.go:51-61 | At the end of the stream or at a Given, no behavior is read and nothing is consumed. |
| Groups.PairBehavior | parser.go:51-61 | A When step and a Then step form one behavior, with the When block and the Then block. |
| Groups.PairsBehave | parser.go:40-47 | When/Then pairs followed by the end or a Given are the behaviors, one per pair, in order. |
| Groups.GroupScenarioAt | parser.go:35-49 | A group (a Given step, And steps, When/Then pairs) followed by the end or a Given is one scenario with the group's given and behaviors. |
| Groups.GroupsProgram | parser.go:25-31 | Groups up to the end of the stream are its scenarios, one per group, in order, without error. |
| Groups.GroupsParse | parser.go:19-33 | Parse of a stream made of groups, without read error, returns one scenario per group, in order, each with its group's given and behaviors, and no error. |
| Groups.TwoGivens | parser.go:19-49 | Given, Block, Given, Block parses to two scenarios, the first and second Given's blocks, both without behaviors. |
| Groups.GivenAndAnd | parser.go:63-103 | Given, Block, And, Block, And, Block parses to one scenario whose given is an And of the three blocks, in order. |
| Examples.DocumentLexes | lexer_test.go:10-32 | A document laid out like the test's (prose, empty lines, directive plus one tab-indented command per step) lexes to each step's directive and Block. |
| Examples.ExampleLexes | lexer_test.go:34-88 | The lexer over the test's specification emits exactly the ten tokens the test expects, then the end of input. |
| Examples.ExampleShapeParses | parser_test.go:23-75 | Any stream shaped like the test's tokens parses to one scenario (Given And-ed with And, one When/Then behavior) and stops at Finally. |
| Examples.ExampleParses | parser_test.go:23-75 | Parse over the test's tokens returns exactly one scenario and no error. |

## Left out

- Reading from an `io.Reader` (`bufio.Scanner`) is left out. A line source
  is a list of already-split lines plus the optional read error that ends
  it. How bufio splits lines and how long a line may be are not modelled.
- The `scan` package (its `FilterScanner`, `BufferedScanner` and `View`)
  is not part of this model. Its scanners are modelled by the `bufscan.go`
  wrappers.
- The `String()` methods of tokens, token tuples, expressions, behaviors and
  scenarios are left out. They only format for printing. `Token.String` is
  used as `Lexer.Spelling` only for the kinds it spells.
- `parser_test.go` compares `fmt.Sprint(scenario)` with the empty string,
  which `fmt.Sprint` never returns. Formatting is not modelled, so
  `Examples.ExampleParses` states the scenario itself instead.
- `context.go` and `gourd.go` (the execution context and the command-line
  wiring) are left out. The context is the record of three hooks that
  `Ast.Eval` calls. Running commands, and how `And`/`Or` combine children,
  belong to it.
- Go's `panic`/`recover` is modelled as a `Result` value, and a type
  assertion on the recovered value is not needed.
- Characters are Dafny `char`s. Go's range over a string walks runes, and
  its byte-level filter walks bytes. They agree here because every
  character the front end tests (space, tab and the directive spellings) is
  ASCII, and multi-byte characters are not modelled.
- BufScan.FilteredShowsOnlyKept requires the wrapped scanner to have no
  buffered layer, which `NewFilteredScanner` (`bufscan.go:53-55`) does not
  demand. The only stack the code builds (`lexer.go:78-81`) filters the
  bufio scanner directly, so the requirement always holds there. Over a
  buffered scanner with a pending pushback, the filter would test the
  replayed line and then show the wrapped scanner's current line, and this
  is not modelled.
- BufScan.FilteredYieldsKeptLines has the same requirement, for the same
  reason.
- Go's `int` for `lastIndent` and indices is an unbounded `nat`. Lines long
  enough to overflow it do not exist in practice.
- `Lexer.Lex`'s loop calls the buffered scanner's `Unscan` nowhere. The
  lexer's pushback is modelled (`BufScan.Unscan`), but no caller uses it.

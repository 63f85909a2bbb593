# bashed POSIX parser core, modelled in Dafny

This project models the lexical pipeline and tree-construction layer of
the bashed POSIX shell parser:

- the copy-on-write **token** value and its helpers (`src/utils/tokens.ts`);
- three **character-scanner reducers**: `operator` (maximal-munch operator
  lexing), `singleQuoting` and `comment`. Each is one step of the
  scanner's state machine: `(state, remaining characters) →
  {nextReduction, tokensToEmit, nextState}`;
- the **token-stream phases** that resolve ambiguities of the POSIX shell
  grammar (section 2.10.1 of the Shell Command Language, XCU chapter 2):
  - `newLineList`: runs of NEWLINE become one NEWLINE_LIST;
  - `operatorTokens`: generic OPERATOR tokens take their concrete kind;
  - `separator`: `separator_op NEWLINE_LIST` is merged into one token;
  - `ioNumber`: a digit word before a redirection becomes IO_NUMBER;
  - `identifySimpleCommandName`: finds the command-name position;
  - `syntaxerrorOnContinue`: reports unclosed quotes;
  - the `ioFileOperators` membership test they share;
- the **AST builder** actions for lists, pipelines, logical expressions,
  simple commands, redirections and function definitions, with their
  optional location spans.

Modelling choices:

- A lazy token stream is a finite `seq<Token>`. `iterable.behind(1)` and
  `iterable.ahead(1)` are the previous and next tokens of the input (`Tokens.Around`).
- A JavaScript property that may be `undefined` is an `Option`. A throw is
  an `Err` of a `Result`.
- The `_` flag bag is the set of flag names that are set to true.
- A token's kind-keyed properties, which `separator.js` reads (`tk.NEWLINE_LIST`,
  `lastToken.SEPARATOR_OP`, `tk.OPERATOR`, `tk[';']`, `lastToken.EMPTY`), are the
  string entries of its `extra` map.
- Collaborators that are not part of this model are parameters:
  - the mode's operator table, `map<string, string>`;
  - `isValidName`;
  - the scanner state methods `appendChar`, `resetCurrent` and `saveCurrentLocAsStart`;
  - the `start` reducer.

  The `Reducers.Scanner` datatype bundles the scanner ones. The
  `Reducers.AppendsChar` predicate states what the scanner lemmas assume of `appendChar`,
  and `Reducers.Restarts` what `OperatorReducer.Restarted` assumes of `resetCurrent`
  and `saveCurrentLocAsStart`.
- Imperative parts are imperative Dafny:
  - `separator` is a method with the generator's loop and its held-back `lastToken`;
  - `identifySimpleCommandName` writes flags into an `array<Token>` in place;
  - `isOperator` of `io-file-operators.ts` is a `for` loop.

  Each of these is proved against a specification function.
- The lists the AST builder appends to are objects of class `ListNode`
  (Script, CompoundList, Pipeline). Their append methods state the new
  commands and location in terms of the old ones and keep the invariant that
  the location spans the commands. The two builders `mkListHelper` makes
  (`<name>` and `<name>Append`) are the class `ItemList`, whose `Append` states the new items as the old ones
  followed by the item. `AstBuilder.Command` takes its prefix and suffix
  lists as plain sequences.

Behaviour of the code worth noting:

- `newLineList` keeps the location of the first newline of a run; it does not
  extend the span over the run.
- The builder's list appends update the list in place; they are not pure.
- `termAppend` calls `setLocEnd` on the list's location without checking
  `options.insertLOC`. It therefore throws when the list has no location and
  the appended command has one.
- In the command-name search, a word right after an IO file operator (only
  those, not any operator) is skipped, and the search moves on.

## Model

| member | source | states |
|---|---|---|
| Tokens.Increment | src/modes/posix/rules/separator.js:34 | `x++` on a numeric property adds one; on an absent or NaN one it gives NaN |
| Tokens.IsReadsTypeOnly | src/utils/tokens.ts:23-25 | `is(type)` reads the type alone and compares strictly: tokens of equal type answer alike, a token is of one type only, and retyping decides the answer |
| Tokens.NewToken | src/utils/tokens.ts:7-14 | the constructor keeps exactly the defined properties; an absent `_` becomes the empty bag |
| Tokens.CopyRoundTrip | src/utils/tokens.ts:28 | copying a token's own properties into a new Token gives the same token back |
| Tokens.AppendTo | src/utils/tokens.ts:27-29 | the new token is the old one with `chunk` added to its value; nothing else differs |
| Tokens.AppendToTwice | src/utils/tokens.ts:27-29 | appending two chunks in turn equals appending their concatenation |
| Tokens.ChangeTokenType | src/utils/tokens.ts:30-38 | new type and value; `loc`, `_` and `expansion` kept; `originalText`, `joined`, `fieldIdx` and other properties dropped |
| Tokens.ChangeTokenTypeTwice | src/utils/tokens.ts:30-38 | retyping twice equals retyping once to the second type and value |
| Tokens.SetValue | src/utils/tokens.ts:39-41 | only the value changes |
| Tokens.AlterValue | src/utils/tokens.ts:42-49 | the value changes, and `originalText` keeps the pre-alteration value unless one was already recorded |
| Tokens.AlterValueKeepsOriginal | src/utils/tokens.ts:42-49 | after two alterations `originalText` is still the first value (for a non-empty first value) |
| Tokens.AddExpansions | src/utils/tokens.ts:50-52 | only the expansion list changes, to empty |
| Tokens.SetExpansions | src/utils/tokens.ts:53-55 | only the expansion list changes |
| Tokens.MkToken | src/utils/tokens.ts:62-69 | type, value and location as given; the expansion list is attached iff it is non-empty |
| Tokens.MkFieldSplitToken | src/utils/tokens.ts:74-86 | a field keeps the word's type, location, expansions and original text, and records the word in `joined` and its index |
| Tokens.NewLine | src/utils/tokens.ts:146-148 | a NEWLINE token with text "\n" |
| Tokens.ContinueToken | src/utils/tokens.ts:150-152 | a CONTINUE token carrying the expected character |
| Tokens.Eof | src/utils/tokens.ts:154-156 | an EOF token with empty text |
| Tokens.RelativeTo | src/utils/tokens.ts:109-117 | an expansion's offsets become relative to the token start; its other fields are kept |
| Tokens.TokenOrEmpty | src/utils/tokens.ts:107-135 | no token iff the text is "" or "\n"; otherwise one TOKEN with that text and span, whose expansion offsets are the absolute ones minus the token start |
| Tokens.IsPartOfOperator | src/utils/tokens.ts:158-160 | the slice comparison holds iff the text is a prefix of some operator key |
| Tokens.IsOperator | src/utils/tokens.ts:158-164 | a complete operator is also part of an operator |
| Tokens.OperatorTokens | src/utils/tokens.ts:137-144 | one token typed by the table entry for the current text, with that text and its span |
| Tokens.Around | src/modes/posix/rules/io-number.ts:10 | `behind(1)`/`ahead(1)` are the previous and next input tokens, absent at the ends |
| Tokens.ApplyTokenizerVisitor | src/utils/tokens.ts:166-181 | the method for the token's type wins, then `defaultMethod`, else the token comes back unchanged |
| Tokens.MapVisitor | src/modes/posix/rules/new-line-list.ts:25 | one visitor result per input token, each computed with that token's neighbours |
| Tokens.FilterNonNull | src/modes/posix/rules/new-line-list.ts:24 | one output token per non-null entry; a token is in the output iff it is a non-null entry |
| Tokens.FilterNonNullAppend | src/modes/posix/rules/new-line-list.ts:24 | filtering a concatenation is the concatenation of the filtered parts, so order and multiplicity are kept |
| Tokens.FilterNonNullAt | src/modes/posix/rules/new-line-list.ts:24 | the non-null entry at `i` is output at the position given by the number of non-null entries before `i` |
| OperatorReducer.Restarted | src/modes/posix/tokenizer/reducers/operator.ts:20 | `resetCurrent().saveCurrentLocAsStart()` starts the next token with no text, given that `resetCurrent` empties the text and `saveCurrentLocAsStart` keeps it |
| OperatorReducer.Operator | src/modes/posix/tokenizer/reducers/operator.ts:10-53 | EOF with a complete operator: emit it and go to `end`; EOF otherwise: `start`; an extending character is appended and nothing is emitted; otherwise the completed operator is emitted before what `start` emits for the same character, which is handed back, not dropped |
| OperatorReducer.MunchExtends | src/modes/posix/tokenizer/reducers/operator.ts:26-31 | a step that extends the operator continues the scan from the appended state |
| OperatorReducer.MunchStops | src/modes/posix/tokenizer/reducers/operator.ts:33-52 | a character that cannot extend the operator stops the scan in front of it |
| OperatorReducer.MaximalMunch | src/modes/posix/tokenizer/reducers/operator.ts:26-40 | maximal munch: all of `w` is read while each prefix extends an operator, and the scan stops in front of the first character that cannot extend it |
| OperatorReducer.LongestOperatorEmitted | src/modes/posix/tokenizer/reducers/operator.ts:33-47 | at that point the whole text read is emitted first, as one token of the table's kind |
| SingleQuotingReducer.SingleQuoting | src/modes/posix/tokenizer/reducers/single-quoting.ts:5-27 | at EOF: the pending token and a CONTINUE `'`, next reduction null; otherwise exactly one character is consumed and appended, nothing is emitted, and the next reducer is `start` after `'` and `singleQuoting` otherwise |
| SingleQuotingReducer.ClosedQuoteVerbatim | src/modes/posix/tokenizer/reducers/single-quoting.ts:16-26 | a quoted run up to the closing quote is appended verbatim and `start` resumes after the quote |
| SingleQuotingReducer.UnclosedQuoteContinues | src/modes/posix/tokenizer/reducers/single-quoting.ts:8-14 | input ending inside quotes is appended entirely, then the pending token and CONTINUE `'` are emitted |
| SingleQuotingReducer.UnclosedQuoteReported | src/modes/posix/rules/syntaxerror-oncontinue.ts:6-8 | those tokens make the CONTINUE check fail with "Unclosed '" |
| CommentReducer.Comment | src/modes/posix/tokenizer/reducers/comment.ts:5-27 | the state is never changed; EOF goes to `end` with no tokens; `\n` emits one NEWLINE and goes to `start`; any other character is dropped |
| CommentReducer.CommentEndsAtNewline | src/modes/posix/tokenizer/reducers/comment.ts:15-26 | a comment up to a newline emits exactly one NEWLINE and resumes `start` after it |
| CommentReducer.CommentAtEndOfInput | src/modes/posix/tokenizer/reducers/comment.ts:8-13 | a comment running to EOF emits nothing and ends the scan |
| IoFileOperators.IsOperator | src/modes/posix/enums/io-file-operators.ts:3-23 | true exactly for LESS, DLESS, DGREAT, LESSAND, GREATAND, GREAT, LESSGREAT, CLOBBER |
| IoFileOperators.ScanIsOperator | src/modes/posix/enums/io-file-operators.ts:16-23 | the early-return scan over the list answers `IsOperator` |
| IoFileOperators.OnlyTypeMatters | src/modes/posix/enums/io-file-operators.ts:18 | the answer depends on the token type alone |
| IoFileOperators.SeparatorsAndWordsAreNot | src/modes/posix/enums/io-file-operators.ts:22 | SEPARATOR_OP, WORD, IO_NUMBER and NEWLINE_LIST are not IO file operators |
| SyntaxErrorOnContinue.FirstContinue | src/modes/posix/rules/syntaxerror-oncontinue.ts:5-11 | the position of the first CONTINUE token, if any |
| SyntaxErrorOnContinue.SyntaxErrorOnContinue | src/modes/posix/rules/syntaxerror-oncontinue.ts:4-12 | fails iff a CONTINUE token is present, with "Unclosed " + the value of the one at `FirstContinue`; otherwise the output is the input |
| OperatorTokensPhase.ReduceToOperator | src/modes/posix/rules/operator-tokens.ts:7-12 | a text in the table takes the table's kind and keeps text, location, flags and expansions; any other token is returned as it is |
| OperatorTokensPhase.ReduceToOperatorTokenVisitor | src/modes/posix/rules/operator-tokens.ts:6-13 | every OPERATOR is reduced and never dropped; every other token comes back unchanged, as there is no `defaultMethod` |
| OperatorTokensPhase.OperatorTokens | src/modes/posix/rules/operator-tokens.ts:6-20 | an OPERATOR in the table takes the table's kind with the same text, location, flags and expansions; every other token is unchanged; length and order kept |
| OperatorTokensPhase.OperatorTokensIdempotent | src/modes/posix/rules/operator-tokens.ts:6-20 | running the phase twice equals running it once |
| IoNumber.IoNumber | src/modes/posix/rules/io-number.ts:7-25 | fails iff the last token is a digit WORD (the lookahead is undefined); otherwise same length, each token keeps text, location, flags and expansions |
| IoNumber.IoNumberRetypes | src/modes/posix/rules/io-number.ts:12-21 | a token becomes IO_NUMBER iff it is a WORD of one or more digits followed by an IO file operator; others are unchanged |
| IoNumber.NoDigitWordsUnchanged | src/modes/posix/rules/io-number.ts:21 | a stream without digit words passes through unchanged |
| IoNumber.DescriptorBeforeRedirection | src/modes/posix/rules/io-number.ts:12-19 | in `2>file` the `2` becomes IO_NUMBER "2" |
| NewLineList.SkipRepeatedNewLines | src/modes/posix/rules/new-line-list.ts:8-18 | NEWLINE tokens go to the `NEWLINE` method; every other token comes back unchanged |
| NewLineList.NewLineList | src/modes/posix/rules/new-line-list.ts:22-27 | never longer than the input; each output token is an input token other than a NEWLINE, or the NEWLINE_LIST made from an input NEWLINE |
| NewLineList.SkipNewLine | src/modes/posix/rules/new-line-list.ts:9-17 | a NEWLINE after a NEWLINE is dropped; any other becomes NEWLINE_LIST "\n" with its location and flags |
| NewLineList.DropNewlines | src/modes/posix/rules/new-line-list.ts:12-14 | removes exactly the leading run of NEWLINE tokens |
| NewLineList.SuffixCollapses | src/modes/posix/rules/new-line-list.ts:22-27 | from any position on, the phase's output is the reference collapse of the rest of the input |
| NewLineList.VisitAt | src/modes/posix/rules/new-line-list.ts:9-17 | what the visitor yields at each position of the input |
| NewLineList.NewLineListIsCollapse | src/modes/posix/rules/new-line-list.ts:22-27 | the phase equals the reference collapse of every maximal NEWLINE run into one NEWLINE_LIST |
| NewLineList.CollapseHasNoNewline | src/modes/posix/rules/new-line-list.ts:9-17 | the reference collapse contains no NEWLINE |
| NewLineList.NoNewlineSurvives | src/modes/posix/rules/new-line-list.ts:9-17 | no NEWLINE token is left after the phase |
| NewLineList.RunBecomesOneList | src/modes/posix/rules/new-line-list.ts:9-17 | a leading run of NEWLINEs becomes exactly one NEWLINE_LIST "\n" with the first newline's location, and the phase continues after the run |
| NewLineList.DropRun | src/modes/posix/rules/new-line-list.ts:12-14 | the newlines dropped after a run's first are exactly the rest of that run |
| NewLineList.NoNewlinesUnchanged | src/modes/posix/rules/new-line-list.ts:25 | a stream without NEWLINE passes through unchanged, in order |
| NewLineList.CollapseIdentity | src/modes/posix/rules/new-line-list.ts:25 | the reference collapse is the identity on such a stream |
| Separator.Merge | src/modes/posix/rules/separator.js:27-36 | SEPARATOR_OP with the two texts concatenated; with a location, `endLine` goes up by one and `endColumn` becomes 0 |
| Separator.IsSeparatorToken | src/modes/posix/rules/separator.js:40-44 | a token without kind-keyed properties is never a separator; a `;` or `&` OPERATOR is |
| Separator.Retype | src/modes/posix/rules/separator.js:40-46 | a `;`/`&` separator becomes SEPARATOR_OP with the text the source assembles; any other token is unchanged |
| Separator.SeparatorFrom | src/modes/posix/rules/separator.js:26-56 | the rest of the output has at most one token per remaining input token, plus the one held back |
| Separator.SeparatorPhase | src/modes/posix/rules/separator.js:23-57 | the output for a whole input is never longer than the input, and empty for an empty input |
| Separator.Separator | src/modes/posix/rules/separator.js:23-57 | the generator loop yields exactly the specification `SeparatorPhase` |
| Separator.FinalIsEmit | src/modes/posix/rules/separator.js:27-51 | a token not absorbed leaves the loop as the reference's output token |
| Separator.HeldSuffix | src/modes/posix/rules/separator.js:26-56 | what the loop yields from any point on is the held token (unless it is an EMPTY marker) followed by the reference output, for every input |
| Separator.SeparatorIsRef | src/modes/posix/rules/separator.js:23-57 | for every input, the phase yields in input order one token per position not absorbed by a merge (the merge, the retyped separator, or the token unchanged), leaving out a token with a truthy `EMPTY` property |
| Separator.RefLength | src/modes/posix/rules/separator.js:37-54 | the reference output loses one token per merge and one per dropped EMPTY marker |
| Separator.SeparatorLength | src/modes/posix/rules/separator.js:24-56 | for every input, output length is input length minus the merges and the dropped EMPTY markers; without EMPTY markers, minus the merges alone (so empty input gives empty output) |
| Separator.NoMarkersNoDrops | src/modes/posix/rules/separator.js:48-54 | an input with no truthy `EMPTY` property has no token dropped |
| Separator.RefPlain | src/modes/posix/rules/separator.js:48-51 | the reference output of tokens with no kind-keyed properties is the input |
| Separator.PlainTokensUnchanged | src/modes/posix/rules/separator.js:48-56 | tokens with no kind-keyed properties pass through unchanged |
| Separator.SemicolonNewlineMerged | src/modes/posix/rules/separator.js:27-36 | `;` then a newline list gives one SEPARATOR_OP ";\n" ending at column 0 of the next line |
| IdentifySimpleCommandNames.CouldEndSimpleCommand | src/modes/posix/rules/identify-simplecommand-names.ts:8-20 | a word or an IO file operator ends a command only as the text `;`; SEPARATOR_OP, NEWLINE_LIST, PIPE and AND_IF always do |
| IdentifySimpleCommandNames.CouldBeCommandName | src/modes/posix/rules/identify-simplecommand-names.ts:22-24 | a candidate is never an IO file operator, and ends a command only as the text `;` |
| IdentifySimpleCommandNames.IdentifySimpleCommandName | src/modes/posix/rules/identify-simplecommand-names.ts:26-57 | fails iff the first token carries a pending search (the lookbehind is undefined); otherwise same length |
| IdentifySimpleCommandNames.IdentifyInPlace | src/modes/posix/rules/identify-simplecommand-names.ts:28-55 | the in-place flag writes leave the buffer equal to the specification's output, or report the same failure |
| IdentifySimpleCommandNames.VisitToken | src/modes/posix/rules/identify-simplecommand-names.ts:28-55 | one visit in place: the token becomes its specified output and the next token receives exactly the flags the specification passes on; a pending search on the first token fails |
| IdentifySimpleCommandNames.OnlyFlagsChange | src/modes/posix/rules/identify-simplecommand-names.ts:51-54 | each token keeps everything but its flags; `commandNameNotFoundYet` is erased and only `maybeSimpleCommandName` can be added |
| IdentifySimpleCommandNames.StartIsName | src/modes/posix/rules/identify-simplecommand-names.ts:29-31 | a possible start that is a valid-name WORD becomes the command name |
| IdentifySimpleCommandNames.StartHandsOver | src/modes/posix/rules/identify-simplecommand-names.ts:32-37 | a possible start that is not a name passes the search on iff the next token exists and does not end the command |
| IdentifySimpleCommandNames.SearchDecides | src/modes/posix/rules/identify-simplecommand-names.ts:40-50 | a searched token becomes the name iff it is a valid-name WORD not right after an IO file operator; otherwise the search moves on under the same end condition |
| IdentifySimpleCommandNames.NeverOntoEnders | src/modes/posix/rules/identify-simplecommand-names.ts:8-20 | the search never lands on SEPARATOR_OP, NEWLINE, NEWLINE_LIST, `;`, PIPE, OR_IF or AND_IF |
| IdentifySimpleCommandNames.SearchReaches | src/modes/posix/rules/identify-simplecommand-names.ts:32-50 | the search reaches every later token up to the first candidate, unless the command ends first |
| IdentifySimpleCommandNames.FirstCandidateNamed | src/modes/posix/rules/identify-simplecommand-names.ts:29-50 | the first later valid-name word not after an IO file operator is named the command name |
| AstBuilder.IndexOf | src/modes/posix/ast-builder.ts:7 | `indexOf`: -1 iff the character is absent, else its first position |
| AstBuilder.IsAsyncSeparator | src/modes/posix/ast-builder.ts:7 | a separator is async iff its text contains `&` |
| AstBuilder.SetLocStart | src/modes/posix/ast-builder.ts:305-310 | with a source only `start` changes, to the source's; without one nothing changes |
| AstBuilder.SetLocEnd | src/modes/posix/ast-builder.ts:312-317 | with a source only `end` changes, to the source's; without one nothing changes |
| AstBuilder.SetLocStartEndCommute | src/modes/posix/ast-builder.ts:305-317 | setting the start and setting the end do not interfere |
| AstBuilder.Between | src/modes/posix/ast-builder.ts:161 | `setLocEnd(setLocStart({}, a), b)` runs from `a`'s start to `b`'s end |
| AstBuilder.SpanAppend | src/modes/posix/ast-builder.ts:75-78 | appending a command moves a list's span end to that command's end, if it has a location |
| AstBuilder.SpanSingle | src/modes/posix/ast-builder.ts:50-62 | a one-command list spans that command |
| AstBuilder.MarkLastAsync | src/modes/posix/ast-builder.ts:64-69 | same length; only the last command can change, and only its `async`, set iff the separator contains `&` |
| AstBuilder.MarkKeepsSpan | src/modes/posix/ast-builder.ts:64-69 | async marking does not move the list's span |
| AstBuilder.ListNode.ToNode | src/modes/posix/ast-builder.ts:150 | the list as a tree node, with its commands, location and `bang` |
| AstBuilder.ListNode.List | src/modes/posix/ast-builder.ts:50-62 | a Script of one command, spanning that command when locations are on |
| AstBuilder.ListNode.Term | src/modes/posix/ast-builder.ts:91-103 | a CompoundList of one command, spanning that command when locations are on |
| AstBuilder.ListNode.PipeSequence | src/modes/posix/ast-builder.ts:122-128 | a Pipeline of one command, spanning that command when locations are on |
| AstBuilder.ListNode.CheckAsync | src/modes/posix/ast-builder.ts:64-69 | only the last command can become async; location and `bang` unchanged; the span invariant kept |
| AstBuilder.ListNode.ListAppend | src/modes/posix/ast-builder.ts:71-80 | the previous last command is marked async iff the separator contains `&`; the new command goes at the end; earlier commands unchanged; with locations the end moves to the new command's |
| AstBuilder.ListNode.TermAppend | src/modes/posix/ast-builder.ts:105-112 | as `listAppend`, but the end is written whether or not locations are on; it throws exactly when the list has no location and the command has one |
| AstBuilder.ListNode.PipeSequenceAppend | src/modes/posix/ast-builder.ts:130-136 | the command goes at the end; with locations the end moves to the command's |
| AstBuilder.ListNode.PipeLine | src/modes/posix/ast-builder.ts:146-151 | a one-command pipeline is that command itself; a longer one is the Pipeline node unchanged |
| AstBuilder.ListNode.BangPipeLine | src/modes/posix/ast-builder.ts:138-144 | the result is what `pipeLine` gives with `bang` set, written into the sole command or else the pipeline; nothing else changes |
| AstBuilder.AndAndOr | src/modes/posix/ast-builder.ts:153-164 | an `and` node of left and right in order; with locations from left's start to right's end |
| AstBuilder.OrAndOr | src/modes/posix/ast-builder.ts:166-177 | an `or` node of left and right in order; with locations from left's start to right's end |
| AstBuilder.AndOrChainSpan | src/modes/posix/ast-builder.ts:153-177 | `a && b \|\| c` nests to the left and spans from `a`'s start to `c`'s end |
| AstBuilder.Command | src/modes/posix/ast-builder.ts:257-279 | the name is set only when a word is given; with locations it spans from the first to the last of prefix, name and suffix in that order; it throws a `TypeError` exactly when locations are on and a part it reads is missing or has no location (an empty list, no prefix and no name, a part without `loc`) |
| AstBuilder.CommandAssignmentSpan | src/modes/posix/ast-builder.ts:253-255 | an assignment-only command has no name and spans its prefix |
| AstBuilder.IoRedirect | src/modes/posix/ast-builder.ts:281-287 | a Redirect of op and file, spanning from op's start to file's end |
| AstBuilder.NumberIoRedirect | src/modes/posix/ast-builder.ts:289-295 | the redirect with its descriptor attached; with locations it starts at the descriptor's start and keeps its end |
| AstBuilder.NumberedRedirectSpan | src/modes/posix/ast-builder.ts:281-295 | `2>err` spans from the descriptor to the file |
| AstBuilder.FunctionDefinitionAsWritten | src/modes/posix/ast-builder.ts:195-208 | a Function node; with redirections present its location has no end |
| AstBuilder.FunctionDefinitionLosesEnd | src/modes/posix/ast-builder.ts:202-205 | `f() { :; } >out`: the redirection ends somewhere, the function's location ends nowhere |
| AstBuilder.FunctionDefinition | src/modes/posix/ast-builder.ts:195-208 | a Function node with its body and redirections; a location iff locations are on |
| AstBuilder.FunctionDefinitionSpan | src/modes/posix/ast-builder.ts:82-89 | the function spans from its name to its last part: the last redirection, else the body |
| AstBuilder.ItemList.Singleton | src/modes/posix/ast-builder.ts:320-322 | a list of one item |
| AstBuilder.ItemList.Append | src/modes/posix/ast-builder.ts:323-326 | the item goes at the end; the earlier items are unchanged |

## Findings

| source | as written | input that shows it | evidently intended | confidence | as-written member | corrected member |
|---|---|---|---|---|---|---|
| src/modes/posix/ast-builder.ts:202-205 | the end of a function definition's location is read from `(body[1] \|\| body[0]).loc`; with redirections `body[1]` is the redirection list, which has no `loc`, so the end is never set | `f() { :; } >out` with location insertion on | the location ends where the last redirection ends, as `addRedirections` (lines 82-89) does for other compound commands | medium (the grammar rule that builds `body` is not part of this model); not executed | AstBuilder.FunctionDefinitionAsWritten, AstBuilder.FunctionDefinitionLosesEnd | AstBuilder.FunctionDefinition, AstBuilder.FunctionDefinitionSpan |

## Left out

- Laziness: phases are whole-sequence functions. Pull order, and the tokens a phase yields before it throws, are not modelled.
- Aliasing of JavaScript objects is not modelled. Tokens and nodes are values:
  - the in-place `loc.endLine++` in `separator.js`, and the shared `loc` object that `numberIoRedirect`'s spread copies, are not modelled as sharing;
  - a change to a node after it was placed in a list is not seen through the list.
- The operator table, `isValidName`, the scanner state methods, the `start` and `end` reducers and the driver loop that calls the reducers are parameters or not part of this model.
- `reducers.start(state, undefined)` at end of input is passed the empty input `[]`.
- The grammar driver and the generated parser that call the builder are not part of this model. So are the builder actions `caseItem`, `caseClause`, `doGroup`, `braceGroup`, `addRedirections`, `subshell`, `forClause`, `forClauseDefault`, `elseClause`, `ifClause`, `while`, `until` and `commandName`.
- Flags in the `_` bag are set or absent. Flag values other than `true` are not modelled.
- Kind-keyed token properties are strings. Non-string values are not modelled.
- A token's `type` and `value` are always strings. Only the `EMPTY` placeholder of `new-line-list.ts` lacks a value, and it is never read.
- The text of a `TypeError` depends on the JavaScript engine. The model fixes one message.
- Mode loading, the phase-list wiring, the traverser, the other phases (reserved words, expansions, field splitting, globbing, quote removal) and the other reducers are not part of this model.

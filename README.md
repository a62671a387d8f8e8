# Kwento-flow lexer and parser cursor, in Dafny

A verified model of the front end of the Kwento-flow story language: the character
cursor, the character classifiers and readers, the reserved-word tables (current and
older), the dispatch lexer with its scanners, the token-list post-processing, the
parser's token cursor with panic-mode recovery, and the diagnostic builders.

The model follows the source's own form:

- **`CharStreams.CharStream`** is a class whose `index`, `line` and `column` fields change
  in place. It is specified through a `Cursor` value:
  - `Move` consumes one character.
  - `MoveOver` consumes a string.
  - `TakeWhile` is the maximal run of characters that satisfy a test.
- **`StreamReaders`** holds the reading loops of `utils/helpers.ts`, as methods over that
  class. `CharClass` holds the classifiers, as predicates.
- **`LexSpec`** is the reference definition of the lexer: one pure `Step` per scanner (how
  many characters it consumes and which token it emits), `NextStep` for the dispatch, and
  `Run`/`Tokenize` for the whole loop.
- **`KfLexer.Lexer`** is the class of `kf_lexer.ts`. Every scanner method is proved to take
  exactly its `LexSpec` step (`Took`), and `Tokenize` is proved to append exactly
  `LexSpec.Run` of the unread input.
- **`TokenUtils`**, **`Tokens`**, **`LegacyTokens`** and **`SyntaxErrors`** are pure, as
  in the source.
- **`ParserUtils.Parser`** is a class with a `current` index and an append-only `errors`
  list. `Synchronize` is proved equal to the pure `SyncTarget`.
- **`LegacyHelpers`** holds what the older `helpers.ts` does differently.

Token kinds are datatypes. The source's field `type` is called `kind`. Strings are
`seq<char>`, one element per Unicode code point (see "## Left out" for UTF-16). The input-end sentinel `"\0"` is the character `'\0'`.

Where the source throws, the model returns a `Result`:
- `readString` on an unterminated literal.
- `consume` on a mismatch.

Where the source reads an array out of range, the model returns an `Option`:
- `previous()` when the cursor is at 0.

## Model

| member | source | states |
|---|---|---|
| CharClass.DispatchClassesDisjoint | backend/src/lexer/kf_lexer.ts:28-61 | no character passes two of the dispatch tests (whitespace, letter, digit, `"`, `~`, operator, delimiter), so the order of the tests does not matter |
| CharClass.SentinelIsUnclassified | backend/src/utils/helpers.ts:7-23 | the sentinel `"\0"` is not a letter, digit, word character, whitespace, operator or delimiter |
| CharClass.IsLetter | backend/src/utils/helpers.ts:7-9 | exactly one ASCII letter `A`-`Z` or `a`-`z` |
| CharClass.IsDigit | backend/src/utils/helpers.ts:11-13 | exactly one ASCII digit `0`-`9` |
| CharClass.IsAlphaNumeric | backend/src/utils/helpers.ts:15-17 | a letter, a digit or `_` |
| CharClass.IsWhitespace | backend/src/utils/helpers.ts:19-23 | false on the empty string; otherwise the first character is space (32) or one of 9..13 |
| CharClass.IsOperatorChar | backend/src/lexer/kf_lexer.ts:194-287 | exactly one of the characters `scanOperator` switches on: `=`, `!`, `<`, `>`, `&`, the vertical bar, `+`, `-`, `*`, `/`, `%` and `^` |
| CharClass.IsDelimiterChar | backend/src/lexer/kf_lexer.ts:289-334 | exactly one of the characters `scanDelimiter` switches on: `(){}[]:;,.` |
| CharStreams.Move | backend/src/utils/charStream.ts:18-27 | one `advance`: the index grows by one; the line grows by one exactly on a newline and is unchanged otherwise; the column restarts at 1 or moves one right |
| CharStreams.MoveOver | backend/src/utils/charStream.ts:18-27 | consuming `s` moves the index by exactly `|s|`, never lowers the line, and keeps the column at least 1 |
| CharStreams.MoveOverLine | backend/src/utils/charStream.ts:20-22 | after consuming `s`, the line has grown by exactly the number of newlines in `s` |
| CharStreams.MoveOverColumnNoNewline | backend/src/utils/charStream.ts:23-25 | consuming a newline-free `s` moves the column by `|s|` |
| CharStreams.MoveOverColumnAfterNewline | backend/src/utils/charStream.ts:20-25 | after a newline, the column is one more than the number of characters consumed since that newline |
| CharStreams.TakeWhile | backend/src/utils/helpers.ts:25-31 | the result is a prefix of the input whose characters all pass the test, and the next character (if any) fails it |
| CharStreams.TakeWhileUnique | backend/src/utils/helpers.ts:25-31 | any prefix that passes the test and cannot be extended is the one `TakeWhile` returns |
| CharStreams.CharStream.constructor | backend/src/utils/charStream.ts:3-8 | a new stream over `src` is at index 0, line 1, column 1 |
| CharStreams.CharStream.Peek | backend/src/utils/charStream.ts:10-12 | the character at the index, or the sentinel past the end; a function, so no state changes |
| CharStreams.CharStream.PeekNext | backend/src/utils/charStream.ts:14-16 | the character after the index, or the sentinel past the end; no state changes |
| CharStreams.CharStream.IsEOF | backend/src/utils/charStream.ts:37-39 | true iff `index >= |src|`; when false, `Peek()` is the character at the index |
| CharStreams.CharStream.GetLine | backend/src/utils/charStream.ts:47 | returns the line, which is at least 1 |
| CharStreams.CharStream.GetColumn | backend/src/utils/charStream.ts:48 | returns the column, which is at least 1 |
| CharStreams.CharStream.Advance | backend/src/utils/charStream.ts:18-27 | returns the character at the old index (the sentinel past the end), always moves the index by exactly 1, and moves line/column as `Move` says: a newline bumps the line and resets the column to 1, anything else bumps the column |
| CharStreams.CharStream.Match | backend/src/utils/charStream.ts:29-35 | returns true iff the old `peek()` equals `expected`; then the stream has consumed that character, otherwise nothing changed |
| CharStreams.CharStream.SkipWhitespace | backend/src/utils/charStream.ts:41-45 | consumes exactly the maximal whitespace run at the index, after which EOF holds or `peek()` is not whitespace |
| StreamReaders.ReadWhile | backend/src/utils/helpers.ts:25-31 | returns exactly the characters consumed, which are the maximal run passing `condition`; afterwards EOF holds or `condition(peek())` fails |
| StreamReaders.ReadIdentifier | backend/src/utils/helpers.ts:33-35 | returns and consumes the maximal run of letters, digits and `_` |
| StreamReaders.ReadNumber | backend/src/utils/helpers.ts:37-39 | returns and consumes the maximal digit run; every character of the result is `0`..`9` |
| StreamReaders.ReadString | backend/src/utils/helpers.ts:41-51 | succeeds iff a `"` remains; on success returns the raw text before the first `"` (no `"` in it, escapes untranslated) and consumes the closing quote too; on failure reports "Unterminated string literal" after consuming the whole rest |
| Tokens.KeywordsRoundTrip | backend/src/types/Tokens.ts:93-119 | `Spelling` inverts the table: every key is spelled by its kind, and every spelled kind is in the table under its spelling |
| Tokens.KeywordEntry | backend/src/types/Tokens.ts:93-119 | each key is the spelling of the kind it maps to |
| Tokens.KindEntry | backend/src/types/Tokens.ts:93-119 | each spelled kind is in the table under its spelling |
| Tokens.KeywordsInjective | backend/src/types/Tokens.ts:93-119 | no two reserved words share a kind |
| Tokens.KeywordCount | backend/src/types/Tokens.ts:93-119 | the table has 25 keys |
| Tokens.KeywordImage | backend/src/types/Tokens.ts:93-119 | the kinds in the table are exactly the 25 spelled kinds |
| Tokens.KeywordKinds | backend/src/types/Tokens.ts:93-119 | every value is a K_*, R_* or N_* kind; none is Identifier, a literal, N_Noiseword, a comment, layout, EOF or Error |
| Tokens.SpelledKindClass | backend/src/types/Tokens.ts:17-47 | a kind with a spelling is a keyword, reserved-type or noise-word kind |
| Tokens.ReservedAndNoiseEntries | backend/src/types/Tokens.ts:113-118 | `text`/`boolean`/`number` map to R_Text/R_Boolean/R_Number and `to`/`is`/`then` to N_To/N_Is/N_Then |
| Tokens.BooleanWordsNotKeywords | backend/src/types/Tokens.ts:93-119 | `true` and `false` are not keys |
| Tokens.KeywordSpellings | backend/src/types/Tokens.ts:93-119 | every key is a non-empty run of lowercase ASCII letters, so the word scanner reads it as one word |
| Tokens.KeywordKeys | backend/src/types/Tokens.ts:93-119 | the key set is exactly the 25 listed words |
| Tokens.SpellingLowerCase | backend/src/types/Tokens.ts:93-119 | every spelling is a lowercase word |
| LegacyTokens.KeywordKeys | backend/src/Tokens.ts:72-105 | the older key set is exactly its 23 listed words |
| LegacyTokens.KeywordEntry | backend/src/Tokens.ts:72-105 | each older key is the spelling of its kind |
| LegacyTokens.KeywordsDistinct | backend/src/Tokens.ts:72-105 | no two older keys share a kind |
| LegacyTokens.KeywordKinds | backend/src/Tokens.ts:72-105 | no older key maps to Identifier, a literal kind or EOF |
| LegacyTokens.ReservedAndNoiseEntries | backend/src/Tokens.ts:98-104 | `text`/`boolean`/`number` map to Text/Boolean/Number and `to`/`is`/`then` to To/Is/Then |
| LegacyTokens.NoDatabaseWords | backend/src/Tokens.ts:72-105 | `db` and `where` are keys of the current table but not of the older one |
| TokenUtils.MakeToken | backend/src/utils/utils.ts:6-13 | the token's four fields are the four arguments |
| TokenUtils.KeywordOrIdentifier | backend/src/utils/utils.ts:22-27 | the table's entry for a key, Identifier for anything else |
| TokenUtils.KeywordOrIdentifierClassifies | backend/src/utils/utils.ts:22-27 | with the reserved-word table, a word is classified Identifier iff it is not a key; a key gets a keyword, reserved or noise kind |
| TokenUtils.BooleanWordsAreIdentifiers | backend/src/utils/utils.ts:22-27 | `true` and `false` are classified Identifier, not BooleanLiteral |
| TokenUtils.KeywordOrIdentifierAsWritten | backend/src/utils/utils.ts:22-27 | the lookup as written: own entries as in the table; off the table, an inherited member exactly for the `Object.prototype` names; any kind it gives agrees with `KeywordOrIdentifier` |
| TokenUtils.InheritedMemberIsNotAKind | backend/src/utils/utils.ts:22-27 | `toString` is not a key, yet the lookup as written answers an inherited member where the corrected one answers Identifier |
| TokenUtils.AsWrittenAgreesOffPrototype | backend/src/utils/utils.ts:22-27 | off the inherited `Object.prototype` names (or on a key), the lookup as written and the corrected one give the same kind |
| TokenUtils.RemoveComments | backend/src/utils/utils.ts:33-39 | no token of the result is a comment |
| TokenUtils.RemoveCommentsKeepsTheRest | backend/src/utils/utils.ts:33-39 | every non-comment token is kept as often as it occurs, comments are dropped, and the result is an order-preserving subsequence |
| TokenUtils.RemoveCommentsIdempotent | backend/src/utils/utils.ts:33-39 | removing comments twice is removing them once |
| TokenUtils.RemoveWhitespace | backend/src/utils/utils.ts:41-43 | no token of the result is Whitespace |
| TokenUtils.RemoveWhitespaceKeepsTheRest | backend/src/utils/utils.ts:41-43 | exactly the Whitespace tokens are dropped, everything else kept in order |
| TokenUtils.RemoveNoiseWords | backend/src/utils/utils.ts:45-47 | no token of the result is N_Noiseword |
| TokenUtils.RemoveNoiseWordsKeepsTheRest | backend/src/utils/utils.ts:45-47 | exactly the N_Noiseword tokens are dropped, everything else kept in order |
| TokenUtils.RemoversCommute | backend/src/utils/utils.ts:33-47 | removing comments commutes with removing whitespace and with removing noise words |
| TokenUtils.GetTokensByType | backend/src/utils/utils.ts:49-51 | every returned token has the requested kind |
| TokenUtils.GetTokensByTypeKeepsAll | backend/src/utils/utils.ts:49-51 | every token of the requested kind is returned, as often as it occurs, in input order |
| TokenUtils.HasErrors | backend/src/utils/utils.ts:57-59 | true iff some token is an Error |
| TokenUtils.GetErrors | backend/src/utils/utils.ts:61-63 | every returned token is an Error |
| TokenUtils.HasErrorsIffGetErrors | backend/src/utils/utils.ts:57-63 | `hasErrors` holds iff `getErrors` is non-empty, and `getErrors` returns every Error token |
| LexSpec.WordStep | backend/src/lexer/kf_lexer.ts:73-86 | from a letter, the maximal run of letters, digits and `_` (so `x_1` is one token), classified by the own-key lookup of the reserved-word table (the corrected lookup of "## Findings") |
| LexSpec.WordStepAsWritten | backend/src/lexer/kf_lexer.ts:73-86 | the kind `WordStep` emits equals what the lookup as written in utils.ts answers exactly when the word is reserved or not one of the `Object.prototype` names; the word starts with a letter, so the five names starting with `_` never arise |
| LexSpec.WordStepOnInheritedName | backend/src/utils/utils.ts:22-27 | on `toString x` the model's first token is the Identifier `toString`, where the lookup as written answers an inherited function |
| LexSpec.NumberStep | backend/src/lexer/kf_lexer.ts:88-101 | from a digit, a NumberLiteral whose lexeme is exactly the consumed prefix |
| LexSpec.NumberStepReadsNumeral | backend/src/lexer/kf_lexer.ts:88-101 | the lexeme is a digit run, optionally followed by `.` and a second digit run; no digit follows what was read; and a lexeme without `.` is never followed by `.` and a digit |
| LexSpec.StringStep | backend/src/lexer/kf_lexer.ts:125-141 | from `"`, a TextLiteral, or the Error token "Unterminated string literal" |
| LexSpec.StringStepReadsLiteral | backend/src/lexer/kf_lexer.ts:125-141 | a TextLiteral iff a closing `"` exists; then the lexeme is the raw text between the quotes and holds no `"`; otherwise the Error consumes the rest of the input |
| LexSpec.FirstTildePair | backend/src/lexer/kf_lexer.ts:159-190 | the first index from `from` that starts `~~`, or none |
| LexSpec.CommentStep | backend/src/lexer/kf_lexer.ts:143-192 | from `~`, a SingleLineComment, a MultiLineComment or an Error, consuming at least one character |
| LexSpec.SingleLineCommentReadsLine | backend/src/lexer/kf_lexer.ts:149-158 | a `~~` comment's lexeme is the consumed text, starts with `~~`, holds no newline, and stops at the newline without consuming it |
| LexSpec.MultiLineCommentClosesAtFirstPair | backend/src/lexer/kf_lexer.ts:159-190 | a `~` comment is a MultiLineComment iff a `~~` follows; then it ends at the first such pair; otherwise one Error "Unterminated multi line comment" consumes the rest |
| LexSpec.CommentDepthStep | backend/src/lexer/kf_lexer.ts:163-187 | how the source's depth counter evolves before the first `~~`: it only takes the values 1 and 2 and reaches 0 only at the second tilde of a pair |
| LexSpec.LoneTildeDoesNotClose | backend/src/lexer/kf_lexer.ts:159-190 | `~ a ~` is an unterminated comment and `~ a ~~ b` closes after `~~` |
| LexSpec.OperatorStep | backend/src/lexer/kf_lexer.ts:194-287 | consumes one or two characters and emits a kind the scanner can produce |
| LexSpec.OperatorStepMaximalMunch | backend/src/lexer/kf_lexer.ts:203-258 | two characters are consumed iff they form `==`, `!=`, `<=`, `>=`, `&&` or `||`; the lexeme is exactly what was consumed |
| LexSpec.OperatorStepErrors | backend/src/lexer/kf_lexer.ts:240-258 | an operator character gives an Error exactly for a lone `&` or `|` |
| LexSpec.DelimiterStep | backend/src/lexer/kf_lexer.ts:289-334 | consumes exactly one character, which is the lexeme |
| LexSpec.DelimiterStepKinds | backend/src/lexer/kf_lexer.ts:296-330 | the kind is Error iff the character is not one of `(){}[]:;,.` |
| LexSpec.NextStep | backend/src/lexer/kf_lexer.ts:25-67 | every turn of the loop consumes at least one and at most all remaining characters, and never emits EOF, Whitespace, NewLine, N_Noiseword or D_DoubleQuote |
| LexSpec.NextStepCases | backend/src/lexer/kf_lexer.ts:25-67 | the dispatch: whitespace is skipped without a token, each class goes to its scanner, and any other character becomes one Error token with that character as lexeme |
| LexSpec.NextStepWellBehaved | backend/src/lexer/kf_lexer.ts:25-67 | the dispatch is one the loop can run to completion (always consumes, never emits EOF) |
| LexSpec.Run | backend/src/lexer/kf_lexer.ts:23-71 | the loop always yields at least one token |
| LexSpec.RunStep | backend/src/lexer/kf_lexer.ts:25-67 | one turn of the loop: the tokens it emits, followed by the run from the cursor after its consumed text |
| LexSpec.RunLast | backend/src/lexer/kf_lexer.ts:69-71 | the last token is EOF with an empty lexeme, at the line and column reached after consuming the whole input |
| LexSpec.RunKinds | backend/src/lexer/kf_lexer.ts:23-71 | no token before the last is EOF, Whitespace, NewLine, N_Noiseword or D_DoubleQuote |
| LexSpec.LexShape | backend/src/lexer/kf_lexer.ts:23-71 | for the lexer's own dispatch: exactly one EOF, at the end, at the final cursor position |
| LexSpec.TokenizeShape | backend/src/lexer/kf_lexer.ts:23-71 | the token list from a fresh stream ends with EOF and nothing before it is a kind the scanners never emit |
| LexSpec.LayoutFiltersAreNoOps | backend/src/utils/utils.ts:41-47 | the lexer never emits Whitespace or N_Noiseword tokens, so `removeWhitespace` and `removeNoiseWords` leave its output unchanged |
| LexSpec.LayoutFree | backend/src/utils/utils.ts:41-47 | the same for any list shaped like the lexer's output |
| LexSpec.RemoveCommentsKeepsEOF | backend/src/utils/utils.ts:33-39 | removing comments from the lexer's output keeps its final EOF token last |
| LexSpec.ShapedKeepsEOF | backend/src/utils/utils.ts:33-39 | removing comments from any list ending in EOF keeps that token last |
| KfLexer.Lexer.constructor | backend/src/lexer/kf_lexer.ts:19-21 | a new lexer owns the stream and has no tokens |
| KfLexer.Lexer.Tokenize | backend/src/lexer/kf_lexer.ts:23-71 | ends at EOF, and the returned list is the old tokens followed by exactly `LexSpec.Run` of the unread input |
| KfLexer.Lexer.ScanToken | backend/src/lexer/kf_lexer.ts:26-66 | one loop turn takes exactly the step `NextStep` prescribes |
| KfLexer.Lexer.ReadWord | backend/src/lexer/kf_lexer.ts:73-86 | takes exactly `WordStep` |
| KfLexer.Lexer.ScanNumber | backend/src/lexer/kf_lexer.ts:88-101 | takes exactly `NumberStep` |
| KfLexer.Lexer.AddEOFToken | backend/src/lexer/kf_lexer.ts:103-112 | appends one EOF token with an empty lexeme at the current line and column |
| KfLexer.Lexer.AddErrorToken | backend/src/lexer/kf_lexer.ts:114-123 | appends one Error token with the given lexeme at the current line and column |
| KfLexer.Lexer.ScanString | backend/src/lexer/kf_lexer.ts:125-141 | takes exactly `StringStep`, the token at the opening quote's position |
| KfLexer.Lexer.ScanComment | backend/src/lexer/kf_lexer.ts:143-192 | takes exactly `CommentStep`, the token at the opener's position |
| KfLexer.Lexer.ScanBlockComment | backend/src/lexer/kf_lexer.ts:159-190 | the depth loop takes exactly the multi-line case of `CommentStep` |
| KfLexer.Lexer.ScanOperator | backend/src/lexer/kf_lexer.ts:194-287 | takes exactly `OperatorStep` |
| KfLexer.Lexer.ScanDelimiter | backend/src/lexer/kf_lexer.ts:289-334 | takes exactly `DelimiterStep` |
| ParserUtils.FirstEof | backend/src/utils/parserUtils.ts:22-24 | the index of the first EOF token: every earlier token is not EOF |
| ParserUtils.StopMask | backend/src/utils/parserUtils.ts:69-78 | marks exactly the positions where the recovery loop stops: EOF, just after `;`, or before `scene`/`character`/`when`/`rem` |
| ParserUtils.FirstMarkedSpec | backend/src/utils/parserUtils.ts:69-81 | the loop's search stops at a marked position no later than EOF and passes only unmarked ones |
| ParserUtils.SyncTargetSpec | backend/src/utils/parserUtils.ts:66-82 | `synchronize` moves strictly forward unless at EOF, never passes EOF, stops at EOF, after a `;` or before a statement keyword, and passes no such point |
| ParserUtils.SyncFromSpec | backend/src/utils/parserUtils.ts:69-81 | the same for the loop alone, read token by token |
| ParserUtils.PassedTokens | backend/src/utils/parserUtils.ts:69-81 | every token the loop passes is neither EOF nor a statement keyword, and none before the stop is `;` |
| ParserUtils.SyncSkipsClosingBrace | backend/src/utils/parserUtils.ts:66-82 | recovery does not stop at `}`: in `x } y ; z` it stops after the `;` |
| ParserUtils.LexerOutputIsCursorReady | backend/src/utils/parserUtils.ts:10-12 | the lexer's output, with or without comments, holds an EOF token and its only EOF is its last token |
| ParserUtils.ShapedIsCursorReady | backend/src/utils/parserUtils.ts:22-24 | in a list shaped like the lexer's output, with or without comments, the first EOF is the last token, so `isAtEnd` is reached exactly at the end |
| ParserUtils.Parser.constructor | backend/src/utils/parserUtils.ts:10-12 | the cursor starts at 0 with no errors |
| ParserUtils.Parser.Peek | backend/src/utils/parserUtils.ts:14-16 | the token at `current`, which is always in range |
| ParserUtils.Parser.Previous | backend/src/utils/parserUtils.ts:18-20 | the token before `current`, and nothing exactly when `current` is 0 |
| ParserUtils.Parser.IsAtEnd | backend/src/utils/parserUtils.ts:22-24 | true iff the current token is EOF, which is iff the cursor is on the first EOF |
| ParserUtils.Parser.Check | backend/src/utils/parserUtils.ts:33-36 | true iff not at EOF and the current kind is `kind`; never true for EOF |
| ParserUtils.Parser.Advance | backend/src/utils/parserUtils.ts:26-31 | moves one token unless at EOF, never past the first EOF, and returns the token before the new position (the old current token when it moved) |
| ParserUtils.Parser.Match | backend/src/utils/parserUtils.ts:38-46 | consumes exactly one token iff not at EOF and the current kind is listed; otherwise nothing changes |
| ParserUtils.Parser.Error | backend/src/utils/parserUtils.ts:57-64 | appends exactly one record with the token's line, column and lexeme and no kind or suggestion |
| ParserUtils.Parser.Consume | backend/src/utils/parserUtils.ts:48-55 | on a match returns the current token and moves one; otherwise leaves the cursor, appends exactly one error built from `peek()`, and fails with the message |
| ParserUtils.Parser.Synchronize | backend/src/utils/parserUtils.ts:66-82 | leaves the cursor exactly at `SyncTarget` of where it was |
| SyntaxErrors.UnexpectedToken | backend/src/parser/syntaxErr.ts:21-30 | copies position, token and suggestion; kind UNEXPECTED_TOKEN, which the message announces; the message is `Unexpected token '`, the token, then `'` |
| SyntaxErrors.ExpectedToken | backend/src/parser/syntaxErr.ts:32-41 | copies position, sets the token to `found`, kind MISSING_TOKEN as the message announces, suggestion `Insert '<expected>'`; the message is `Expected '`, `expected`, then `' but found '`, `found` and `'` |
| SyntaxErrors.MissingClosingBrace | backend/src/parser/syntaxErr.ts:43-52 | copies position, token `}`, message `Missing closing brace "}"`, kind MISSING_TOKEN as the message announces, suggestion `Insert "}"` |
| SyntaxErrors.MissingSemicolon | backend/src/parser/syntaxErr.ts:54-63 | copies position and token, message `Expected ";" after statement`, kind MISSING_TOKEN as the message announces, suggestion `Insert ';'` |
| SyntaxErrors.InvalidStatement | backend/src/parser/syntaxErr.ts:65-78 | copies position, token and suggestion; kind INVALID_STATEMENT; when the suggestion is a non-empty string the message is `Unknown statement '`, the token, then `'. Did you mean '`, the suggestion and `'?`; otherwise it is `Invalid statement starting with '`, the token, then `'` |
| SyntaxErrors.InvalidExpression | backend/src/parser/syntaxErr.ts:80-88 | copies position and token, kind INVALID_EXPRESSION as the message announces, no suggestion; the message is `Invalid expression at '`, the token, then `'` |
| LegacyHelpers.MakeToken | backend/src/helpers.ts:28-35 | the older token's four fields are the four arguments |
| LegacyHelpers.RemoveComments | backend/src/helpers.ts:40-45 | no token of the result is a comment |
| LegacyHelpers.RemoveCommentsKeepsTheRest | backend/src/helpers.ts:40-45 | exactly the comments are dropped, the rest kept in order, and removing twice is removing once |
| LegacyHelpers.WhitespaceIsInside | backend/src/helpers.ts:107-111 | when `peek()` is whitespace the index is inside the input, because the sentinel is not whitespace |
| LegacyHelpers.SkipWhitespaceUnguarded | backend/src/helpers.ts:107-111 | without an EOF guard the loop still stops, consumes exactly the maximal whitespace run, and leaves a non-whitespace `peek()` |

## Left out

- The recursive-descent parser is not part of this model. backend/src/parser/parser.ts only declares fields, and no grammar, identifier validation, suggestion search or backtracking exists in the code, so only the cursor and recovery layer is modelled.
- The AST type declarations are not part of this model: they have no behaviour.
- The PDF report and the demo script are not part of this model. They use a PDF library, floating-point layout and console output.
- The HTTP server and the whole frontend are not part of this model: they are I/O and user interface.
- `prettyPrintTokens` is left out. It only formats numeric enum values for debugging.
- `parserUtils.getErrors` is left out because it only returns the `errors` field, which the model exposes directly.
- The older `helpers.ts` classifiers and `CharStream` methods other than `skipWhitespace` have no separate model. They are the same expressions as the current ones; the older `isWhitespace` tests `c.length === 0` where the newer tests `!c`, which agree on every string. They are modelled once, in `CharClass` and `CharStreams`.
- StreamReaders.ReadWhile: the test is a total function of a string; a JavaScript callback with side effects is not modelled.
- Numbers are unbounded integers. The source's line and column counters are JavaScript numbers that cannot overflow at realistic input sizes.
- ParserUtils.Parser.constructor: requires a token list holding an EOF token. The source does not check this, and without one its `peek()` reads past the array and `isAtEnd()` throws. `ParserUtils.LexerOutputIsCursorReady` proves that the lexer's output always meets this requirement.
- Multi-line comments follow the scanner, which closes a block only at the first pair of consecutive tildes after the opener (`LexSpec.LoneTildeDoesNotClose`). The enum comment `~ comment block ~` at backend/src/types/Tokens.ts:82 and the highlighter pattern `~[^~]*~` at frontend/src/utils/syntaxHighlighter.tsx:20 suggest a single closing `~` was meant, so `~ a ~` was likely meant as a comment. The scanner reports it as unterminated, and so does the model.
- `readString` keeps a backslash and the character after it verbatim in the lexeme; no escape sequence is translated, and the model does the same.
- LexSpec.WordStep / KfLexer.Lexer.ReadWord: the lexer model classifies words with the own-key lookup `TokenUtils.KeywordOrIdentifier`, the corrected behaviour of "## Findings". `TokenUtils.ObjectPrototypeMembers` lists twelve inherited names, none of them reserved. Five of them (`__proto__` and the four `__define...`/`__lookup...` accessors) start with `_`, and a word only starts at a letter, so the scanner can reach just seven: `constructor`, `hasOwnProperty`, `isPrototypeOf`, `propertyIsEnumerable`, `toLocaleString`, `toString` and `valueOf`. On those seven the source's token type is the inherited `Object.prototype` member, not Identifier. `LexSpec.WordStepAsWritten` states exactly where the two lookups agree and that every scanned word starts with a letter.
- Source text is modelled as a sequence of Unicode code points, not of UTF-16 code units. The source's `peek`, `advance` and `isEOF` index the JavaScript string by code unit, so a character outside the Basic Multilingual Plane (an emoji such as U+1F600) is two units there: the source emits two Error tokens for it, one per surrogate half, and moves the index and the column by 2, where the model emits one Error token and moves them by 1. Every later column on that line is then one less in the model. Inputs made only of Basic Multilingual Plane characters behave identically.
- `SyntaxErrors`: the optional fields `type` and `suggestion` are `Option`s. An absent field and one explicitly `undefined` are both `None`.

## Findings

| source | as written | input that shows it | evidently intended | confidence | as-written member | corrected member |
|---|---|---|---|---|---|---|
| backend/src/utils/utils.ts:22-27 | `keywords[lexeme] ?? TokenType.Identifier` on a plain object literal also finds members inherited from `Object.prototype`, which are neither `null` nor `undefined` | the identifier `toString` (or `constructor`, `valueOf`, ...) in source text: the lookup returns a function instead of a token kind | a word that is not a reserved word is an Identifier (own-property lookup) | high; not executed | TokenUtils.InheritedMemberIsNotAKind | TokenUtils.KeywordOrIdentifierClassifies |

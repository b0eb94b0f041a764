# qlex scanner, modelled in Dafny

This project models the scanner of qlex (`LexerImpl` in `libs/lexer/src/lexer.cpp`,
with its data model in `libs/lexer/include/lexer.hpp`) as pure functions over an
immutable state record, and proves what it does. The model follows the code as
written, quirks included:

- `peek` and `advance` return NUL at the end of the input, and `advance` does not move there.
- `skipWhitespace` reads the same position twice for `/`, so every `/` discards the rest of its line.
  The `/`, blank and newline cases of the main switch are therefore dead. So are
  `skipComment` and `skipMultilineComment`, and `SLASH` is never emitted.
- `addToken` with the default empty lexeme records the character under the cursor.
  For a punctuation or operator token that is the character after the one consumed, or NUL at the end.
- `!`, `=`, `<` and `>` pick the two-character kind exactly when the next character is `=`, but do not consume that `=`.
- Number, identifier and string lexemes drop their first character. An empty run falls back to the character under the cursor.
- An empty string literal makes the unsigned length `current_position - start - 2` wrap.
  `substr` then returns everything after the closing quote.
- There is no keyword lookup and no end-of-file token.
- When the skipper reaches the end of the input, the NUL from `advance` falls into the default case.
  A source that ends in a blank or a comment outside a string literal therefore fails with "Unexpected character".
- `error` prints and exits. It is modelled as an `Err(LexError(kind, line))` result.
  `Tokenize` reports it as `Exited(error)` and the partial token list is dropped.

Layout:

- `results.dfy` (`Results`): `Option` and `Result`.
- `tokens.dfy` (`Tokens`): the 39 token kinds and their ordinals, `Token`, `LexingStatus` and `LexError`.
- `scanner.dfy` (`Scanner`): the state (`Lexer`), its line invariant, `IsAtEnd`, `Peek` and `Advance`.
  Also the skipper, `AddToken`, the literal scanners, the main switch, one loop iteration, the loop and `Tokenize`.
- `properties.dfy` (`ScannerProperties`): what the skipper discards, and the result of one iteration for each case of the switch.
- `worked.dfy` (`WorkedInputs`): complete runs of `tokenize` on small inputs.

The code's own declarations promise more than its logic delivers, and the model follows the logic:

- The keyword kinds and `END_OF_FILE` are declared (libs/lexer/include/lexer.hpp:27-33) but never produced.
- The switch has a `SLASH` case with comment handling (libs/lexer/src/lexer.cpp:67-75), but the skipper always reaches a `/` first, so the case is dead.

Every member is a deterministic function of its arguments. Scanning the same source twice therefore gives the same result, and `src` is never changed (`Step` keeps it).

## Model

| member | source | states |
|---|---|---|
| Tokens.Ordinal | libs/lexer/include/lexer.hpp:10-34 | every kind's underlying value is below 39, and `KindOfOrdinal` maps it back to the kind |
| Tokens.KindOfOrdinal | libs/lexer/include/lexer.hpp:10-34 | a value names a kind exactly when it is below 39 |
| Tokens.OrdinalInjective | libs/lexer/include/lexer.hpp:10-34 | two kinds with the same underlying value are the same kind |
| Tokens.OrdinalSurjective | libs/lexer/include/lexer.hpp:10-34 | every value below 39 is the ordinal of exactly the kind it names |
| Scanner.Init | libs/lexer/src/lexer.cpp:14-15 | the constructor's state (cursor 0, line 1, no tokens) satisfies the line invariant |
| Scanner.IsAtEnd | libs/lexer/src/lexer.cpp:171-173 | in a state that keeps the line invariant, the scanner is at the end exactly when the cursor equals the source length |
| Scanner.Peek | libs/lexer/src/lexer.cpp:103-108 | the character under the cursor before the end, and NUL at the end |
| Scanner.Advance | libs/lexer/src/lexer.cpp:110-115 | `advance` moves the cursor by one, except at the end where it stays; nothing else changes |
| Scanner.LineBounds | libs/lexer/src/lexer.cpp:126-128 | a line counter that satisfies the invariant lies between 1 and one plus the newlines of the whole source |
| Scanner.SkipLine | libs/lexer/src/lexer.cpp:151-155 | the cursor moves forward over no newline and stops on a newline or at the end; the line is unchanged |
| Scanner.SkipWhitespace | libs/lexer/src/lexer.cpp:117-143 | the skipper only moves forward, keeps the line invariant, and stops at the end or on a character it does not discard |
| Scanner.AddToken | libs/lexer/src/lexer.cpp:175-178 | exactly one token is appended, with the given kind and the current line; an empty lexeme is replaced by the character under the cursor (NUL at the end) |
| Scanner.AdvanceWhile | libs/lexer/src/lexer.cpp:208-210 | the loop consumes exactly the maximal run of accepted characters from the cursor |
| Scanner.ScanRun | libs/lexer/src/lexer.cpp:205-223 | `scanNumber`/`scanIdentifier` return the maximal run after the already consumed first character, which never ends on a blank or `/` |
| Scanner.SkipStringBody | libs/lexer/src/lexer.cpp:189-194 | the string loop passes no quote, stops on a quote or at the end, and counts the newlines it passes |
| Scanner.Substr | libs/lexer/src/lexer.cpp:202 | `substr(p, count)` is the slice from `p` of length `count`, cut short only by the end of the string |
| Scanner.ScanString | libs/lexer/src/lexer.cpp:186-203 | the scan fails exactly when no quote follows, with "Unterminated string" on the last line; otherwise it ends just after the first closing quote |
| Scanner.ScanStringLexeme | libs/lexer/src/lexer.cpp:202 | the lexeme is the content minus its first character, or everything after the closing quote for an empty literal |
| Scanner.PunctuationKind | libs/lexer/src/lexer.cpp:24-53 | the ten punctuation cases emit emittable kinds and are neither blanks, `/` nor operator characters |
| Scanner.OperatorKind | libs/lexer/src/lexer.cpp:54-66 | the operator cases emit only emittable kinds |
| Scanner.ScanToken | libs/lexer/src/lexer.cpp:22-95 | one pass through the switch consumes at least one character and keeps the invariant; its errors carry a line between the current one and the last |
| Scanner.ScanTokenEmittable | libs/lexer/src/lexer.cpp:23-95 | the switch never yields a keyword, `SLASH` or `END_OF_FILE` |
| Scanner.ScanTokenEndsOnToken | libs/lexer/src/lexer.cpp:22-95 | the last character a token consumes is never a blank or `/` |
| Scanner.Emit | libs/lexer/src/lexer.cpp:22-95 | from a state the skipper stopped in, the switch appends exactly one emittable token with a non-empty lexeme on the final line counter, or fails on a line not before the current one |
| Scanner.Step | libs/lexer/src/lexer.cpp:20-96 | one loop iteration advances the cursor, never lowers the line, appends exactly one emittable token carrying the new line counter, and keeps the source |
| Scanner.StepKeepsWellFormed | libs/lexer/src/lexer.cpp:20-96 | an iteration keeps the token list well formed: emittable kinds, non-empty lexemes, lines in emission order bounded by the counter |
| Scanner.Run | libs/lexer/src/lexer.cpp:20-96 | the loop only appends to the token list, emits at most one token per source character, and its error lines are in range |
| Scanner.RunEndsOnToken | libs/lexer/src/lexer.cpp:20-22 | a successful loop over a non-empty remainder emits a token, and the source does not end in a blank or `/` |
| Scanner.RunWellFormed | libs/lexer/src/lexer.cpp:17-101 | a successful loop leaves a well-formed token list bounded by the last line |
| Scanner.FreshRun | libs/lexer/src/lexer.cpp:14-101 | the loop from the constructor state yields no tokens on an empty source; on success it ends on a token character with a well-formed list no longer than the source, and a failure names a line of the source |
| Scanner.Tokenize | libs/lexer/src/lexer.cpp:14-101 | a fresh scanner over the source (`Init`) runs the loop; empty source gives `SUCCESS` with no tokens, the status is only ever `SUCCESS`, the tokens are well formed, and a non-empty source that scans ends on a token character |
| ScannerProperties.PunctuationKindSpelling | libs/lexer/src/lexer.cpp:24-53 | a character has a punctuation case exactly when it is the one-character spelling of some kind other than `/` and the operators, and that kind is spelled by it |
| ScannerProperties.OperatorKindSpelling | libs/lexer/src/lexer.cpp:54-66 | the operator kind is spelled by its character, followed by `=` exactly when the lookahead sees `=` |
| ScannerProperties.SkipWhitespaceDiscardsBlanksAndComments | libs/lexer/src/lexer.cpp:117-155 | every character the skipper passes is a blank or lies in a `/`-comment running up to the next newline, and the stop position lies in no such comment |
| ScannerProperties.SkipWhitespaceReachesEnd | libs/lexer/src/lexer.cpp:117-155 | when only blanks and comments remain, the skipper reaches the end |
| ScannerProperties.StepFailsOnTrailingSkip | libs/lexer/src/lexer.cpp:20-92 | an iteration over only blanks and comments fails with "Unexpected character" on the last line |
| ScannerProperties.EmitRejects | libs/lexer/src/lexer.cpp:86-93 | a character no case handles, or the NUL at the end, fails with "Unexpected character" on the current line |
| ScannerProperties.EmitPunctuation | libs/lexer/src/lexer.cpp:24-53 | punctuation consumes one character and emits its kind with the following character (NUL at the end) as lexeme |
| ScannerProperties.EmitOperator | libs/lexer/src/lexer.cpp:54-66 | an operator consumes one character only and emits the kind chosen by the next character, with that character as lexeme |
| ScannerProperties.EmitRun | libs/lexer/src/lexer.cpp:86-90 | a digit or letter consumes the maximal following run of digits or alphanumerics and emits `NUMBER` or `IDENTIFIER` with that run (or the next character if it is empty) |
| ScannerProperties.EmitStringUnterminated | libs/lexer/src/lexer.cpp:196-198 | a quote with no quote after it fails with "Unterminated string" on the last line of the source |
| ScannerProperties.EmitStringTerminated | libs/lexer/src/lexer.cpp:83-84 | a quote whose first closing quote is at `close` emits one `STRING` token on the closing quote's line, with the content minus its first character, and resumes after the closing quote |
| ScannerProperties.StringTokenLexeme | libs/lexer/src/lexer.cpp:175-178 | the lexeme the string case records, including the fallback for a one-character or empty literal |
| WorkedInputs.OperatorLeavesEquals | libs/lexer/src/lexer.cpp:54-56 | `!=` scans as `BangEqual("=")` then `Equal("\0")` |
| WorkedInputs.DecimalSplits | libs/lexer/src/lexer.cpp:205-213 | `3.14` scans as `Number(".")`, `Dot("1")`, `Number("4")` |
| WorkedInputs.LoneDigitStep | libs/lexer/src/lexer.cpp:205-213 | a digit followed by a non-digit becomes a `Number` whose lexeme is the character after the digit, and the scan resumes at that character |
| WorkedInputs.LoneLetterStep | libs/lexer/src/lexer.cpp:215-223 | a letter followed by a character that is neither letter nor digit becomes an `Identifier` whose lexeme is that following character, and the scan resumes at it |
| WorkedInputs.WordIsIdentifier | libs/lexer/src/lexer.cpp:215-223 | `classy` scans as one `Identifier("lassy")`, with no keyword lookup |
| WorkedInputs.UnclosedQuoteExits | libs/lexer/src/lexer.cpp:196-198 | `"abc` exits with "Unterminated string" on line 1 |
| WorkedInputs.EmptyLiteral | libs/lexer/src/lexer.cpp:202 | `""` scans as one `String("\0")`: the wrapped length takes the (empty) rest, and the fallback supplies NUL |
| WorkedInputs.UnknownCharacterExits | libs/lexer/src/lexer.cpp:91-92 | `#` exits with "Unexpected character" on line 1 |
| WorkedInputs.TrailingNewlineExits | libs/lexer/src/lexer.cpp:110-115 | `a` followed by a newline exits with "Unexpected character" on line 2 |
| WorkedInputs.TrailingCommentExits | libs/lexer/src/lexer.cpp:117-155 | `a //x` exits with "Unexpected character" on line 1: after `Identifier(" ")` only a blank and a line comment remain, and the skipper runs into the end of the input |
| WorkedInputs.SlashCommentsOutLine | libs/lexer/src/lexer.cpp:130-132 | `1/2`, newline, `+` scans as `Number("/")` then `Plus("\0")` on line 2: the division comments out its line |

## Left out

- `printTokens` (libs/lexer/src/lexer.cpp:225-233) is output formatting only.
- The stderr message and `exit(1)` of `error` (libs/lexer/src/lexer.cpp:180-184) are modelled only as the `LexError` kind and line they report.
- The `Lexer` wrapper (libs/lexer/src/lexer.cpp:5-12, libs/lexer/include/lexer.hpp:46-56) only forwards to `LexerImpl` through a `unique_ptr`.
- `skipComment` and `skipMultilineComment` (libs/lexer/src/lexer.cpp:145-149, 157-169) are never called.
  The switch cases and the skipper branch that would call them are dead: the model reaches them only as `assert false` branches.
  `skipMultilineComment` would also never return, because its exit test compares one character with both `*` and `/`.
- The source is a byte string: each model `char` stands for one byte (0..255), and other `char` values are outside the domain of `std::string`. "Drops its first character" therefore means one byte, even in the middle of a multi-byte UTF-8 character.
- Character classes are ASCII. What `std::isdigit`, `std::isalpha` and `std::isalnum` do with negative `char` values (undefined behaviour) and with other locales is not modelled.
- Integer widths: positions, the line counter and the `int start` of the literal scanners are unbounded integers.
  The model assumes sources shorter than 2^31 characters and fewer than 2^31 lines. Only the `size_t` wrap of the string length is written out.
- ScanStringLexeme: requires the source to be shorter than 2^64 characters so that the wrapped length exceeds what is left; `std::string` cannot be longer anyway.
- EmitStringTerminated: requires the source to be shorter than 2^64 characters, for the same reason.
- StringTokenLexeme: requires the source to be shorter than 2^64 characters, for the same reason.
- Behaviour the code does not have is not modelled: keyword lookup, consuming the `=` of two-character operators, block comments and a trailing `END_OF_FILE` token.

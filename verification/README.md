# lox-r lexer, token model, expression visitor and parser cursor in Dafny

This project models the front end of lox-r, a Rust interpreter for the Lox
language:

- `token.dfy` (module `Tokens`): the 39 token kinds, literal values, the
  token record and `Token::new`, and `Display` of the non-number literals.
- `keywords.dfy` (module `Keywords`): the 16-entry keyword table that
  `get_keywords` builds.
- `scanner.dfy` (module `Scanner`): the scanner as a pure state machine over
  an immutable `Scanner` record (`source`, `tokens`, `errors`, `start`,
  `current`, `line`). Each helper that mutates the Rust scanner becomes a
  function from one state to the next. Each `while` loop becomes a recursive
  function that ends when the input runs out. Errors that `err` reports are
  collected as `Diagnostic(line, message)` values next to the tokens.
- `scanner_properties.dfy` (module `ScannerProperties`): what one
  `scan_token` step does for each leading character, and how it counts lines.
- `whole_scan.dfy` (module `WholeScan`): what the whole scan guarantees.
  Lexemes are non-overlapping source slices in source order. Token lines
  never decrease. An unexpected character does not stop the scan.
- `scan_examples.dfy` (module `ScanExamples`): scans of small concrete
  sources.
- `expr.dfy` (module `Exprs`): the `Expr` tree and `accept` dispatch to a
  visitor. The visitor is a record of handler functions that thread a
  visitor state.
- `parser.dfy` (module `Parser`): the parser's token cursor (`new`, `peek`,
  `is_at_end`, `advance`).

Sources are sequences of characters. The number literal is represented by its
lexeme text rather than by an `f64`.

Comments and line numbers: a line break inside a `//` or block comment does
not advance `line`. The skip loops at src/scanner.rs:116-126 consume it with
`advance` and never touch `line`. This model follows that code.
`SlashStep`, `StepLineAccounting` and `CommentLineBreakNotCounted` state this
behaviour.

## Model

| member | source | states |
|---|---|---|
| Tokens.TokenTypeIsClosed | src/token.rs:4-24 | There are exactly 39 distinct token kinds. By position they fall into 11 single-character kinds, 8 one-or-two-character kinds, 3 literal kinds, 16 keywords and EOF. |
| Tokens.NewToken | src/token.rs:34-37 | `Token::new` stores its four arguments unchanged: the kind, lexeme, literal and line of the token are exactly the arguments. |
| Tokens.Display | src/token.rs:51-59 | A string literal displays as its contents, a boolean as `true` or `false`, and nil as `nil`. |
| Keywords.Lookup | src/scanner.rs:11-36 | A text is found exactly when it is a key of the table. Whatever it finds is a keyword kind whose spelling is that text. |
| Keywords.TableEntriesAreKeywords | src/scanner.rs:13-29 | Every table entry maps a spelling to a keyword kind that spells it back. |
| Keywords.EveryKeywordHasEntry | src/scanner.rs:13-29 | Every one of the 16 keyword kinds is reachable from the table under its own spelling. |
| Keywords.KeywordTableSize | src/scanner.rs:13-34 | The table has exactly 16 entries. |
| Keywords.DisplayedLiteralsAreKeywords | src/token.rs:51-59 | The displayed text of `true`, `false` and `nil` is the keyword that scans back to `TRUE`, `FALSE` or `NIL`. |
| Scanner.New | src/scanner.rs:46-56 | A new scanner has no tokens and no errors, has both cursors at 0, and is on line 1. |
| Scanner.IsDigit | src/scanner.rs:219-221 | `is_digit`: an ASCII digit. `Scanner.CharacterClasses` pins the class down. |
| Scanner.IsAlpha | src/scanner.rs:243-245 | `is_alpha`: an ASCII letter or `_`. `Scanner.CharacterClasses` pins the class down. |
| Scanner.IsAlphaNumeric | src/scanner.rs:246-248 | `is_alpha_numeric`: a letter, `_` or digit. `Scanner.CharacterClasses` pins the class down. |
| Scanner.CharacterClasses | src/scanner.rs:219-248 | Against explicit lists of characters: the digit class is exactly `0`-`9`, the letter class exactly the 52 ASCII letters and `_`, and the alphanumeric class their union. Both directions are stated. |
| Scanner.IsAtEnd | src/scanner.rs:151-153 | `is_at_end`: the cursor is at or past the end of the source. |
| Scanner.AtEndIsEndOfSource | src/scanner.rs:151-153 | On a valid scanner, `is_at_end` holds exactly when the cursor sits at the end of the source. |
| Scanner.Advance | src/scanner.rs:155-159 | `advance` reads the character under the cursor and moves the cursor by one. At the end of input it panics in the source; here it is a precondition. |
| Scanner.AdvanceReadsPeek | src/scanner.rs:155-166 | `advance` returns the character that `peek` sees, which is a character of the source, and changes only `current`, by one. |
| Scanner.Peek | src/scanner.rs:160-166 | `peek`: the character under the cursor, or NUL at the end of input. |
| Scanner.PeekNext | src/scanner.rs:168-178 | `peek_next`: the character after the cursor, or NUL past the end of input. |
| Scanner.PeekNextIsPeekAhead | src/scanner.rs:160-178 | `peek_next` sees exactly what `peek` would see with the cursor one step further on, including the NUL at the end. |
| Scanner.MatchChar | src/scanner.rs:179-185 | `match_char` answers true exactly when input remains and `peek` sees the expected character. On true the state is the one `advance` leaves; on false the state is unchanged. |
| Scanner.AddToken | src/scanner.rs:187-195 | `add_token`: appends a token built from the text between `start` and `current`. |
| Scanner.AddTokenAppends | src/scanner.rs:187-195 | `add_token` keeps the earlier tokens and appends exactly one, whose lexeme is the text between `start` and `current`, with the given kind and literal and the current line. Nothing else changes. |
| Scanner.Error | src/lib.rs:76-79 | `err` during scanning: a diagnostic at the current line with the given message. |
| Scanner.ErrorAppends | src/lib.rs:76-79 | `err` keeps the earlier diagnostics and appends exactly one, at the current line with the given message. Nothing else in the scanner changes and scanning goes on. |
| Scanner.PunctuationKind | src/scanner.rs:73-82 | The ten punctuation characters and the kind each one yields. `ScannerProperties.PunctuationKindsAreSingleCharacter` relates them to the token kinds. |
| Scanner.ConsumeWhile | src/scanner.rs:224-226 | A `while is_x(peek()) { advance() }` loop consumes exactly the maximal run of class characters from the cursor and changes nothing else. The NUL that `peek` returns at the end is never in the class. |
| Scanner.FirstQuoteIsFirst | src/scanner.rs:198-203 | The position where the string-body loop stops is the first `"` at or after the cursor: no `"` lies before it, and it holds a `"` unless it is the end of input. |
| Scanner.NewlinesInSplit | src/scanner.rs:199-201 | The line breaks counted over two adjacent ranges add up to those of the joined range. |
| Scanner.ConsumeStringBody | src/scanner.rs:198-203 | The string-body loop stops at the first `"` (not consumed) or at the end of input. It raises `line` by the number of line breaks it passes. |
| Scanner.SkipLineComment | src/scanner.rs:116-118 | A line comment is consumed up to and including the first line break, or to the end of input if there is none. `line` is unchanged. |
| Scanner.SkipBlockComment | src/scanner.rs:119-126 | A block comment is consumed through the first star-slash at or after the cursor, or to the end of input if there is none. Comments do not nest and `line` is unchanged. |
| Scanner.ScanString | src/scanner.rs:197-217 | `string` keeps the source and `start`, only moves forward, and never lowers `line`. It adds exactly one error or exactly one token, never both and never neither. The error is added exactly when no quote at or after the cursor closes the string. A token added is not EOF, its lexeme is the consumed text and its line is the line reached. |
| Scanner.CloseString | src/scanner.rs:209-216 | On the closing quote, `string` consumes it and appends one STRING token spanning both quotes, whose literal is the text strictly between them, on the current line. Nothing else changes. |
| Scanner.ScanNumber | src/scanner.rs:223-242 | `number` keeps the source and `start`, only moves forward, adds no error and exactly one token. That token is not EOF, its lexeme is the consumed text, and its line is the line reached. |
| Scanner.ScanFraction | src/scanner.rs:228-233 | The `.` is consumed only when a digit follows it, and then together with the maximal run of digits after it. Otherwise nothing is consumed. |
| Scanner.ScanIdentifier | src/scanner.rs:250-261 | `identifier` keeps the source and `start`, only moves forward, adds no error and exactly one token. That token is not EOF and its lexeme is the consumed text. |
| Scanner.ScanOperator | src/scanner.rs:83-114 | The `!`, `=`, `<` and `>` arms keep the source and `start` and only move forward. They add no error and exactly one non-EOF token, whose lexeme is the consumed text. |
| Scanner.ScanSlash | src/scanner.rs:115-130 | The `/` arm keeps the source and `start` and only moves forward. It adds no error, and at most one non-EOF token, whose lexeme is the consumed text. |
| Scanner.ScanToken | src/scanner.rs:70-149 | One `scan_token` call always consumes at least one character and never lowers `line`. It adds nothing, exactly one error, or exactly one non-EOF token whose lexeme is the text it consumed. |
| Scanner.ScanLoop | src/scanner.rs:59-62 | The loop of `scan_tokens` consumes the whole input. It only appends tokens and errors, never an EOF token, and never lowers `line`. |
| Scanner.ScanTokens | src/scanner.rs:58-68 | `scan_tokens` keeps the earlier tokens and appends exactly one EOF token at the end. That token has an empty lexeme, no literal and the final line, and no token added before it is EOF. |
| Scanner.Scan | src/scanner.rs:46-68 | A fresh scan returns a sequence that ends in exactly one EOF token, which is its last element. The final line is at least 1. |
| ScannerProperties.PunctuationKindsAreSingleCharacter | src/scanner.rs:73-82 | The ten punctuation characters map exactly onto the single-character kinds other than SLASH. Each of those kinds comes from one of the ten characters. |
| ScannerProperties.PunctuationStep | src/scanner.rs:73-82 | A punctuation character becomes one token of its kind. The lexeme is the character itself, there is no literal, and the token is on the current line. |
| ScannerProperties.OperatorStep | src/scanner.rs:83-114 | Maximal munch: if `=` follows, the two characters form the two-character kind. Otherwise the one-character kind is emitted and the next character is left unread. |
| ScannerProperties.SlashStep | src/scanner.rs:115-130 | `//` skips to just after the first line break or to the end of input. A slash and star skips past the first star-slash or to the end of input. Either way there is no token, and `line` is unchanged even if the comment contains line breaks. Otherwise a SLASH token `/` is emitted. |
| ScannerProperties.WhitespaceStep | src/scanner.rs:131 | A space, carriage return or tab is skipped and nothing else changes. |
| ScannerProperties.NewlineStep | src/scanner.rs:132-134 | A line break outside strings and comments is skipped and raises `line` by one. |
| ScannerProperties.ScanStringCloses | src/scanner.rs:197-217 | When the body loop stops on a quote rather than at the end of input, `string` takes the closing branch and reports no error. |
| ScannerProperties.StringLayout | src/scanner.rs:197-217 | With a closing quote at the first quote position `q`, `string` stops just past `q`. `line` rises by the line breaks between the quotes, no error is added, and one STRING token spans both quotes. |
| ScannerProperties.ScanStringTerminated | src/scanner.rs:197-217 | When a closing quote follows, `string` stops just after the first one. It emits a STRING token whose lexeme includes the quotes and whose literal is the text between them. `line` rises by the line breaks inside the literal. |
| ScannerProperties.ScanStringUnterminated | src/scanner.rs:205-208 | When no closing quote follows, `string` consumes the rest of the input and emits no token. It reports "Unterminated string." at the line reached. |
| ScannerProperties.StringStep | src/scanner.rs:135-137 | A `"` that has a closing quote somewhere after it yields one STRING token. The lexeme includes the quotes, the literal is the body, the token carries the line where the literal ends, and `line` rises by the line breaks in the body. |
| ScannerProperties.UnterminatedStringStep | src/scanner.rs:205-208 | A `"` with no closing quote consumes the rest of the input and still counts its line breaks. It emits no token and records one "Unterminated string." error at the line reached. |
| ScannerProperties.ScanNumberEmits | src/scanner.rs:234-241 | `number` emits one NUMBER token whose literal is its own lexeme text, on the current line. |
| ScannerProperties.NumberLexemeIsText | src/scanner.rs:223-233 | The grammar of a number lexeme (digits, then optionally `.` and digits) and its character-by-character description (starts and ends with a digit, otherwise digits and at most one `.`) accept the same texts. |
| ScannerProperties.IntegerIsMaximal | src/scanner.rs:223-227 | A digit run followed neither by a digit nor by `.` and a digit cannot be extended to a longer number lexeme. |
| ScannerProperties.FractionIsMaximal | src/scanner.rs:228-233 | A number with a fraction that no digit follows cannot be extended to a longer number lexeme. |
| ScannerProperties.ScanNumberWithFraction | src/scanner.rs:223-233 | When a `.` and a digit follow the leading digits, `number` consumes a number lexeme with a fraction, and no longer slice from the same start is a number lexeme. |
| ScannerProperties.ScanNumberWithoutFraction | src/scanner.rs:223-233 | When no `.` and digit follow the leading digits, `number` consumes the digit run only, which is a maximal number lexeme. |
| ScannerProperties.ScanNumberExtent | src/scanner.rs:223-233 | Once the first digit is consumed, `number` consumes a number lexeme (digits, optionally one `.` and more digits) and the longest one: no longer slice from the same start is a number lexeme. |
| ScannerProperties.NumberStep | src/scanner.rs:138-140 | A digit starts a NUMBER token whose lexeme is a maximal number lexeme and whose literal holds that lexeme. The token is on the current line and no error is reported. |
| ScannerProperties.IdentifierStep | src/scanner.rs:250-261 | A letter or `_` starts a maximal run of letters, digits and `_`. The run is the keyword kind when the table holds it and IDENTIFIER otherwise, and carries no literal. |
| ScannerProperties.UnexpectedStep | src/scanner.rs:141-147 | Any other character is consumed and reported as "Unexpected character: 'c'" at the current line. No token is emitted. |
| ScannerProperties.StepErrors | src/scanner.rs:70-149 | A `scan_token` step leaves the errors unchanged exactly when the character is not unexpected and does not open a string that no later quote closes. Where it does report, it adds exactly one diagnostic. Both directions are stated. |
| ScannerProperties.StringErrors | src/scanner.rs:197-208 | A string step leaves the errors unchanged exactly when a quote after the opening one closes the string. Otherwise it adds one diagnostic. |
| ScannerProperties.StepLineAccounting | src/scanner.rs:115-134 | A step raises `line` by the number of line breaks it consumed. A step that consumed a comment leaves `line` unchanged. |
| ScannerProperties.LineAccountingString | src/scanner.rs:197-208 | A string step, closed or not, raises `line` by exactly the line breaks it consumed. |
| ScannerProperties.StringLinesTerminated | src/scanner.rs:197-217 | A closed string raises `line` by the line breaks of its whole lexeme; the quotes add none. |
| ScannerProperties.ClosedLines | src/scanner.rs:197-217 | Once `string` closes on a quote, `line` has risen by the line breaks of the whole lexeme. The quotes themselves add none. |
| ScannerProperties.StringLinesUnterminated | src/scanner.rs:197-208 | An unterminated string raises `line` by the line breaks of the rest of the input. |
| ScannerProperties.NumberHasNoLineBreak | src/scanner.rs:223-233 | A number lexeme contains no line break. |
| ScannerProperties.IdentifierHasNoLineBreak | src/scanner.rs:250-253 | An identifier lexeme contains no line break. |
| ScannerProperties.LineAccountingNumber | src/scanner.rs:138-140 | A number step leaves `line` unchanged, matching the zero line breaks it consumed. |
| ScannerProperties.LineAccountingIdentifier | src/scanner.rs:141-143 | An identifier step leaves `line` unchanged, matching the zero line breaks it consumed. |
| WholeScan.LexemesAreSlices | src/scanner.rs:187-192 | Every token before EOF has as its lexeme a non-empty slice of the source. The slices are in source order and do not overlap. |
| WholeScan.TokenLinesNondecreasing | src/scanner.rs:58-68 | Token lines never decrease along the sequence. Every line is at least 1 and at most the line of the final EOF token. |
| WholeScan.UnexpectedCharacterIsSkipped | src/scanner.rs:141-147 | An unexpected character does not stop the scan. The loop carries on with the next character, as if the error had been recorded first. |
| ScanExamples.EmptySource | src/scanner.rs:58-68 | An empty source scans to a single EOF token on line 1, with no errors. |
| ScanExamples.DotWithoutFraction | src/scanner.rs:228-233 | `1.` scans as NUMBER `1`, DOT, EOF: the dot is not part of the number when no digit follows it. |
| ScanExamples.UnterminatedString | src/scanner.rs:205-208 | `"abc` scans to EOF alone and one "Unterminated string." error on line 1. |
| ScanExamples.CommentLineBreakNotCounted | src/scanner.rs:116-118 | In `//c` + line break + `x`, the identifier `x` is reported on line 1. |
| ScanExamples.CommentSecondStep | src/scanner.rs:116-118 | After the comment `//c` and its line break, the next step scans the identifier `x` on line 1 and reports nothing. |
| Exprs.Accept | src/expr.rs:100-112 | The visitor state is the state that the `&mut self` handlers thread through. A literal node leaves it unchanged, because `visit_literal` takes `&self` and its handler here returns no new state. Interior mutability is not modelled. |
| Exprs.AcceptUsesOnlyItsKind | src/expr.rs:102-112 | `accept` consults only the handler for the node's own variant. Two visitors that agree on that handler give the same result from every state. |
| Exprs.AcceptRebuilds | src/expr.rs:103-111 | Each variant's payload goes unchanged to that variant's own handler, and exactly one handler is called. Only a non-literal handler can change the state. |
| Exprs.Children | src/expr.rs:30-81 | Binary and logical nodes have two sub-expressions. Assignment, grouping and unary nodes have one. Literal and variable nodes have none. Every sub-expression is strictly smaller than its parent. |
| Exprs.Uuid | src/expr.rs:32-68 | Exactly the assignment and logical nodes carry a unique id. |
| Parser.New | src/parser.rs:11-17 | `Parse::new` takes over the scanner's tokens and starts at index 0. |
| Parser.NewAfterScanIsValid | src/parser.rs:11-19 | A parser built on a finished scan has an EOF-terminated token list, and its cursor sits on the first token. |
| Parser.Peek | src/parser.rs:18-20 | `peek` returns the token under the cursor. On an EOF-terminated token list, that token is EOF exactly when the cursor is on the last token. |
| Parser.IsAtEnd | src/parser.rs:22-25 | On an EOF-terminated token list, `is_at_end` holds exactly when the cursor is on the last token. |
| Parser.AtEndIsLastToken | src/parser.rs:22-25 | On a valid cursor, `is_at_end` holds exactly when the cursor is on the last token. |
| Parser.Advance | src/parser.rs:26-33 | On EOF, `advance` leaves the cursor in place and returns an EOF token with an empty lexeme and line 0. Otherwise it returns the current token and moves the cursor one step. |
| Parser.AdvanceKeepsValid | src/parser.rs:26-33 | `advance` never moves a valid cursor past the EOF token. |
| Parser.AdvanceTimesReads | src/parser.rs:26-33 | `n` calls of `advance` return the tokens from the cursor onwards in order, up to but not including EOF, then only the synthetic end token. The cursor ends on EOF at the latest. |
| Parser.AtEndStays | src/parser.rs:26-33 | Once the cursor is on EOF, any number of `advance` calls leave it there and return only the synthetic end token. |
| Parser.AdvanceReadsOne | src/parser.rs:26-33 | Off EOF, `n` calls of `advance` read the current token, then continue reading from the next one exactly as from a fresh cursor there. |

## Left out

- src/lib.rs is not part of this model: the driver, file and prompt I/O, the `HAD_ERROR` flag and exit codes are I/O. `err` is modelled only as an appended diagnostic.
- src/main.rs and src/generate_ast.rs are not part of this model: they are command-line entry and code generation.
- Integer width: `start`, `current` and `line` are `u32` in the source. The model uses unbounded naturals and does not model wrap-around past 2^32 characters or lines.
- Byte and character indexing: the source compares `current` with the byte length but reads characters with `chars().nth`, and slices by byte offsets. The model indexes characters, which agrees with the source for ASCII text only.
- Number values: `parse::<f64>().unwrap_or(0.0)` and the `Display` of an `f64` are floating point. A number literal holds its lexeme text instead.
- Tokens.Display: does not cover the number case, because it would print an `f64`.
- The `OnceLock` that builds the keyword table lazily: the table is a constant here.
- `Token::to_string` (Debug formatting) is not modelled.
- Exprs.Accept: a visitor that changes its state through `Cell` or `RefCell` fields while handling a literal is not modelled. The literal handler returns no new state.
- The `visit_call`, `visit_get`, `visit_set`, `visit_this` and `visit_super` handlers name node types that src/expr.rs does not define, and `accept` never calls them. They are left out of the visitor record. The empty `Expr::visit` does nothing and is left out.
- `Parse::unary` has an empty body and no grammar rule is written, so the grammar is left out.
- Panics: `advance` on the scanner past the end of input and `peek` on the parser past the token list panic in the source. Here they are preconditions (`current < |source|`, `current < |tokens|`).

# klox front end in Dafny

A model of the front end of klox, a Kotlin implementation of the Lox
language. The front end has these parts:

- **Extensions** (`extensions.dfy`) holds the shared helpers: nullable values (`Option`), source positions and their
  `"line:char"` rendering, the error line written by `logError`, and `PeekableIterator`. `PeekableIterator` is a class
  that buffers one element of the iterator it wraps. The wrapped iterator is the sequence `src` of everything it will
  hand out; the ghost function `Cursor()` is the index of the next element.
- **Lexer** (`lexer.dfy`) is the current scanner, `TokenScanner` of `Lexer.kt`. It reads the lines of a program as
  positioned characters and yields tokens. `TokenType.repr()` and the keyword and special-character tables are part of it.
- **OldToken** (`old_token.dfy`) is the earlier scanner of `Token.kt`. Its tokens carry a lexeme and a literal, and it
  reports errors through `logError`. The `match`/`end` helpers over a token iterator are part of it.
- **Ast** (`ast.dfy`) has the trees of `Expr.kt` and `Stmt.kt` and their `ast()` renderings.
- **ParseTree** (`parse_tree.dfy`) has the trees the parser builds. They extend the trees of `Expr.kt` and `Stmt.kt` with
  calls, `while`, function declarations and `return`. This module also has the precedence of each tree node and the
  predicates `WellNested` and `WellFormed` that describe the trees the grammar can build.
- **Grammar** (`grammar.dfy`) and **Statements** (`statements.dfy`) give each rule of `Parser.kt` as a function of the
  token sequence and a start index. The function says the rule's outcome, where the cursor ends and what it logged. The
  outcome is a value, an exception, or the endless loop of `block()`.
- **Parsing** (`parser.dfy`) is the `Parser` class itself. Its recursive methods read a `PeekableIterator` of tokens and
  append to the global diagnostic log. Each method is proved to return, consume and log exactly what its rule's
  function says.
- **Nesting** (`nesting.dfy`) proves the shape of every tree the rules build.
- **Error** (`error.dfy`) and **OldErrorLogger** (`error_logger.dfy`) model the two `ErrorLogger` interfaces and the
  exceptions of the front end.

The `Log` object's diagnostics (`Log.err`, `Log.errAndThrow`) are modelled as a ghost log of `Diag` records: the
position, when one is set, and the message. Standard error (`eprintln`) is modelled as a ghost sequence of lines.
Exceptions are modelled as an `Outcome` value (`Done`, `Threw(failure)` or `Hang`) that each rule passes to its caller.

Where the code departs from the language as Lox describes it, the model follows the code:

- A string literal whose closing quote is the last character of the input is reported as unterminated. `scanStr` and
  `consumeStr` accept a literal only when input remains after its closing quote.
- A call takes at most 254 arguments, not 255. `finishCall` raises the error when the 255th argument would start.
- `block()` never returns when `{` is not closed before `<EOF>`. Its loop calls `declaration()` again and again without
  moving the cursor. The model marks that run as `Hang`.
- The earlier scanner does not count a line break as whitespace. It reports a line break as an unexpected character,
  and `_` cannot continue an identifier.

## Model

| member | source | states |
|---|---|---|
| Extensions.OrNull | src/main/kotlin/Extensions.kt:2 | the result is non-null exactly when the flag is true, and is then `true` |
| Extensions.IntToString | src/main/kotlin/Extensions.kt:15 | `"$n"` is non-empty, all digits for a non-negative number, and a minus sign followed by digits for a negative one |
| Extensions.NatToStringRoundTrip | src/main/kotlin/Extensions.kt:15 | the decimal digits of a natural number read back as that number |
| Extensions.IntToStringRoundTrip | src/main/kotlin/Extensions.kt:15 | every `Int` rendered with `"$n"` reads back as itself, sign included |
| Extensions.Digits | src/main/kotlin/Error.kt:17 | `digits()` is at least 1 and is the length of the number's decimal rendering, not counting a minus sign |
| Extensions.PosStringRoundTrip | src/main/kotlin/Extensions.kt:14-16 | `Pos.toString()` loses nothing: the `"line:char"` text reads back as the same position, for any signs of line and column |
| Extensions.PosStringHasNoBracket | src/main/kotlin/Extensions.kt:15 | a rendered position never contains `]`, so it cannot be confused with the end of the bracketed prefix |
| Extensions.ErrorLineRoundTrip | src/main/kotlin/Extensions.kt:6-8 | the line `logError(pos, msg)` writes splits back into exactly that position and message |
| OldToken.TokenErrorLineRoundTrip | src/main/kotlin/Extensions.kt:10-12 | the line `logError(token, msg)` writes is the error line at the token's position, with the message followed by `. Found ` and the lexeme |
| Extensions.PeekableIterator.constructor | src/main/kotlin/Extensions.kt:21-28 | a new iterator is positioned at the first element of the wrapped sequence |
| Extensions.PeekableIterator.HasNext | src/main/kotlin/Extensions.kt:30-31 | true exactly when elements remain |
| Extensions.PeekableIterator.Next | src/main/kotlin/Extensions.kt:33-38 | hands out the element at the cursor and advances by one; with nothing left it hands out nothing and stays at the end |
| Extensions.PeekableIterator.Peek | src/main/kotlin/Extensions.kt:40 | the element the next `Next` returns, or `null` when the wrapped iterator is exhausted |
| Error.Message | src/main/kotlin/Error.kt:33-38 | the message each exception carries; `AbruptEndError` names `<EOF>` by its `repr()` spelling |
| Error.AbruptEndMessage | src/main/kotlin/Error.kt:38 | `AbruptEndError`'s message is exactly `End without <EOF>` |
| Error.PadStart | src/main/kotlin/Error.kt:17 | `padStart` fails exactly for a negative width; otherwise it keeps the string and puts spaces in front up to the width |
| Error.CodeLine | src/main/kotlin/Error.kt:16 | the first line is the line number, then ` \| `, then the code |
| Error.CaretLine | src/main/kotlin/Error.kt:17 | the caret line fails exactly when the padding width `digits(line) + 3 + char` is negative |
| Error.CaretUnderColumn | src/main/kotlin/Error.kt:16-17 | for a positive line and a column inside the code, the caret sits exactly under that column of the code line, followed by the message |
| Error.ErrOutput | src/main/kotlin/Error.kt:11-18 | on line 0 only the message is printed; otherwise the code line comes first, then the caret line |
| Error.ErrorLogger.constructor | src/main/kotlin/Error.kt:1-6 | a new logger is in the state `reset()` leaves, with nothing written |
| Error.ErrorLogger.Err | src/main/kotlin/Error.kt:8-22 | with no pending error, prints nothing and answers false; otherwise appends `ErrOutput` to standard error, clears the pending error and answers true, failing only when `padStart` throws; position, message and code are kept |
| Error.ErrorLogger.Reset | src/main/kotlin/Error.kt:24-29 | no pending error, position `(0, 0)`, empty message and code; nothing is printed |
| OldErrorLogger.LogOutput | src/main/kotlin/ErrorLogger.kt:11-12 | `log()` always prints the code line and then the caret line; it agrees with the later `err()` on every line but 0 |
| OldErrorLogger.LineZeroDiffers | src/main/kotlin/ErrorLogger.kt:8-16 | on line 0 the earlier `log()` prints two lines where the later `err()` prints only the message |
| OldErrorLogger.ErrorLogger.constructor | src/main/kotlin/ErrorLogger.kt:1-6 | a logger holds the given pending flag, position, message and code, with nothing written |
| OldErrorLogger.ErrorLogger.Log | src/main/kotlin/ErrorLogger.kt:8-16 | with no pending error, prints nothing and answers false; otherwise appends `LogOutput`, clears the pending error and answers true; position, message and code are kept |
| Ast.NameRepr | src/main/kotlin/Expr.kt:41-42 | an identifier prints as `IDENT` and its name in backquotes |
| Ast.ExprAst | src/main/kotlin/Expr.kt:34-48 | every non-literal expression renders inside one pair of parentheses; a string literal renders as its raw text |
| Ast.StringsRenderRaw | src/main/kotlin/Expr.kt:44 | the rendering is ambiguous: the string literal `(group nil)` renders like a grouping of `nil` |
| Ast.ExprAstBalanced | src/main/kotlin/Expr.kt:34-48 | when the strings a tree carries are balanced, its rendering has balanced parentheses |
| Ast.Join | src/main/kotlin/Stmt.kt:16 | `joinToString(" ")` of no strings is empty, and of one string is that string |
| Ast.StmtAst | src/main/kotlin/Stmt.kt:12-18 | an expression statement renders as its expression; every other statement renders inside one pair of parentheses |
| Ast.Asts | src/main/kotlin/Stmt.kt:16 | the statements of an empty block render as the empty string |
| Ast.AstsIsJoin | src/main/kotlin/Stmt.kt:16 | a block's body is its statements' renderings joined by single spaces |
| Ast.EmptyBlock | src/main/kotlin/Stmt.kt:16 | the empty block renders as `(block )` |
| Ast.IfOmitsCondition | src/main/kotlin/Stmt.kt:17 | an `if` renders without its condition: two `if`s differing only in their condition render the same |
| Ast.IfBalanced | src/main/kotlin/Stmt.kt:17 | an `if` whose branches render balanced renders balanced, with or without `else` |
| Ast.AstsBalanced | src/main/kotlin/Stmt.kt:16 | a block's joined statements are balanced when each statement is |
| Ast.StmtAstBalanced | src/main/kotlin/Stmt.kt:12-18 | every statement over balanced strings renders with balanced parentheses |
| Lexer.KeywordTablesInverse | src/main/kotlin/Lexer.kt:272 | the scanner's word table is the exact inverse of the `keywords` spelling table |
| Lexer.Repr | src/main/kotlin/Lexer.kt:93-100 | `repr()` is the keyword or special spelling when there is one, `IDENT` and the name in backquotes for an identifier, and empty exactly for comment, whitespace and unknown |
| Lexer.LineChars | src/main/kotlin/Lexer.kt:112-115 | each character of a line gets that line's number and its column counted from 1 |
| Lexer.Positioned | src/main/kotlin/Lexer.kt:110-116 | the scanner's input has positions on existing lines with columns from 1, strictly increasing in reading order |
| Lexer.Text | src/main/kotlin/Lexer.kt:217-223 | the text of a stretch of input is its characters in order |
| Lexer.RunEnd | src/main/kotlin/Lexer.kt:220-222 | the end of the longest run of a character class: everything before is in the class, the character at the end is not |
| Lexer.CommentEnd | src/main/kotlin/Lexer.kt:178-183 | a comment runs up to the next character in column 1, or to the end of input |
| Lexer.NumberEnd | src/main/kotlin/Lexer.kt:190-210 | where the number's digits, and its fraction when a `.` follows them, end |
| Lexer.QuoteIndex | src/main/kotlin/Lexer.kt:230-238 | the first `"` at or after the cursor, or the end of input when there is none |
| Lexer.StringLexed | src/main/kotlin/Lexer.kt:228-251 | a string is either accepted, with input left after it and nothing logged, or an unknown token that consumes the rest of the input and logs `Unterminated String` at the opening quote |
| Lexer.StringShape | src/main/kotlin/Lexer.kt:228-251 | a string runs to the first `"` after the opening one and is accepted exactly when input remains after that quote; its text is the characters between the quotes, with a line break before each one that begins a line; otherwise it is unknown, consumes the rest of the input and logs `Unterminated String` at the opening quote |
| Lexer.NumberLexed | src/main/kotlin/Lexer.kt:186-214 | a number token holds exactly the characters consumed, at least its first digit, logs nothing and is not followed by a digit |
| Lexer.NumberShape | src/main/kotlin/Lexer.kt:186-214 | a number is the longest numeral at its first digit: digits with at most one `.` among them, so `1.5` is one token, `1.` keeps its `.`, and `1.2.3` stops before the second `.` |
| Lexer.WordLexed | src/main/kotlin/Lexer.kt:216-226 | a word consumes a whole alphanumeric run and is not followed by one more alphanumeric character |
| Lexer.OperatorLexed | src/main/kotlin/Lexer.kt:139-142 | `!`, `=`, `<`, `>` consume one or two characters and log nothing |
| Lexer.SlashLexed | src/main/kotlin/Lexer.kt:144 | `/` consumes at least one character and logs nothing |
| Lexer.LexOne | src/main/kotlin/Lexer.kt:127-153 | every pass consumes at least one character and never produces `EOF` |
| Lexer.SingleSpelling | src/main/kotlin/Lexer.kt:128-137 | each single-character token is spelled by the one character it consumed |
| Lexer.OperatorSpelling | src/main/kotlin/Lexer.kt:139-142 | maximal munch: a two-character operator is taken exactly when `=` follows, spelled by the characters consumed |
| Lexer.SlashSpelling | src/main/kotlin/Lexer.kt:144 | `/` is spelled by the one character it consumed, or a comment is skipped |
| Lexer.WordSpelling | src/main/kotlin/Lexer.kt:216-226 | a word is a keyword exactly when the whole run spells one, and an identifier named by the run otherwise |
| Lexer.LexOneSpelling | src/main/kotlin/Lexer.kt:127-153 | every token the loop recognises is spelled by exactly the characters it consumed, with maximal munch; a number is the longest numeral at its start and a string's text is what lies between its quotes |
| Lexer.LexOneStart | src/main/kotlin/Lexer.kt:127-153 | a token's first character is the one its type demands: a digit for a number, a letter or `_` for a word, a quote for a string, the first character of its spelling otherwise |
| Lexer.Yielded | src/main/kotlin/Lexer.kt:155-164 | whitespace, comments and unknown characters are not yielded; an unknown one is logged; every other type is yielded once at its position |
| Lexer.LastPassStart | src/main/kotlin/Lexer.kt:121-125 | the index where the last pass of the loop starts, whose lexeme reaches the end of input |
| Lexer.ScanEndsWithEof | src/main/kotlin/Lexer.kt:167 | the token stream always ends with an `EOF` token |
| Lexer.ScanHasOneEof | src/main/kotlin/Lexer.kt:118-168 | no token but the last one is `EOF` |
| Lexer.EofPosition | src/main/kotlin/Lexer.kt:119-167 | `EOF` sits one column after the position where the last pass started, or one column after `lastPos` when there was no pass |
| Lexer.ScanOfEmptyInput | src/main/kotlin/Lexer.kt:119-167 | empty input scans to the single token `EOF` at line 0, column 1 |
| Lexer.ScanYieldsNoTrivia | src/main/kotlin/Lexer.kt:155-164 | whitespace, comment and unknown tokens never reach the token stream |
| Lexer.ScanPositions | src/main/kotlin/Lexer.kt:121-165 | every token before `EOF` was read by a pass of the main loop: it carries the position of the character that pass started at, and the type that pass read |
| Lexer.PassStarts | src/main/kotlin/Lexer.kt:121-165 | the passes of the main loop start inside the input, at or after the loop's own start, the first one at that start |
| Lexer.TokenScanner.constructor | src/main/kotlin/Lexer.kt:106-116 | a new scanner reads the positioned characters of all lines from the start, with no error and nothing logged |
| Lexer.TokenScanner.ScanTokens | src/main/kotlin/Lexer.kt:118-168 | consumes all input and returns and logs exactly what the scanning loop `ScanFrom` defines, starting from `lastPos = (0, 0)` |
| Lexer.TokenScanner.Pass | src/main/kotlin/Lexer.kt:121-165 | one loop pass reads the lexeme `LexOne` defines at the cursor and yields and logs what `Emitted` says for it |
| Lexer.TokenScanner.Emit | src/main/kotlin/Lexer.kt:155-164 | yields and logs what `Yielded` defines for the type and position |
| Lexer.TokenScanner.ScanOne | src/main/kotlin/Lexer.kt:127-153 | the `when (curr)` returns the type `LexOne` defines, leaves the cursor after its lexeme and logs its diagnostics |
| Lexer.TokenScanner.Match | src/main/kotlin/Lexer.kt:170-176 | consumes the next character exactly when it is the one asked for |
| Lexer.TokenScanner.SkipComment | src/main/kotlin/Lexer.kt:178-183 | skips to the next character in column 1, or to the end of input |
| Lexer.TokenScanner.TakeRun | src/main/kotlin/Lexer.kt:220-222 | consumes the longest run of a character class and returns its text |
| Lexer.TokenScanner.TakeFraction | src/main/kotlin/Lexer.kt:195-204 | after a `.` consumes the dot and the digits that follow; otherwise consumes nothing; returns the text consumed |
| Lexer.TokenScanner.ScanNum | src/main/kotlin/Lexer.kt:186-214 | returns the number `NumberLexed` defines and leaves the cursor after it |
| Lexer.TokenScanner.ScanIdent | src/main/kotlin/Lexer.kt:216-226 | returns the keyword or identifier `WordLexed` defines and leaves the cursor after it |
| Lexer.TokenScanner.StrBody | src/main/kotlin/Lexer.kt:229-243 | collects the characters up to the next `"`, with a line break before each character in column 1, and consumes the closing quote when there is one |
| Lexer.TokenScanner.ScanStr | src/main/kotlin/Lexer.kt:228-251 | returns the string or unknown type `StringLexed` defines, leaves the cursor where it says and logs its diagnostic |
| Lexer.TokenScanner.SkipWhitespace | src/main/kotlin/Lexer.kt:253-264 | skips the longest run of spaces, returns, tabs and line breaks |
| OldToken.MatchAny | src/main/kotlin/Token.kt:34 | true exactly when a token remains and its type is one of those given |
| OldToken.End | src/main/kotlin/Token.kt:35 | throws `ParseError("No EOF")` exactly when nothing remains; otherwise answers whether the next token is `EOF` |
| OldToken.KeywordLiteral | src/main/kotlin/Token.kt:174-185 | a reserved word carries a literal exactly when it is `true` or `false` (`nil` carries `null`) |
| OldToken.Text | src/main/kotlin/Token.kt:166-172 | the text of a stretch of input is its characters in order |
| OldToken.RunEnd | src/main/kotlin/Token.kt:169-171 | the end of the longest run of a character class: everything before is in the class, the character at the end is not |
| OldToken.CommentEnd | src/main/kotlin/Token.kt:96-101 | a comment runs up to the next character in column 0, or to the end of input |
| OldToken.NumberEnd | src/main/kotlin/Token.kt:139-160 | where the number's digits, and its fraction when a `.` follows them, end |
| OldToken.QuoteIndex | src/main/kotlin/Token.kt:115-126 | the first `"` at or after the cursor, or the end of input |
| OldToken.StringLexed | src/main/kotlin/Token.kt:114-135 | an accepted string's literal is its lexeme and nothing is printed; otherwise the token is unknown with an empty lexeme and the input is exhausted |
| OldToken.StringShape | src/main/kotlin/Token.kt:114-135 | a string runs to the first `"` after the opening one and is accepted exactly when input remains after that quote; its lexeme and literal are the characters between the quotes, with a line break before each one in column 0; otherwise it is unknown with an empty lexeme, consumes the rest of the input and prints `Unterminated string` at the opening quote |
| OldToken.NumberLexed | src/main/kotlin/Token.kt:138-163 | a number's lexeme is exactly the characters consumed, at least its first digit, its literal is that lexeme, nothing is printed, and no digit follows |
| OldToken.NumberShape | src/main/kotlin/Token.kt:138-163 | a number's lexeme is the longest numeral at its first digit: digits with at most one `.` among them, so `1.5` is one token and `1.2.3` stops before the second `.` |
| OldToken.WordLexed | src/main/kotlin/Token.kt:165-186 | a word consumes a whole run of letters and digits and is not followed by another |
| OldToken.OperatorLexed | src/main/kotlin/Token.kt:59-62 | `!`, `=`, `<`, `>` consume one or two characters and print nothing |
| OldToken.SlashLexed | src/main/kotlin/Token.kt:64 | `/` consumes at least one character and prints nothing |
| OldToken.LexOne | src/main/kotlin/Token.kt:47-75 | every pass consumes at least one character and never produces `EOF` |
| OldToken.SingleLexed | src/main/kotlin/Token.kt:48-57 | each single-character token's lexeme is the character it consumed, without a literal |
| OldToken.OperatorWellLexed | src/main/kotlin/Token.kt:59-62 | a two-character operator is taken exactly when `=` follows, and its lexeme is the characters consumed |
| OldToken.SlashWellLexed | src/main/kotlin/Token.kt:64 | `/` is lexed as itself, or as a comment with an empty lexeme |
| OldToken.NumberWellLexed | src/main/kotlin/Token.kt:138-163 | a number pass is well lexed: its lexeme is the characters consumed, its literal is that lexeme, and no digit follows |
| OldToken.StringWellLexed | src/main/kotlin/Token.kt:114-135 | a string pass is well lexed: an accepted string's literal is its lexeme, a rejected one is an unknown token with an empty lexeme |
| OldToken.LexOneWellLexed | src/main/kotlin/Token.kt:47-75 | every pass produces a lexeme made of the characters it consumed, or an empty one for trivia, with the literal its type calls for |
| OldToken.LexOneShaped | src/main/kotlin/Token.kt:47-75 | every pass that yields a number reads the longest numeral at its first digit, and every accepted string's lexeme is the text between its quotes |
| OldToken.WordDispatch | src/main/kotlin/Token.kt:68 | a letter or `_` always starts a word |
| OldToken.UnderscoreSplitsWords | src/main/kotlin/Token.kt:192 | `_` is missing from `alphaNum`: a word stops in front of `_`, which starts a new word of its own |
| OldToken.LineBreakIsUnknown | src/main/kotlin/Token.kt:70-74 | a line break is not whitespace here: it is lexed as an unknown character |
| OldToken.Emitted | src/main/kotlin/Token.kt:77-83 | trivia and unknown tokens are not yielded; an unknown one prints `<char>: unexpected character` at its position after the scanning function's own lines; every other token is yielded once |
| OldToken.EofToken | src/main/kotlin/Token.kt:86 | the final token is `EOF` with lexeme `<EOF>`, one column after the last position |
| OldToken.LastPassStart | src/main/kotlin/Token.kt:43-45 | the index where the last pass of the loop starts, whose lexeme reaches the end of input |
| OldToken.ScanEnd | src/main/kotlin/Token.kt:86 | the stream ends with `EOF` one column after the character of the last pass, or after `lastPos` when there was no pass |
| OldToken.ScanHadError | src/main/kotlin/Token.kt:77 | `hadError` after scanning tells only whether the last pass read an unknown token, since each pass overwrites it |
| OldToken.ScanTokenKinds | src/main/kotlin/Token.kt:79-86 | no token but the last is `EOF`, and no whitespace, comment or unknown token reaches the stream |
| OldToken.ScanOfEmptyInput | src/main/kotlin/Token.kt:41-86 | empty input scans to the single token `EOF` at line -1, column 0, printing nothing and with no error |
| OldToken.TokenScanner.constructor | src/main/kotlin/Token.kt:37-38 | a new scanner reads from the given iterator, with no error and nothing printed |
| OldToken.TokenScanner.ScanTokens | src/main/kotlin/Token.kt:40-87 | consumes all input and returns, prints and sets `hadError` exactly as the loop `ScanFrom` defines, from `lastPos = (-1, -1)` |
| OldToken.TokenScanner.Pass | src/main/kotlin/Token.kt:43-83 | one loop pass reads the lexeme `LexOne` defines at the cursor and yields and prints what `Emitted` says for it |
| OldToken.TokenScanner.Emit | src/main/kotlin/Token.kt:77-83 | sets `hadError` to whether the token is unknown, prints the unexpected-character line for it, drops trivia and yields every other token |
| OldToken.TokenScanner.ScanOne | src/main/kotlin/Token.kt:47-75 | the `when (curr)` returns the token `LexOne` defines at the position and leaves the cursor after its lexeme |
| OldToken.TokenScanner.Match | src/main/kotlin/Token.kt:89-94 | consumes the next character exactly when it is the one asked for |
| OldToken.TokenScanner.SkipComment | src/main/kotlin/Token.kt:96-101 | skips to the next character in column 0 and returns a comment token with an empty lexeme |
| OldToken.TokenScanner.SkipWhitespace | src/main/kotlin/Token.kt:103-112 | skips spaces, returns and tabs, and returns a whitespace token with an empty lexeme |
| OldToken.TokenScanner.TakeRun | src/main/kotlin/Token.kt:169-171 | consumes the longest run of a character class and returns its text |
| OldToken.TokenScanner.TakeFraction | src/main/kotlin/Token.kt:144-153 | after a `.` consumes the dot and the digits that follow; otherwise consumes nothing |
| OldToken.TokenScanner.ConsumeNum | src/main/kotlin/Token.kt:138-163 | returns the number token `NumberLexed` defines and leaves the cursor after it |
| OldToken.TokenScanner.ConsumeIdent | src/main/kotlin/Token.kt:165-186 | returns the reserved-word or identifier token `WordLexed` defines and leaves the cursor after it |
| OldToken.TokenScanner.StrBody | src/main/kotlin/Token.kt:115-126 | collects the characters up to the next `"`, with a line break before each one in column 0, and consumes the closing quote when there is one |
| OldToken.TokenScanner.ConsumeStr | src/main/kotlin/Token.kt:114-135 | returns the token `StringLexed` defines, leaves the cursor where it says and prints its error line |
| ParseTree.LevelOps | src/main/kotlin/Parser.kt:264-334 | the six binary levels from `or` to factor are exactly the levels with operators |
| ParseTree.SubtractionNestsLeft | src/main/kotlin/Parser.kt:312-322 | subtraction associates to the left: `(a - b) - c` is a tree the grammar builds, `a - (b - c)` without a grouping is not |
| ParseTree.ProductBindsTighter | src/main/kotlin/Parser.kt:312-334 | a product binds tighter than a sum: `a + (b * c)` is buildable, `(a + b) * c` without a grouping is not |
| Grammar.Throw | src/main/kotlin/Parser.kt:434-437 | `Log.errAndThrow` logs one diagnostic at the next token and throws a `ParseError` with the same message, consuming nothing |
| Grammar.Consume | src/main/kotlin/Parser.kt:428-439 | succeeds exactly when the next token has the kind asked for, and consumes it; at the end of input throws `AbruptEndError`; otherwise logs and throws the message |
| Grammar.ConsumeIdent | src/main/kotlin/Parser.kt:69-82 | succeeds exactly on an identifier and returns its name; the failures are those of `consume` |
| Grammar.Primary | src/main/kotlin/Parser.kt:382-425 | consumes at least one token when it succeeds, never loops, fails at `<EOF>` without consuming, and throws `AbruptEndError` on exhausted input |
| Grammar.Grouped | src/main/kotlin/Parser.kt:411-416 | a parenthesised expression yields a `Grouping` |
| Grammar.Unary | src/main/kotlin/Parser.kt:336-344 | consumes at least one token when it succeeds and fails at `<EOF>` without consuming |
| Grammar.Call | src/main/kotlin/Parser.kt:346-358 | consumes at least one token when it succeeds and fails at `<EOF>` without consuming |
| Grammar.CallRest | src/main/kotlin/Parser.kt:349-355 | without a following `(` the callee is returned unchanged and nothing is consumed or logged |
| Grammar.FinishCall | src/main/kotlin/Parser.kt:360-380 | yields a `Call` of the given callee whose `paren` is the `)` token consumed last |
| Grammar.Arguments | src/main/kotlin/Parser.kt:365-375 | yields between 1 and `254 - count` arguments; once 254 have been read it logs and throws the argument-limit error |
| Grammar.Operand | src/main/kotlin/Parser.kt:264-334 | an operand consumes at least one token when it succeeds and fails at `<EOF>` without consuming |
| Grammar.Level | src/main/kotlin/Parser.kt:264-334 | a binary level consumes at least one token when it succeeds and fails at `<EOF>` without consuming |
| Grammar.Node | src/main/kotlin/Parser.kt:270 | a level's node keeps its operands and operator, `Logical` for `or`/`and` and `Binary` otherwise |
| Grammar.LevelRest | src/main/kotlin/Parser.kt:267-271 | without an operator of the level next, the left operand is the result and nothing is consumed or logged |
| Grammar.Assignment | src/main/kotlin/Parser.kt:243-262 | consumes at least one token when it succeeds and fails at `<EOF>` without consuming |
| Grammar.AssignValue | src/main/kotlin/Parser.kt:246-259 | when it returns, a variable target becomes an `Assign` to that same name, and any other target is returned as it was with `Invalid assignment target` logged last, at the `=` |
| Grammar.AssignValueResult | src/main/kotlin/Parser.kt:246-259 | the value assigned is the `assignment()` after the `=`: the rule returns exactly when that one does, ends where it ends, logs its diagnostics first, assigns its value to a variable target and returns any other target unchanged |
| Grammar.Expression | src/main/kotlin/Parser.kt:241 | consumes at least one token when it succeeds, never loops, throws a `ParseError` only after logging a diagnostic, and fails at `<EOF>` without consuming |
| Statements.Opt | src/main/kotlin/Parser.kt:36 | a declaration that failed contributes no statement, one that succeeded contributes its statement |
| Statements.ExprStatement | src/main/kotlin/Parser.kt:180-184 | yields an `Expression` statement ending at the `;` it consumed last |
| Statements.ReturnValue | src/main/kotlin/Parser.kt:143 | a `return` has no value exactly when `;` follows the keyword |
| Statements.ReturnStatement | src/main/kotlin/Parser.kt:141-146 | yields a `Return` holding its keyword, without a value exactly when `;` follows |
| Statements.Condition | src/main/kotlin/Parser.kt:151-153 | the parenthesised head of `while` and `if` consumes at least three tokens |
| Statements.VarInit | src/main/kotlin/Parser.kt:118-122 | without `=` the initialiser is `nil` and nothing is consumed; with `=` an expression follows |
| Statements.VarDecl | src/main/kotlin/Parser.kt:115-128 | yields a `Var` named by the identifier after `var`, ending at `;`, initialised to `nil` when no `=` follows |
| Statements.VarRest | src/main/kotlin/Parser.kt:118-127 | yields a `Var` of the given name, ending at `;`, initialised to `nil` when no `=` follows |
| Statements.Params | src/main/kotlin/Parser.kt:91-104 | yields between 1 and `255 - count` names; once 255 are read it logs and throws the parameter-limit error at the next token |
| Statements.ParamList | src/main/kotlin/Parser.kt:89-107 | at most 255 parameters, none exactly when `)` follows `(` |
| Statements.FuncHead | src/main/kotlin/Parser.kt:84-107 | the function's name is the identifier after `fun`, with at most 255 parameters |
| Statements.ForInit | src/main/kotlin/Parser.kt:189-195 | no initialiser exactly after `;`, and a `Var` initialiser exactly after `var` |
| Statements.ForCond | src/main/kotlin/Parser.kt:197-198 | an empty condition is `true` |
| Statements.ForPost | src/main/kotlin/Parser.kt:200-201 | no increment exactly when `)` follows |
| Statements.ForClauses | src/main/kotlin/Parser.kt:187-201 | the three clauses consume at least one token when they succeed |
| Statements.Desugar | src/main/kotlin/Parser.kt:203-215 | a `for` becomes a `while` on its condition whose body is followed by the increment, inside a block after the initialiser when there is one |
| Statements.Statement | src/main/kotlin/Parser.kt:130-178 | consumes at least one token when it succeeds, fails at `<EOF>` without consuming, throws `AbruptEndError` on exhausted input, and otherwise throws only a `ParseError` or a failure `declaration()` lets escape |
| Statements.PrintStatement | src/main/kotlin/Parser.kt:134-139 | yields a `Print` statement |
| Statements.BlockStatement | src/main/kotlin/Parser.kt:170-173 | yields a `Block` statement |
| Statements.WhileStatement | src/main/kotlin/Parser.kt:148-158 | yields a `While` statement |
| Statements.ForStatement | src/main/kotlin/Parser.kt:186-216 | yields a `while` loop, alone or in a two-statement block after its initialiser |
| Statements.IfStatement | src/main/kotlin/Parser.kt:218-227 | yields an `If` statement |
| Statements.Branches | src/main/kotlin/Parser.kt:223-226 | yields an `If` on the condition already read |
| Statements.ElseBranch | src/main/kotlin/Parser.kt:224 | there is an `else` branch exactly when `else` follows; otherwise nothing is consumed |
| Statements.Block | src/main/kotlin/Parser.kt:229-239 | a block ends at the `}` it consumed last; an unclosed block at `<EOF>` loops for ever (`Hang`) |
| Statements.BlockLoop | src/main/kotlin/Parser.kt:231-234 | the loop stops only with `}` next |
| Statements.Sync | src/main/kotlin/Parser.kt:441-448 | logs nothing and never loops; stops at `<EOF>`, after a `;` or before a keyword that starts a statement; can throw `No EOF` or a missing-element error at the end of input |
| Statements.Declaration | src/main/kotlin/Parser.kt:41-63 | a caught `ParseError` yields no statement but leaves a diagnostic; it always moves forward unless at `<EOF>`; at `<EOF>` it yields nothing and consumes nothing; only `AbruptEndError`, `No EOF` and a missing element escape |
| Statements.DeclarationRule | src/main/kotlin/Parser.kt:45-57 | consumes at least one token when it succeeds and fails at `<EOF>` without consuming |
| Statements.Recover | src/main/kotlin/Parser.kt:58-62 | a statement is kept only from a successful rule; a caught `ParseError` leaves a diagnostic; only the failures a declaration lets escape are passed on |
| Statements.FuncDecl | src/main/kotlin/Parser.kt:84-113 | yields a `Function` named by the identifier after `fun` |
| Statements.FuncBody | src/main/kotlin/Parser.kt:109-112 | the body starts with `{`, and the `Function` keeps the name and parameters read before |
| Statements.ParseFrom | src/main/kotlin/Parser.kt:35-38 | the loop stops normally or hangs only with `<EOF>` next, and otherwise ends with a failure a declaration lets escape |
| Statements.Parse | src/main/kotlin/Parser.kt:34-39 | `parse()` ends normally (or hangs) only at `<EOF>`, and otherwise with a failure a declaration lets escape |
| Nesting.NodeShape | src/main/kotlin/Parser.kt:264-334 | a level's node has the level's precedence and is well nested when its operands bind as left associativity demands |
| Nesting.PrimaryShape | src/main/kotlin/Parser.kt:382-425 | a primary expression has the tightest precedence and is well nested |
| Nesting.GroupedShape | src/main/kotlin/Parser.kt:411-416 | a grouping holds a well-nested expression |
| Nesting.UnaryShape | src/main/kotlin/Parser.kt:336-344 | a unary expression binds at least as tightly as the unary level and is well nested |
| Nesting.CallShape | src/main/kotlin/Parser.kt:346-358 | a call expression binds at least as tightly as the call level and is well nested |
| Nesting.CallRestShape | src/main/kotlin/Parser.kt:349-355 | repeated calls keep the callee well nested at the call level |
| Nesting.FinishCallShape | src/main/kotlin/Parser.kt:360-380 | a call node has the call precedence, a well-nested callee, at most 254 well-nested arguments and a `)` token |
| Nesting.ArgumentsShape | src/main/kotlin/Parser.kt:365-375 | every argument read is a well-nested expression |
| Nesting.OperandShape | src/main/kotlin/Parser.kt:264-334 | an operand binds more tightly than its level and is well nested |
| Nesting.LevelShape | src/main/kotlin/Parser.kt:264-334 | a binary level's result binds at least as tightly as the level and is well nested |
| Nesting.LevelRestShape | src/main/kotlin/Parser.kt:267-271 | the left-associative loop keeps the tree well nested at the level |
| Nesting.AssignmentShape | src/main/kotlin/Parser.kt:243-262 | an assignment's result is well nested |
| Nesting.AssignValueShape | src/main/kotlin/Parser.kt:246-259 | the assignment built from the value after `=` is well nested |
| Nesting.NameAtLevel | src/main/kotlin/Parser.kt:264-425 | a name followed by `=` is, at every binary level, the variable of that name alone, read without consuming the `=` or logging |
| Nesting.AssignToName | src/main/kotlin/Parser.kt:243-262 | `x = …` assigns to `x` the whole assignment after the `=`, ends where that one ends, and fails exactly when it fails |
| Nesting.AssignNestsRight | src/main/kotlin/Parser.kt:243-262 | assignment nests to the right: `x = y = e` assigns to `x` the assignment of `e` to `y`, and fails exactly when `e` does |
| Nesting.ExpressionShape | src/main/kotlin/Parser.kt:241 | every expression the parser returns is well nested |
| Nesting.ExprStatementShape | src/main/kotlin/Parser.kt:180-184 | an expression statement is well formed |
| Nesting.ReturnStatementShape | src/main/kotlin/Parser.kt:141-146 | a `return` statement is well formed, with a `return` keyword |
| Nesting.ConditionShape | src/main/kotlin/Parser.kt:151-153 | a condition is well nested |
| Nesting.VarDeclShape | src/main/kotlin/Parser.kt:115-128 | a variable declaration is well formed |
| Nesting.VarRestShape | src/main/kotlin/Parser.kt:118-127 | a variable declaration is well formed |
| Nesting.ForInitShape | src/main/kotlin/Parser.kt:189-195 | a `for` initialiser is well formed |
| Nesting.ForCondShape | src/main/kotlin/Parser.kt:197-198 | a `for` condition is well nested |
| Nesting.ForPostShape | src/main/kotlin/Parser.kt:200-201 | a `for` increment is well nested |
| Nesting.ForClausesShape | src/main/kotlin/Parser.kt:187-201 | the three clauses are well formed |
| Nesting.DesugarShape | src/main/kotlin/Parser.kt:203-215 | desugaring a `for` with well-formed parts gives a well-formed statement |
| Nesting.RecoverShape | src/main/kotlin/Parser.kt:58-62 | recovery keeps only well-formed statements |
| Nesting.StatementShape | src/main/kotlin/Parser.kt:130-178 | every statement is well formed |
| Nesting.WhileShape | src/main/kotlin/Parser.kt:148-158 | a `while` statement is well formed |
| Nesting.ForShape | src/main/kotlin/Parser.kt:186-216 | a `for` statement is well formed |
| Nesting.IfShape | src/main/kotlin/Parser.kt:218-227 | an `if` statement is well formed |
| Nesting.BranchesShape | src/main/kotlin/Parser.kt:223-226 | an `if` with its branches is well formed |
| Nesting.ElseBranchShape | src/main/kotlin/Parser.kt:224 | an `else` branch is well formed |
| Nesting.BlockShape | src/main/kotlin/Parser.kt:229-239 | every statement of a block is well formed |
| Nesting.BlockLoopShape | src/main/kotlin/Parser.kt:231-234 | every statement the block loop collects is well formed |
| Nesting.DeclarationShape | src/main/kotlin/Parser.kt:41-63 | a declaration's statement is well formed |
| Nesting.DeclarationRuleShape | src/main/kotlin/Parser.kt:45-57 | a declaration's statement is well formed |
| Nesting.FuncDeclShape | src/main/kotlin/Parser.kt:84-113 | a function declaration is well formed: at most 255 parameters and a block body |
| Nesting.FuncBodyShape | src/main/kotlin/Parser.kt:109-112 | a function built from its body is well formed |
| Nesting.FunctionShape | src/main/kotlin/Parser.kt:112 | a function with at most 255 parameters and a well-formed body is well formed |
| Nesting.ParseFromShape | src/main/kotlin/Parser.kt:35-38 | every statement the loop of `parse()` yields is well formed |
| Nesting.ParseShape | src/main/kotlin/Parser.kt:34-39 | every statement `parse()` yields is well formed |
| Parsing.Parser.constructor | src/main/kotlin/Parser.kt:32 | a parser reads the given token iterator from its position, with nothing logged |
| Parsing.Parser.Match | src/main/kotlin/Parser.kt:267 | `match(...)` is true exactly when a token remains and its kind is one of those given |
| Parsing.Parser.Advance | src/main/kotlin/Parser.kt:268 | `next()` after a successful match returns the token at the cursor and advances by one |
| Parsing.Parser.MatchAndConsume | src/main/kotlin/Parser.kt:104 | consumes the next token exactly when it has the kind asked for, and says whether it did |
| Parsing.Parser.PeekSafe | src/main/kotlin/Parser.kt:42 | the next token, or `AbruptEndError` exactly when the input is exhausted |
| Parsing.Parser.End | src/main/kotlin/Parser.kt:35 | throws `ParseError("No EOF")` exactly on exhausted input; otherwise answers whether `<EOF>` is next |
| Parsing.Parser.Throw | src/main/kotlin/Parser.kt:419-423 | logs and throws as `Grammar.Throw` defines |
| Parsing.Parser.Consume | src/main/kotlin/Parser.kt:428-439 | returns, consumes and logs exactly what `Grammar.Consume` defines |
| Parsing.Parser.ConsumeIdent | src/main/kotlin/Parser.kt:69-82 | returns, consumes and logs exactly what `Grammar.ConsumeIdent` defines |
| Parsing.Parser.Primary | src/main/kotlin/Parser.kt:382-425 | returns, consumes and logs exactly what `Grammar.Primary` defines |
| Parsing.Parser.Grouped | src/main/kotlin/Parser.kt:411-416 | returns, consumes and logs exactly what `Grammar.Grouped` defines |
| Parsing.Parser.Unary | src/main/kotlin/Parser.kt:336-344 | returns, consumes and logs exactly what `Grammar.Unary` defines |
| Parsing.Parser.Call | src/main/kotlin/Parser.kt:346-358 | returns, consumes and logs exactly what `Grammar.Call` defines |
| Parsing.Parser.CallLoop | src/main/kotlin/Parser.kt:349-355 | the `while (true)` loop ends as `Grammar.CallRest` defines |
| Parsing.Parser.FinishCall | src/main/kotlin/Parser.kt:360-380 | returns, consumes and logs exactly what `Grammar.FinishCall` defines |
| Parsing.Parser.Arguments | src/main/kotlin/Parser.kt:365-375 | the `do`-`while` loop over arguments ends as `Grammar.Arguments` defines |
| Parsing.Parser.LogicalOr | src/main/kotlin/Parser.kt:264-274 | returns, consumes and logs exactly what `Grammar.Level` defines at the `or` level |
| Parsing.Parser.LogicalAnd | src/main/kotlin/Parser.kt:276-286 | the same at the `and` level |
| Parsing.Parser.Equality | src/main/kotlin/Parser.kt:288-298 | the same at the equality level |
| Parsing.Parser.Comparison | src/main/kotlin/Parser.kt:300-310 | the same at the comparison level |
| Parsing.Parser.Term | src/main/kotlin/Parser.kt:312-322 | the same at the term level |
| Parsing.Parser.Factor | src/main/kotlin/Parser.kt:324-334 | the same at the factor level |
| Parsing.Parser.Assignment | src/main/kotlin/Parser.kt:243-262 | returns, consumes and logs exactly what `Grammar.Assignment` defines |
| Parsing.Parser.AssignRest | src/main/kotlin/Parser.kt:246-259 | the part after `=` returns, consumes and logs exactly what `Grammar.AssignValue` defines |
| Parsing.Parser.Expression | src/main/kotlin/Parser.kt:241 | returns, consumes and logs exactly what `Grammar.Expression` defines |
| Parsing.Parser.ExprStatement | src/main/kotlin/Parser.kt:180-184 | returns, consumes and logs exactly what `Statements.ExprStatement` defines |
| Parsing.Parser.ReturnStatement | src/main/kotlin/Parser.kt:141-146 | returns, consumes and logs exactly what `Statements.ReturnStatement` defines |
| Parsing.Parser.Condition | src/main/kotlin/Parser.kt:151-153 | returns, consumes and logs exactly what `Statements.Condition` defines |
| Parsing.Parser.VarDecl | src/main/kotlin/Parser.kt:115-128 | returns, consumes and logs exactly what `Statements.VarDecl` defines |
| Parsing.Parser.VarRest | src/main/kotlin/Parser.kt:118-127 | returns, consumes and logs exactly what `Statements.VarRest` defines |
| Parsing.Parser.Sync | src/main/kotlin/Parser.kt:441-448 | skips exactly the tokens `Statements.Sync` defines and ends as it says |
| Parsing.Parser.ParamList | src/main/kotlin/Parser.kt:89-107 | returns, consumes and logs exactly what `Statements.ParamList` defines |
| Parsing.Parser.Names | src/main/kotlin/Parser.kt:91-104 | the `do`-`while` loop over parameters ends as `Statements.Params` defines |
| Parsing.Parser.FuncHead | src/main/kotlin/Parser.kt:84-107 | returns, consumes and logs exactly what `Statements.FuncHead` defines |
| Parsing.Parser.FuncDecl | src/main/kotlin/Parser.kt:84-113 | returns, consumes and logs exactly what `Statements.FuncDecl` defines |
| Parsing.Parser.FuncBody | src/main/kotlin/Parser.kt:109-112 | returns, consumes and logs exactly what `Statements.FuncBody` defines |
| Parsing.Parser.ForInit | src/main/kotlin/Parser.kt:189-195 | returns, consumes and logs exactly what `Statements.ForInit` defines |
| Parsing.Parser.ForCond | src/main/kotlin/Parser.kt:197-198 | returns, consumes and logs exactly what `Statements.ForCond` defines |
| Parsing.Parser.ForPost | src/main/kotlin/Parser.kt:200-201 | returns, consumes and logs exactly what `Statements.ForPost` defines |
| Parsing.Parser.ForClauses | src/main/kotlin/Parser.kt:187-201 | returns, consumes and logs exactly what `Statements.ForClauses` defines |
| Parsing.Parser.ForStatement | src/main/kotlin/Parser.kt:186-216 | returns, consumes and logs exactly what `Statements.ForStatement` defines |
| Parsing.Parser.WhileStatement | src/main/kotlin/Parser.kt:148-158 | returns, consumes and logs exactly what `Statements.WhileStatement` defines |
| Parsing.Parser.IfStatement | src/main/kotlin/Parser.kt:218-227 | returns, consumes and logs exactly what `Statements.IfStatement` defines |
| Parsing.Parser.Statement | src/main/kotlin/Parser.kt:130-178 | returns, consumes and logs exactly what `Statements.Statement` defines |
| Parsing.Parser.PrintStatement | src/main/kotlin/Parser.kt:134-139 | returns, consumes and logs exactly what `Statements.PrintStatement` defines |
| Parsing.Parser.BlockStatement | src/main/kotlin/Parser.kt:170-173 | returns, consumes and logs exactly what `Statements.BlockStatement` defines |
| Parsing.Parser.Block | src/main/kotlin/Parser.kt:229-239 | returns, consumes and logs exactly what `Statements.Block` defines, and reports `Hang` where the source loops for ever |
| Parsing.Parser.Declaration | src/main/kotlin/Parser.kt:41-63 | returns, consumes and logs exactly what `Statements.Declaration` defines |
| Parsing.Parser.DeclarationRule | src/main/kotlin/Parser.kt:45-57 | returns, consumes and logs exactly what `Statements.DeclarationRule` defines |
| Parsing.Parser.Parse | src/main/kotlin/Parser.kt:34-39 | yields, consumes and logs exactly what `Statements.ParseFrom` defines; with `Nesting.ParseShape`, every statement it yields is well formed |

## Left out

- `Main.kt` and `Interpreter.kt` are not part of this model. Neither is evaluation, nor the `Double` conversion of number
  literals: a number keeps its lexeme, so `toDouble()` and `Double.repr()` are not modelled.
- The laziness of `parse()` and `scanTokens()` is not modelled. Both are generators; the model computes the whole
  sequence they deliver when iterated to the end, and how that iteration stops.
- `Parsing.Parser.Block`: where `block()` loops for ever, the method returns `Hang` instead of diverging. The
  divergence itself cannot be written as a terminating method.
- The `Log` object is not part of this model. `Log.err` is taken to append one diagnostic with the position set by its
  `start` and the given message, and `Log.errAndThrow` to do the same and then throw `ParseError` with that message.
  The `end` positions set by `scanStr`, `funcDecl` and `consumeIdent` are not modelled. The argument-limit diagnostic
  sets no `start` and carries no position.
- `peekSafe`, `matchAndConsume`, `match`, `next` and `end` over the current token type are not part of this model. They
  are taken to behave as in `Extensions.kt` and `Token.kt`: `peekSafe` throws `AbruptEndError` on exhausted input;
  `next` on exhausted input fails with a missing-element error.
- `IDENT`, `CharPos`, `Int.digits()` and the `TokenType` classes other than those in `Lexer.kt` are not part of this
  model. `IDENT` is taken to be the `IDENTIFIER` token type, a data class, so a name in a message prints as
  `IDENTIFIER(value=…)`.
- Messages that interpolate a `TokenType` object (`${LEFT_PAREN}` and the like) use Kotlin's default `toString` of that
  object. The model spells them with `repr()` instead, and `$kind` as `FUNCTION`, the only kind `declaration()` passes.
- `Token.toString()` of `Token.kt` and the `TypeError` and `InterpreterError` exceptions are not modelled. Nothing in
  the front end uses them.
- `scanError` of the current scanner is never set by the source; the model only keeps it unchanged.
- Several methods are split into helpers that each model one part of the source function, so that each can be proved
  against its own rule: `VarRest`, `FuncHead`, `FuncBody`, `ParamList`, `Names`, `PrintStatement`, `BlockStatement`,
  `DeclarationRule`, `ForInit`, `ForCond`, `ForPost`, `ForClauses`, `Condition`, `CallLoop`, `AssignRest`, and in the
  scanners `TakeRun`, `TakeFraction`, `StrBody`, `Pass` and `Emit`.
- The parser's trees extend those of `Expr.kt` and `Stmt.kt` with `Call`, `While`, `Function` and `Return`, which the
  parser builds but those files do not declare. The `ast()` rendering covers only the classes those files declare.
- Integers are unbounded. Line and column numbers never approach the 32-bit limit, so wrap-around is not modelled.

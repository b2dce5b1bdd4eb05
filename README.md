# Lox scanner and expression printer, modelled in Dafny

This project models two parts of a Lox interpreter written in Rust.

- **The scanner** (`src/lexer.rs`). A cursor over the source text, with the fields `start`, `current` and `line`, pushes tokens onto a `tokens` vector. It recognises single-character punctuation and the operators `!`, `!=`, `=`, `==`, `<`, `<=`, `>`, `>=`, using one character of lookahead. It also handles `/` and `//` line comments, skips whitespace and counts newlines. On any other character it stops with `Err((line, "Unexpected character"))`. A successful scan ends with one `EOF` token.
- **The expression printer** (`src/parser.rs`). It takes a closed `Expr` tree (`Binary`, `Grouping`, `Literal`, `Unary`) and renders it as a parenthesised prefix string such as `(* (- 123) (group 45.67))`.

The files:

- `tokens.dfy`, module `Tokens`: `TokenType`, `Token` (kind, lexeme, literal, line) and `Spelling`, the one spelling each token kind has in source text.
- `lexer.dfy`, module `Lexing`:
  - a functional specification of the scan. `StepAt` is one `scan_token` dispatch, `LineEnd` is the comment loop, and `ScanFrom`/`Lex` is the whole scan loop.
  - the lemmas that state what a scan produces.
  - the class `Lexer`, whose methods update `start`, `current`, `line` and `tokens` in place, as the Rust methods do. Each method is proved against the specification: `ScanTokens` returns what `ScanFrom` says and `ScanToken` does what `StepAt` says.
- `printer.dfy`, module `Printer`:
  - `Render`, a reference definition of the printed form with one equation per kind of node.
  - the printer's own structure, proved to produce exactly `Render`. `Accept` dispatches on the node. `Parenthesize` appends one printed operand at a time in a loop.
  - lemmas about the printed form.

The source text is modelled as a Dafny `string` (a sequence of characters). The Rust code indexes bytes. Every character the scanner accepts is ASCII, so the two views give the same tokens, lines and errors:

- a non-ASCII character outside a comment is rejected at its first byte, as an unrecognised character;
- one inside a comment is skipped in either view.

Only the unit of the cursor indices differs (bytes in Rust, characters here).

## Model

| member | source | states |
|---|---|---|
| `Tokens.Spelling` | src/lexer.rs:42-91 | each kind has one spelling, and only `EOF` has an empty one; no spelling holds a newline |
| `Lexing.LineEnd` | src/lexer.rs:86-89 | a `//` comment runs to the next newline, not included, or to the end of input; it holds no newline |
| `Lexing.Punctuation` | src/lexer.rs:42-51 | exactly the ten punctuation characters have a one-character kind, spelled as that character |
| `Lexing.Operator` | src/lexer.rs:52-83 | exactly `!`, `=`, `<`, `>` have an operator pair: a one-character kind among `Bang`, `Equal`, `Lesser`, `Greater` spelled as the character, and a two-character kind spelled as the character followed by `=` |
| `Lexing.StepAt` | src/lexer.rs:39-104 | every dispatch that does not fail advances the cursor by at least one and stays within the source |
| `Lexing.StepFacts` | src/lexer.rs:39-104 | a dispatch fails exactly on an unrecognised character and moves to the next line exactly on `\n`. It skips no newline. It emits the exact spelling of its kind. An emitted `!`, `=`, `<` or `>` token is the two-character kind whenever `=` follows. A lone `/` is never followed by `/` |
| `Lexing.StepDispatch` | src/lexer.rs:41-96 | a punctuation character emits a one-character token; `!`, `=`, `<`, `>` emit a two-character token when `=` follows and a one-character one otherwise; `/` emits `Slash` unless `/` follows, and then the step skips to the end of the line; a blank is skipped |
| `Lexing.StepNewlines` | src/lexer.rs:94-99 | a step raises the line counter by exactly the number of newlines it consumes: 1 for `\n`, 0 otherwise |
| `Lexing.EmittedToken` | src/lexer.rs:120-128 | the token a step pushes has the lexeme `source[start..current]`, an empty literal and the current line |
| `Lexing.ScanFrom` | src/lexer.rs:23-37 | the scan loop from a cursor position: a success ends with an `EOF` token on a line no lower than the starting one; a failure carries "Unexpected character" and a line no lower than the starting one |
| `Lexing.Lex` | src/lexer.rs:13-37 | the scan of a whole source from line 1: a success ends with `EOF`, and the `EOF` line and the error line are at least 1 |
| `Lexing.EndsWithSingleEof` | src/lexer.rs:29-36 | a successful scan ends with exactly one `EOF` token, with an empty lexeme and literal, on the starting line plus every newline scanned; every earlier token has an empty literal and is not `EOF` |
| `Lexing.TokenSpans` | src/lexer.rs:24-27 | every non-`EOF` token is an exact, non-empty slice of the source at a returned position. The slices are in increasing order and do not overlap. Each token's line is the starting line plus the newlines before its slice, and its lexeme is the spelling of its kind |
| `Lexing.FailsAtUnrecognised` | src/lexer.rs:23-101 | a failed scan failed at an unrecognised character, with that character's line and the message "Unexpected character"; it is the first error, since the text before that character scans successfully |
| `Lexing.RecognisedScans` | src/lexer.rs:41-103 | a source made only of recognised characters always scans successfully |
| `Lexing.Significant` | src/lexer.rs:84-99 | the text the scanner does not drop: no blank and no newline is left in it |
| `Lexing.SignificantStep` | src/lexer.rs:41-101 | a step that emits consumes exactly its lexeme of the significant text; a skip or newline consumes none of it; an unrecognised character is significant |
| `Lexing.ScanCoverage` | src/lexer.rs:23-104 | nothing is lost: the lexemes of a successful scan, one after another, are exactly the source text without its blanks, newlines and `//` comments |
| `Lexing.ScanSucceeds` | src/lexer.rs:23-104 | a scan succeeds if and only if every character outside blanks, newlines and comments is recognised; so an unrecognised character outside a comment always makes the scan fail |
| `Lexing.LexTokens` | src/lexer.rs:23-37 | for a fresh scanner (line 1): the tokens before `EOF` are slices, each on line 1 plus the newlines before it, and `EOF` is on line 1 plus all the newlines of the source |
| `Lexing.LexError` | src/lexer.rs:23-27 | a failed scan of a whole source reports 1 plus the newlines before the offending character, and the text before that character scans successfully |
| `Lexing.EmptySource` | src/lexer.rs:13-36 | the empty source scans to just `EOF` on line 1 |
| `Lexing.BangExamples` | src/lexer.rs:52-59 | `!=` is one `BangEqual` token; a lone `!` is one `Bang` token |
| `Lexing.CommentExample` | src/lexer.rs:84-99 | a comment yields no token, its newline still counts, and a lone `/` is `Slash` |
| `Lexing.UnexpectedExamples` | src/lexer.rs:101 | digits and `"` are not scanned: they fail with the line they are on |
| `Lexing.Lexer.constructor` | src/lexer.rs:13-21 | a new scanner has no tokens, both cursors at 0 and line 1 |
| `Lexing.Lexer.ScanTokens` | src/lexer.rs:23-37 | the result is the tokens already pushed followed by the scan from the cursor, or the first error; on success the pushed tokens are the result, the cursor is at the end and the line counter is the `EOF` token's line |
| `Lexing.Lexer.ScanToken` | src/lexer.rs:39-104 | one call advances `current` by at least one and does exactly what `StepAt` says: push one token, skip, count a newline, or fail with the current line after consuming exactly the offending character |
| `Lexing.Lexer.Advance` | src/lexer.rs:106-110 | returns the character at the cursor and moves the cursor by one |
| `Lexing.Lexer.Peek` | src/lexer.rs:112-118 | the character at the cursor, or `'\0'` at the end |
| `Lexing.Lexer.AddToken` | src/lexer.rs:120-122 | pushes a token whose lexeme is `source[start..current]`, with an empty literal |
| `Lexing.Lexer.AddTokenWithLiteral` | src/lexer.rs:124-128 | pushes a token whose lexeme is `source[start..current]`, with the given literal and the current line |
| `Lexing.Lexer.IsAtEnd` | src/lexer.rs:130-132 | true exactly when the cursor has reached the end of the source |
| `Lexing.Lexer.IsNext` | src/lexer.rs:134-144 | consumes one character exactly when it is the expected one, and never moves past the end |
| `Lexing.Scan` | src/lexer.rs:13-37 | a fresh scanner run once returns exactly `Lex(source)` |
| `Printer.List` | src/parser.rs:55-69 | a parenthesised list starts with `(`, ends with `)`, and holds exactly the name and the operands |
| `Printer.Render` | src/parser.rs:72-95 | the printed form is never empty, and every non-literal node prints as a bracketed list |
| `Printer.Spaced` | src/parser.rs:63-66 | the operands the loop appends: empty exactly for no operands, otherwise starting with a space and at least two characters per operand |
| `Printer.Print` | src/parser.rs:51-53 | printing never fails and yields `Render(e)` |
| `Printer.Accept` | src/parser.rs:35-46 | dispatching on the node yields `Render(e)`. An empty literal prints as `nil` and any other literal as its value. A grouping prints as `(group e)`, a binary node as `(op l r)` with left before right, and a unary node as `(op r)` |
| `Printer.Parenthesize` | src/parser.rs:55-69 | the output is `(`, the name, each printed operand after one space in list order, then `)` |
| `Printer.ParenthesesBalanced` | src/parser.rs:55-69 | when no literal or operator text holds a parenthesis, the printed form has one `(` and one `)` per non-literal node |
| `Printer.LiteralParens` | src/parser.rs:85-91 | a literal without parentheses prints without parentheses, `nil` included |
| `Printer.NegationPrints` | src/parser.rs:92-94 | `Unary(-, 123)` prints as `(- 123)` |
| `Printer.GroupPrints` | src/parser.rs:82-84 | `Grouping(45.67)` prints as `(group 45.67)` |
| `Printer.SamplePrints` | src/parser.rs:103-121 | the test tree prints exactly `(* (- 123) (group 45.67))` |

## Left out

- The driver in `src/lox.rs`: argument parsing, file reading, the interactive prompt, printing to stdout and stderr, and exit codes. This is process input and output. Its call `Lexer::new()` followed by `scan_tokens(source)` also matches neither signature in `src/lexer.rs`.
- String, number, identifier and keyword scanning: the code has none; `"`, digits and letters reach the error arm at src/lexer.rs:101.
- Byte-level UTF-8 handling. The source is a sequence of characters, as explained above.
- `Token::to_string` (src/token.rs:21-23). It prints the derived `Debug` form of `TokenType`, which is defined in a file that is not part of this model.
- The generic `Parser` trait and its `Output` type. Only the string-producing printer is modelled. The always-`Ok` `Result` of `accept` and `parenthesize` is dropped, so `unwrap` cannot fail.
- `usize` overflow of `current` and `line`. Both are unbounded naturals here. The cursor never passes the source length, and the line counter grows by one per newline.
- Lexing.Lexer.Advance: requires the cursor to be inside the source, where the Rust code would panic on an out-of-range index. Every caller checks this first.
- Lexing.Lexer.AddToken: requires `start <= current <= |source|`, where the Rust slice `source[start..current]` would panic otherwise. Every caller keeps this.
- Lexing.Lexer.AddTokenWithLiteral: requires `start <= current <= |source|`, for the same reason as `AddToken`.
- Lexing.Lexer.ScanTokens: the scanner's state after an error (the tokens pushed so far, `current` one past the offending character) is not specified. Only the returned error is, since nothing reads the private fields after a failed scan.
- The `#[derive(Default)]` scanner (empty source, line 0) is not modelled separately; `Valid` does not constrain the line, so such a state meets it.

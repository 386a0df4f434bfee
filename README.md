# Tokenizer and term parser of a small expression language

This project models the front end of a small interpreter, written in Rust.

- **Tokenizer** (`src/lexer.rs`). It walks a source string with a `position` cursor. At each position it dispatches on the current character and produces a list of `Token`s. Each token carries a `TokenType`: an identifier, a 32-bit integer or a string literal; one of `+ - * /`; `=` or `==`; one of `( )`; `;`; or `Invalid` holding an unrecognised character.
- **Parser** (`src/parser.rs`). It holds such a token list and its own cursor. It builds an `AstNode` tree with the production `term -> primary (("-" | "+") primary)*`, as a left fold.

Both are classes whose methods change only the cursor. Each method is proved against a pure function:

- `Lexer.Tokenizer.NextToken` against `Lexer.Scan`, the one-step dispatch.
- `Lexer.Tokenizer.Tokenize` against `Lexer.Lex`, the whole run.
- `Parsing.Parser.ProdTerm` against `Parsing.Term` and `Parsing.Fold`.

Then `LexerProperties` and `ParsingProperties` prove what those functions do, case by case, against independent descriptions.

Every panic in the Rust code becomes an explicit error value, and so does the `process::exit(1)` for an unterminated `"` string:

- Lexer errors are `LexFailure`: `ExitUnterminatedString`, `PanicUnterminatedString`, `PanicCharOutOfRange`, `PanicIntegerOverflow`.
- Parser errors are `ParseFailure`: `IndexOutOfBounds(index, length)`.

Rust's `usize` cursor is a `nat`. `i32` is a newtype over its exact range.

In several places the code does not do what its type and function names suggest, and the model follows the code:

- There is no end-of-input token, no keyword table and no `,` token. A source made only of blanks yields the empty list (`LexerProperties.BlankSourceYieldsNothing`).
- A digit run or identifier run that reaches the end of the source is cut to its first character. The lookahead loop over the rest of the source never finds a stop, so `skip` stays 0. The remaining characters are then scanned again one by one. When the scan reaches a `12` at the very end of the source as the start of a token, it yields the integers `1` and `2` (`LexerProperties.TrailingDigitsOneByOne`).
- `prod_primary` advances the cursor *before* reading. So a term starting at cursor `p` wraps `tokens[p + 1]`, and the first token is never looked at. The loop guard then tests the token the last primary wrapped, so every operator in the tree is the same token as the operand to its left (`ParsingProperties.TermTree`). As a result:
  - The tokens of `1 + 2 - 3` do not parse to `(1 + 2) - 3`. They fail reading index 5 of 5 (`ParsingProperties.ArithmeticParse`).
  - `x = 10;` parses to the lone literal `=` (`ParsingProperties.AssignmentParse`).

Modules:

- `Results` (`results.dfy`): `Option` and `Result`.
- `Lexer` (`lexer.dfy`): tokens, scan functions, class `Tokenizer`.
- `LexerProperties` (`lexer_properties.dfy`).
- `Parsing` (`parser.dfy`): `AstNode`, `Fold`/`Term`, class `Parser`.
- `ParsingProperties` (`parser_properties.dfy`).

## Model

| member | source | states |
|---|---|---|
| Lexer.Tokenizer.constructor | src/lexer.rs:52-54 | A new tokenizer holds the source with its cursor at 0. |
| Lexer.Tokenizer.Tokenize | src/lexer.rs:56-72 | The result is `Lex(source, position)`: the tokens of every dispatch step concatenated, or the first failure. On success the loop has stopped exactly when the cursor reached the end of the source. |
| Lexer.Tokenizer.IsAtEnd | src/lexer.rs:74-76 | True exactly when the cursor is at or past the end of the source. |
| Lexer.Tokenizer.LookaheadStringLiteral | src/lexer.rs:85-105 | If there is a later matching quote, the cursor lands on the first one and the result is the text strictly between the quotes. If there is none, the result is `None` and the cursor does not move. |
| Lexer.Tokenizer.LookaheadIdentifierLiteral | src/lexer.rs:107-119 | The cursor lands on the last identifier character before the first non-identifier character. If the run reaches the end it stays where it was. The result is the text from the old cursor through the new one. |
| Lexer.Tokenizer.LookaheadIntegerLiteral | src/lexer.rs:121-137 | The cursor lands as for identifiers, with digits as the run. The slice is all digits. The result is its decimal value as `i32`, or the overflow panic with the slice when the value exceeds `i32::MAX`. |
| Lexer.Tokenizer.LookaheadOperatorDouble | src/lexer.rs:140-151 | If the next character exists, the result says whether it equals `c`, and the cursor moves onto it exactly when it does; the `tokenize` loop's own increment then moves past it. If it does not exist, the result is the out-of-range panic at `position + 1`. |
| Lexer.Tokenizer.GetChar | src/lexer.rs:163-166 | Succeeds exactly when the index is inside the source, with that character. Otherwise it is the out-of-range panic at that index. |
| Lexer.Tokenizer.NextToken | src/lexer.rs:168-249 | It produces the token (or no token) and the final cursor that `Scan` gives at the old cursor, or `Scan`'s failure. |
| Lexer.FindStop | src/lexer.rs:88-93 | Finds the first position at or after `from` whose character stops the scan, with no stop before it. `None` means no character from `from` on stops it. |
| Lexer.RunLast | src/lexer.rs:109-116 | The cursor after a run stays within the source. Every character after the start, up to and including it, continues the run. |
| Lexer.IsNumeric | src/lexer.rs:222 | A digit is `0`-`9`. `LexerProperties.CharClasses` relates this to the identifier predicates. |
| Lexer.CharIsIdentifierStart | src/lexer.rs:155-157 | An identifier starts with an ASCII letter or `_`. `LexerProperties.CharClasses` shows that a digit never starts one. |
| Lexer.CharIsIdentifier | src/lexer.rs:159-161 | An identifier continues with an ASCII letter, a digit or `_`. `LexerProperties.CharClasses` shows this is exactly start-or-digit. |
| Lexer.DecimalValue | src/lexer.rs:134-135 | This is the value `parse` gives a slice of digits, most significant first. `LexerProperties.DecimalValueBelowPow10`, `LeadingZero` and `I32Boundary` bound it and fix it at the `i32` limit. |
| Lexer.ScanStringLiteral | src/lexer.rs:187-203 | On success the cursor is on the first later quote of the same kind, with no such quote in between, and the token is the text strictly between the quotes. On failure no later quote of that kind exists, and the failure is the exit for `"` and the panic for `'`. |
| Lexer.ScanEquals | src/lexer.rs:205-215 | It fails exactly when `=` is the last character, with the out-of-range panic at the source length. Otherwise a following `=` gives `DoubleEquals` with the cursor on the second `=`, and anything else gives `Equals` with the cursor unmoved. |
| Lexer.ScanIntegerLiteral | src/lexer.rs:217-225 | The digit run is `s[pos .. RunLast(s, pos, NonNumeric) + 1]`: it is all digits, and on success the cursor lands on its last digit. On success its value fits in `i32` and is the token's value. On failure the overflow panic carries exactly that run, whose value exceeds `i32::MAX`. |
| Lexer.ScanIdentifierLiteral | src/lexer.rs:227-231 | It always succeeds. The cursor stays inside the source, every character after the first through the cursor continues an identifier, and the token is that slice. |
| Lexer.Scan | src/lexer.rs:169-249 | A successful step leaves the cursor inside the source, at or after where it started. |
| Lexer.Lex | src/lexer.rs:56-72 | The whole run from a position: each step's token appended in order, or the first step's failure. A successful run yields at most one token per remaining character. |
| Lexer.LexAdvances | src/lexer.rs:60-67 | One loop iteration keeps the loop invariant. The tokens gathered so far, followed by the tokens from the new position on, are the tokens of the whole run. |
| LexerProperties.CharClasses | src/lexer.rs:154-161 | Every identifier start continues an identifier. Digits continue identifiers but never start one. `char_is_identifier` is exactly start-or-digit. |
| LexerProperties.FindStopAt | src/lexer.rs:88-93 | A scan returns the first stop character when all the characters before it continue the run. |
| LexerProperties.FindStopNone | src/lexer.rs:88-93 | A scan over characters none of which stops it finds nothing. |
| LexerProperties.RunLastBeforeStop | src/lexer.rs:109-116 | A run followed by a stop at `e` leaves the cursor on `e - 1`. |
| LexerProperties.RunLastAtEnd | src/lexer.rs:109-116 | A run that reaches the end of the source leaves the cursor where it was. |
| LexerProperties.DecimalValueBelowPow10 | src/lexer.rs:134-135 | `n` digits denote less than 10^n. |
| LexerProperties.ShortRunsFit | src/lexer.rs:134-135 | A run of at most nine digits never overflows `i32`. |
| LexerProperties.LeadingZero | src/lexer.rs:134-135 | A leading `0` does not change the parsed value. |
| LexerProperties.I32Boundary | src/lexer.rs:5 | `2147483647` parses to `i32::MAX`, and `2147483648` is one more, so it overflows. |
| LexerProperties.ScanQuote | src/lexer.rs:187-203 | A `"` or `'` dispatches to the string-literal scan. |
| LexerProperties.ScanDigit | src/lexer.rs:217-225 | A digit dispatches to the integer-literal scan. |
| LexerProperties.ScanIdentifierStart | src/lexer.rs:227-231 | A letter or underscore dispatches to the identifier scan. |
| LexerProperties.BlankIsSkipped | src/lexer.rs:184-185 | A space or newline yields no token and consumes one character. |
| LexerProperties.BlankSourceYieldsNothing | src/lexer.rs:56-72 | A source of only spaces and newlines tokenizes to the empty list. |
| LexerProperties.SingleCharacterTokens | src/lexer.rs:177-183 | Each of `( ) + - * / ;` yields one token of its kind and consumes one character. |
| LexerProperties.EqualsSign | src/lexer.rs:205-215 | `==` yields `DoubleEquals` and consumes two characters. `=` before any other character yields `Equals` and consumes one. `=` as the last character fails reading past the end. |
| LexerProperties.StringLiteralToken | src/lexer.rs:187-203 | A quoted string yields the text between the opening quote and the next quote of the same kind, and resumes after the closing quote. |
| LexerProperties.EmptyStringLiteral | src/lexer.rs:97-103 | Two adjacent equal quotes yield the empty string. |
| LexerProperties.UnterminatedStringLiteral | src/lexer.rs:187-203 | An unclosed `"` ends the run with the exit. An unclosed `'` ends it with a panic. |
| LexerProperties.IntegerLiteralToken | src/lexer.rs:121-137 | A digit run followed by a non-digit yields its decimal value and resumes at the non-digit, or fails with overflow when the value exceeds `i32::MAX`. |
| LexerProperties.IntegerRunAtEnd | src/lexer.rs:124-134 | A digit run that reaches the end yields only its first digit's value. |
| LexerProperties.TrailingDigitsOneByOne | src/lexer.rs:56-72 | Digits at the end of the source tokenize one integer token per digit. |
| LexerProperties.IdentifierToken | src/lexer.rs:107-119 | An identifier run followed by a non-identifier character yields the whole run and resumes at that character. |
| LexerProperties.IdentifierRunAtEnd | src/lexer.rs:107-119 | An identifier run that reaches the end yields only its first character. |
| LexerProperties.InvalidCharacter | src/lexer.rs:233-236 | Any character no case recognises yields `Invalid` with that character and consumes one character. |
| LexerProperties.AssignmentExample | src/lexer.rs:56-72 | `x = 10;` tokenizes to `x = 10 ;`. The proof goes suffix by suffix through unlisted helper lemmas. |
| LexerProperties.ArithmeticExample | src/lexer.rs:56-72 | `1 + 2 - 3` tokenizes to `1 + 2 - 3`, the final `3` reaching the end as a one-digit run. The proof goes suffix by suffix through unlisted helper lemmas. |
| Parsing.IsAdditive | src/parser.rs:60-61 | The loop guard: a token kind is `Plus` or `Minus`. `ParsingProperties.TermTree` shows that every operator in a parsed tree satisfies it. |
| Parsing.Fold | src/parser.rs:60-73 | The loop either stops on a token that is neither `+` nor `-`, an even distance from where it began, or fails on an index at or past the end of the token list. |
| Parsing.Term | src/parser.rs:55-77 | A term ends an odd distance past its start, on a token inside the list, or fails on an index at or past the end. |
| Parsing.Parser.constructor | src/parser.rs:30-35 | A new parser holds the token list with its cursor at 0. |
| Parsing.Parser.Parse | src/parser.rs:37-39 | Parsing is the term production: the same tree and final cursor as `Term`, or its failure. |
| Parsing.Parser.GetCurrentToken | src/parser.rs:41-43 | This is the token under the cursor, or the out-of-range failure at the cursor. |
| Parsing.Parser.ProdPrimary | src/parser.rs:48-53 | The cursor advances by one, and the token now under it is wrapped as a literal. If that index is past the end, it fails there. |
| Parsing.Parser.ProdTerm | src/parser.rs:55-77 | It yields `Term`'s tree and leaves the cursor at `Term`'s final position, or yields `Term`'s failure. The token list is not changed. |
| ParsingProperties.ContinuesPrefix | src/parser.rs:60-61 | Continuing for `n` primaries implies continuing for fewer. |
| ParsingProperties.ContinuesExtend | src/parser.rs:60-61 | A `+`/`-` token wrapped by the last primary extends the term by one more primary. |
| ParsingProperties.ChainShape | src/parser.rs:60-73 | The left fold of `n + 1` primaries has only `+`/`-` operators and a literal as every right operand. It has `n` operators, each the token of its left operand's last literal, and it ends on the last primary's token. |
| ParsingProperties.ChainOperands | src/parser.rs:58-73 | The operands of the fold, left to right, are the tokens at `pos + 1`, `pos + 3`, ..., `pos + 1 + 2n`. |
| ParsingProperties.FoldCompletes | src/parser.rs:60-73 | Once entered, the loop runs to the first primary that does not continue and returns the chain up to it. |
| ParsingProperties.FoldRunsOut | src/parser.rs:60-73 | Once entered, the loop fails reading the primary past the end when every earlier one continued. |
| ParsingProperties.FoldSucceeds | src/parser.rs:60-73 | A successful loop ends on a primary every earlier one continued to, and its tree is the chain. |
| ParsingProperties.FoldFails | src/parser.rs:60-73 | A failing loop fails reading a primary, every earlier one having continued. |
| ParsingProperties.TermSucceeds | src/parser.rs:55-77 | A successful term ends on its `n`-th primary, with `n` iterations. Each earlier primary's token was `+` or `-`, the last is not, and the tree is their left fold. |
| ParsingProperties.TermCompletes | src/parser.rs:55-77 | Conversely, such tokens parse to exactly that left fold and cursor. |
| ParsingProperties.TermFails | src/parser.rs:55-77 | A failing term fails reading some primary at or past the end, every earlier one having continued. |
| ParsingProperties.TermRunsOut | src/parser.rs:55-77 | Conversely, such tokens fail at exactly that index. |
| ParsingProperties.TermTree | src/parser.rs:55-77 | A parsed tree has only `+`/`-` operators, leans to the left and has one operator per iteration. Each operator repeats its left operand's last token. Its operands are the tokens at every other position from `pos + 1` up to the final cursor. |
| ParsingProperties.SkippedFirstToken | src/parser.rs:48-53 | `x + y 1` parses to `(+) + 1`: the first token is never read. |
| ParsingProperties.AssignmentParse | src/parser.rs:55-77 | The tokens of `x = 10;` parse to the literal `=`, with the cursor at 1. |
| ParsingProperties.ArithmeticParse | src/parser.rs:55-77 | The tokens of `1 + 2 - 3` fail to parse, reading index 5 of 5. |

## Left out

- `src/main.rs` is not part of this model. It reads a hardcoded file, prints the tokens and never declares `mod parser`, so the parser is not compiled into the binary.
- Text written to standard error (`eprintln!`, panic messages) and the exit code are not modelled. Only which failure ends the run is kept.
- After a failure, the cursor left in the object is not specified, because the Rust process stops there.
- Lexer.Tokenizer.Tokenize: requires an ASCII source. The Rust mixes character indexing (`chars().nth`, `chars().skip`) with byte slicing, and the two agree only on ASCII text.
- Lexer.Tokenizer.constructor: requires an ASCII source, for the same reason.
- Lexer.IsNumeric: only `0`-`9`, where Rust's `char::is_numeric` also accepts other Unicode digits. Over ASCII the two agree.
- `lookahead` (`src/lexer.rs:80-83`) is folded into the three scanning loops. Each one iterates over the source from `position + 1`.
- `Token::new` (`src/lexer.rs:36-40`) is the datatype constructor `Token`.
- The `Debug` and `Clone` derives are dropped, and tokens are plain values. `src/parser.rs` calls `.clone()` on a `Token`, which does not derive `Clone`, so that file as written does not compile.
- The `usize` cursor is unbounded. Overflow of `position + 1` cannot occur on a source that fits in memory.

# rox in Dafny

This is a model of the front end and evaluator of rox, a Rust interpreter
for an expression subset of Lox. The model has four parts.

- **Scanner.** It turns text into tokens. The class `Scanning.Scanner`
  models the source's cursor, its token list and the `error` reports. Each
  of its methods is proved to have the effect that module `Lexical`
  describes with functions.
- **Parser.** It is recursive descent over the token list with one method
  per precedence level. The class `Parsing.Parser` models it. Each method
  is proved to return what module `Grammar` computes for its level, and to
  leave the cursor where that parse stops.
- **Printer.** It prints a syntax tree in Lisp style (module `Exprs`).
- **Evaluator.** It walks a tree and computes a value, or an error, or
  reaches a `panic!` (module `Interpreter`).

Module `Pipeline` chains scanning and parsing as `run` in `src/main.rs`
does.

Proved properties:

- **Parse and unparse.** For every tree of the grammar, its tokens parse
  back to that tree, and parsing stops right after them.
- **Parser soundness.** Every tree the parser yields is a tree of the
  grammar.
- **Precedence and associativity.** Operators nest by precedence, and
  binary operators chain to the left.
- **Parse errors.** Every failure names the token where the parse stopped,
  with one of the two messages.
- **`synchronize`.** It stops at the first statement boundary.
- **Scanner bounds.**
  - Lines rise by exactly the newlines consumed.
  - Tokens before `EOF` come out in line order.
  - Every lexeme is a stretch of the input.
  - `EOF` is added once, at the end.
- **Evaluation.**
  - Operators dispatch on the types of their operands.
  - Errors propagate left first.
  - Parentheses do not change the value.

The model keeps several defects of the source as written. A comment marks
each one, and a lemma states it:

- numeric `+` subtracts (`PlusSubtracts`);
- `false` and `true` are read swapped (`SwappedBooleans`);
- `!=` is not negated (`NotEqualSaysEqual`);
- `==` panics (`EqualEqualPanics`);
- `is_alpha` accepts the range `'A'..='z'`, so `a[0]` is one identifier
  (`BracketsJoinIdentifiers`);
- the `EOF` token carries line 23 (`Scan`), so when any token lies on
  line 24 or later, the final `EOF` is out of line order.

## Model

| member | source | states |
|---|---|---|
| Tokens.NewToken | src/token.rs:15-22 | Each argument lands in its like-named field, although the argument order (kind, lexeme, literal, line) differs from the field order. |
| Tokens.KindName | src/token.rs:28 | The `{:?}` name of a kind is non-empty and has no space. |
| Tokens.Display | src/token.rs:26-30 | The text is the kind name, the lexeme and the literal, joined by single spaces. Its length is the sum of theirs plus two. |
| Tokens.DisplayOmitsLine | src/token.rs:26-30 | Changing the line of a token does not change its display. |
| Tokens.DisplayKindIsFirstWord | src/token.rs:28 | The first space of a display comes right after the kind name. |
| Exprs.ToString | src/expr.rs:13-20 | A literal prints as its value's text, and every other node prints as one parenthesised form (its exact layout per kind is stated by `BinaryUsesExprParen` and `OneOperandForms`, its parentheses are counted by `ParensPerNode`). |
| Exprs.ExprParen | src/expr.rs:23-31 | The text built by appending is `"(" + name`, then each sub-expression preceded by one space, then `")"`. |
| Exprs.OneOperandForms | src/expr.rs:17-18 | A unary node prints as `(op operand)` and a grouping as `(group inner)`: the same layout as `expr_paren` with one part. |
| Exprs.BinaryUsesExprParen | src/expr.rs:15 | A binary node prints as `"(" + op.lexeme + " " + left + " " + right + ")"`. |
| Exprs.ParenTextLayout | src/expr.rs:23-31 | The output starts with `"(" + name`, contains part k after a space at the place its predecessors end, and ends with one `")"`. |
| Exprs.ParensPerNode | src/expr.rs:13-20 | If lexemes and literal texts hold no parentheses, the printed text has exactly one `(` and one `)` per non-literal node. |
| Lexical.AlphaIsOneRange | src/scanner.rs:250-252 | `is_alpha` holds exactly on `'A'..='z'` and `'_'`; the range `'a'..='z'` adds nothing. |
| Lexical.AlphaAdmitsPunctuation | src/scanner.rs:246-252 | `[`, `\`, `]`, `^` and the backquote count as letters. NUL, newline and space are not alphanumeric. |
| Lexical.KeywordTable | src/scanner.rs:21-40 | Every keyword is lower-case and non-empty, and none maps to `Identifier` or `EOF`. |
| Lexical.SkipWhile | src/scanner.rs:147-149 | The run of characters of one class from `i` is maximal: all inside belong to the class, and the next one does not. |
| Lexical.NumberShapeParses | src/scanner.rs:199-204 | The model's `ParseNumber` succeeds exactly on digit+ ('.' digit+)?, the shape of every number lexeme, so the `unwrap` after the parse cannot fail. |
| Lexical.NumberEnd | src/scanner.rs:186-197 | The number lexeme that starts at a digit ends within the input and has the number shape. |
| Lexical.WordKind | src/scanner.rs:156-159 | An identifier-like lexeme is its keyword's kind when it is in the table, and `Identifier` otherwise. |
| Lexical.ScanStep | src/scanner.rs:65-131 | One `scan_token` consumes at least one character and stays inside the input. The line rises by the newlines consumed. It appends at most one token (never `EOF`, its lexeme the consumed text) or reports at most one error. |
| Lexical.ScanFrom | src/scanner.rs:54-57 | After the loop, the line is the starting line plus the newlines in the rest of the input. |
| Lexical.Scan | src/scanner.rs:53-63 | The tokens end with the `EOF` token of line 23, and no other token is `EOF`. |
| Lexical.ScanIsBounded | src/scanner.rs:54-57 | Tokens and errors together are no more than the characters scanned. |
| Lexical.ScanHasNoEof | src/scanner.rs:65-131 | The loop itself never produces `EOF`. |
| Lexical.ScanLinesBounded | src/scanner.rs:119 | Every token's line lies between the first line and the last. |
| Lexical.ScanLinesAscend | src/scanner.rs:138-144 | The tokens of the scanning loop, that is all tokens before `EOF`, come out in line order. |
| Lexical.LexemesAreSlices | src/scanner.rs:138-144 | Every lexeme is a contiguous stretch of the input. |
| Lexical.ScanErrors | src/scanner.rs:170-173 | Every report is "Unexpected character" or "unterminated string" on a line within the scan. An unterminated string is the last report. |
| Lexical.PunctuationStep | src/scanner.rs:68-77 | A punctuation character is one token with no literal. |
| Lexical.OperatorPairing | src/scanner.rs:78-105 | `!`, `=`, `<` and `>` take a following `=` into a two-character token, and otherwise make the one-character token. |
| Lexical.BlankStep | src/scanner.rs:116-119 | Blanks produce nothing; a newline only advances the line. |
| Lexical.SlashStepCases | src/scanner.rs:106-115 | `//` skips to the next newline and leaves it unread; a lone `/` is `Slash`. |
| Lexical.StringLiteralCases | src/scanner.rs:162-183 | A string runs to the next `"`, newlines included. Its literal is the text between the quotes, on the line where it ends. Without a closing quote, the scan reports "unterminated string" at the end of the input. |
| Lexical.NumberLexeme | src/scanner.rs:186-206 | A number lexeme is maximal, has the shape digit+ ('.' digit+)?, takes a `.` only before a digit, and its literal is its value. |
| Lexical.WordLexeme | src/scanner.rs:146-160 | An identifier is the longest alphanumeric run. It is a keyword exactly when the table holds its text. |
| Lexical.UnexpectedCharacterStep | src/scanner.rs:123-128 | Any other character is reported as "Unexpected character" and skipped. |
| Lexical.TrailingDotIsSeparate | src/scanner.rs:191-197 | `12.` scans as `Number 12`, then `Dot`, then `EOF`. |
| Lexical.BracketsJoinIdentifiers | src/scanner.rs:250-252 | `a[0]` scans as the one identifier `a[0]`, then `EOF`. |
| Scanning.Scanner.constructor | src/scanner.rs:43-51 | A fresh scanner is at position 0 on line 1, with no tokens. |
| Scanning.Scanner.Advance | src/scanner.rs:221-224 | Returns the character at the cursor and moves past it; nothing else changes. |
| Scanning.Scanner.MatchNext | src/scanner.rs:209-218 | Consumes the next character exactly when it is the expected one. |
| Scanning.Scanner.AddToken | src/scanner.rs:138-144 | Appends one token whose lexeme is `source[start..current]`, on the current line. |
| Scanning.Scanner.Add | src/scanner.rs:134-136 | Like `add_token`, with the literal `Nil`. |
| Scanning.Scanner.Error | src/main.rs:98-100 | Appends one report (line, message); nothing else changes. |
| Scanning.Scanner.ScanIdentifier | src/scanner.rs:146-160 | Has the effect of `IdentifierStep`. |
| Scanning.Scanner.ScanString | src/scanner.rs:162-183 | Has the effect of `StringStep`. |
| Scanning.Scanner.CloseString | src/scanner.rs:170-183 | The end of `scn_string` (the report, or the closing quote and the token) completes `StringStep`. |
| Scanning.Scanner.ScanNumber | src/scanner.rs:186-206 | Has the effect of `NumberStep`. |
| Scanning.Scanner.ScanToken | src/scanner.rs:65-131 | Has the effect of `ScanStep` on cursor, line, tokens and reports. |
| Scanning.Scanner.ScanTokens | src/scanner.rs:53-63 | The tokens are those of `ScanFrom` then `EOF`, the reports those of `ScanFrom`, and the cursor is at the end. |
| Grammar.OperatorsListed | src/parser.rs:40-79 | A kind is in a level's `match_tokens` list exactly when it is an operator of that level. |
| Grammar.ParseLevel | src/parser.rs:37-85 | Parsing at a level never moves the cursor back or past `EOF`. |
| Grammar.ParseMore | src/parser.rs:40-44 | The operator loop of a binary level never moves the cursor back or past `EOF`. |
| Grammar.ParsePrimary | src/parser.rs:87-114 | `primary` never moves the cursor back or past `EOF`. |
| Grammar.ParseGroup | src/parser.rs:100-107 | The parenthesised case never moves the cursor back or past `EOF`. |
| Grammar.Parse | src/parser.rs:29-31 | `parse` stops on a token of the list. |
| Grammar.LevelErrorAt | src/parser.rs:109-112 | Every failure names the token at the stopping cursor and carries "Expect Expression" or "Expect ')' after expression.". |
| Grammar.LevelDerives | src/parser.rs:37-114 | Every tree parsed at a level is derived by that level's grammar rule. |
| Grammar.BinaryNesting | src/parser.rs:37-76 | In a derived tree, a binary operator's left operand is of the same or tighter precedence and its right operand strictly tighter (left associativity). |
| Grammar.NoBinaryBelowFactor | src/parser.rs:78-114 | `unary` and `primary` derive no binary node at the top. |
| Grammar.LevelComplete | src/parser.rs:37-114 | The tokens of a derived tree, followed by a token that ends the level, parse to that tree and stop right after it. |
| Grammar.ParseUnparse | src/parser.rs:29-31 | For every tree of the grammar, its tokens plus any rest that starts with no binary operator parse to the tree, stopping right after its tokens. |
| Grammar.NoExpression | src/parser.rs:109-112 | A token that starts no expression makes every level fail with "Expect Expression" at that token. |
| Grammar.SwappedBooleans | src/parser.rs:88-93 | The token `false` parses to the value `true`, and `true` to `false`. |
| Grammar.SyncFromIsFirstStop | src/parser.rs:116-130 | The recovery loop stops at the first place from its start that is `EOF`, after a `;`, or before `return`. |
| Parsing.Parser.constructor | src/parser.rs:22-27 | The parser holds the list with its cursor at 0. |
| Parsing.Parser.Advance | src/parser.rs:164-169 | Moves one token on unless at `EOF`, and returns the token before the cursor. |
| Parsing.Parser.MatchTokens | src/parser.rs:142-150 | Advances by one exactly when the current token is not `EOF` and its kind is in the list. |
| Parsing.Parser.Consume | src/parser.rs:132-140 | Returns the current token and advances when it has the kind; otherwise returns an error at that token with the message. |
| Parsing.Parser.Synchronize | src/parser.rs:116-130 | Advances once, then stops where `SyncFrom` says: the first boundary. |
| Parsing.Parser.Parse | src/parser.rs:29-31 | Returns and stops where `ParseLevel` at `equality` does. |
| Parsing.Parser.Expression | src/parser.rs:33-35 | Returns and stops where `ParseLevel` at `equality` does. |
| Parsing.Parser.Equality | src/parser.rs:37-46 | Returns and stops where `ParseLevel` at `equality` does. |
| Parsing.Parser.Comparison | src/parser.rs:48-56 | Returns and stops where `ParseLevel` at `comparison` does. |
| Parsing.Parser.Term | src/parser.rs:58-66 | Returns and stops where `ParseLevel` at `term` does. |
| Parsing.Parser.Factor | src/parser.rs:68-76 | Returns and stops where `ParseLevel` at `factor` does. |
| Parsing.Parser.Unary | src/parser.rs:78-85 | Returns and stops where `ParseLevel` at `unary` does. |
| Parsing.Parser.Primary | src/parser.rs:87-96 | Returns and stops where `ParseLevel` at `primary` does. |
| Parsing.Parser.Operand | src/parser.rs:97-113 | After the keyword literals, returns and stops where `ParsePrimary` does. |
| Parsing.Parser.Group | src/parser.rs:100-107 | After a `(`, returns and stops where `ParseGroup` does. |
| Interpreter.Truthy | src/interpreter.rs:116-122 | False exactly for `Nil` and `Boolean(false)`. |
| Interpreter.IsEqual | src/interpreter.rs:124-132 | True exactly when the two values are equal. |
| Interpreter.IsEqualLaws | src/interpreter.rs:124-132 | `isEqual` is reflexive, symmetric and transitive. Values of different kinds are never equal. |
| Interpreter.BinaryOp | src/interpreter.rs:36-94 | Panics exactly on unhandled operators (`==` among them). The numeric operators fail exactly on non-numbers. `+` fails exactly unless both operands are numbers or both strings. Each failure carries its operator's message. Division by zero is the only non-finite case. On two numbers, `-` subtracts, `+` subtracts too, `*` multiplies, `/` by a non-zero divides, and `>`, `>=`, `<`, `<=` yield the truth of that comparison. `+` on two strings concatenates them, left first. `!=` yields un-negated equality. |
| Interpreter.UnaryOp | src/interpreter.rs:99-109 | Never panics. Yields a value exactly for `!`, or for `-` on a number. `!` is the negated truthiness, and `-` on `Number(n)` is `Number(-n)`. Failures carry "Unary Expression must be number" or "Invalid unary expression". |
| Interpreter.Eval | src/interpreter.rs:31-113 | A panic carries "Invalid Expression, parser panic", and every failure carries one of the ten error messages. A literal yields its value. |
| Interpreter.LeftFirst | src/interpreter.rs:34 | When the left operand does not yield a value, the node yields what it yields, whatever the right operand. |
| Interpreter.RightSecond | src/interpreter.rs:35 | After a left value, a right operand that does not yield a value decides the node. |
| Interpreter.GroupingsTransparent | src/interpreter.rs:96 | Removing every `Grouping` node leaves the outcome unchanged. |
| Interpreter.DerivedFailures | src/interpreter.rs:93-108 | On trees of the grammar, "Invalid unary expression" never occurs, and a panic implies an `==` in the tree. |
| Interpreter.EqualEqualPanics | src/interpreter.rs:93 | `==` between two values panics. |
| Interpreter.PlusSubtracts | src/interpreter.rs:45 | `+` on numbers a and b yields a - b. |
| Interpreter.PlusConcatenates | src/interpreter.rs:46-50 | `+` on two strings yields their concatenation, left first. |
| Interpreter.NotEqualSaysEqual | src/interpreter.rs:90-92 | `v != v` yields `true` for every value. |
| Pipeline.Run | src/main.rs:74-82 | The result is the parse of the scanned tokens, which end in `EOF`. The reports are those of the scan. |
| Pipeline.ScanText | src/main.rs:75-76 | A fresh scanner's `scan_tokens` returns `Scan` of the text. |
| Pipeline.ParsedTreesEvaluate | src/interpreter.rs:93-108 | A parsed tree never evaluates to "Invalid unary expression", and it panics only if it holds `==`. |

## Left out

- `src/main.rs` is left out apart from `run`'s scan-then-parse chain and `error`:
  - argument handling;
  - file reading;
  - the prompt loop;
  - all printing.
- `src/token_type.rs` is not part of this model. The token kinds are those
  the scanner and parser name. `Tokens.KindName` assumes that the kind's
  text is its variant name, as a derived `Debug` would print it.
- `Interpreter::interpret` and `Parser::error` only print, so they are
  left out.
- `had_runtime_error` is never updated, so it is left out.
- Numbers are exact `real`s, not IEEE doubles. Rounding, NaN, infinities
  and signed zero are not modelled. The value of a number lexeme is its
  exact decimal value.
- A division by zero yields an infinity or NaN in the source. The model
  stops with the outcome `NonFinite` and does not evaluate further.
- The scanner's `line` (u32) and cursors (usize) are unbounded naturals.
  A `u32` overflow after 2^32 - 1 newlines is not modelled.
- `RoxType` has no text form in these files. The printer and `Display`
  therefore take the rendering of a literal as a parameter.
- The `lazy_static` keyword map is a constant map. Its size (sixteen
  entries) is not stated as a property.
- The unwraps of `peek` and `previous` are preconditions: the list is
  non-empty and ends with `EOF`, and `previous` is only used after an
  advance. `Synchronize` requires that it not be called at cursor 0 on
  `EOF`, where `previous` would fail.
- `Scanner.CloseString`, `Parser.Operand` and `Parser.Group` are splits of
  `scn_string` and `primary` into two methods each. The statements are the
  same, in the same order.
- Grammar.ParseLevel: its contract states only the cursor bounds. Its
  meaning is stated by the lemmas about it.
- Lexical.ParseNumber: accepts only digit+ ('.' digit+)?. Rust's
  `parse::<f64>` also accepts forms such as `1.`, `.5`, `1e3`, `+1` and
  `inf`, but the scanner never hands it one of those.
- Parsing.Parser.Peek, Parsing.Parser.AtEnd, Parsing.Parser.Previous and
  Parsing.Parser.Check (src/parser.rs:156-181) are helpers whose contracts
  only name the token they read. `Advance`, `MatchTokens` and `Consume`
  state what the parser does with them.
- Scanning.Scanner.AtEnd, Scanning.Scanner.Peek and Scanning.Scanner.PeekNext
  (src/scanner.rs:226-243) are helpers with no contract of their own. They
  read through `Lexical.PeekAt` and `Lexical.PeekNextAt`, and the scanning
  methods' contracts state their effect.

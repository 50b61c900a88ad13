/** What the scanner of src/scanner.rs computes, stated as functions: the
    character classes, the keyword table, one call of `scan_token` (ScanStep)
    and the whole scanning loop (ScanFrom, Scan). The `Scanner` class in
    module Scanning is proved to follow these functions step by step. */
module Lexical {
  import opened Basics
  import opened Tokens
  import RoxTypes

  // ---------------------------------------------------------------------
  // Character classes

  predicate IsDigit(c: char) { '0' <= c <= '9' }

  /** As written in the source, the second range is 'A'..='z' rather than
      'A'..='Z' (apparently a slip), so it also admits the characters
      between 'Z' and 'a': [ \ ] ^ and the backtick. */
  predicate IsAlpha(c: char) { ('a' <= c <= 'z') || ('A' <= c <= 'z') || c == '_' }

  predicate IsAlphanumeric(c: char) { IsAlpha(c) || IsDigit(c) }

  /** The characters that are always a token of their own. */
  predicate IsPunctuation(c: char)
  {
    c == '(' || c == ')' || c == '{' || c == '}' || c == ',' || c == '.' || c == '-' || c == '+' || c == ';' || c == '*'
  }

  /** The operators that pair with a following '='. */
  predicate IsPairing(c: char) { c == '!' || c == '=' || c == '<' || c == '>' }

  /** The blanks other than newline. */
  predicate IsBlank(c: char) { c == ' ' || c == '\r' || c == '\t' }

  /** The runs of characters the scanner skips over with a `while` loop. */
  datatype Run = Digits | Alphanumerics | NonQuotes | NonNewlines | NonDots

  predicate InRun(r: Run, c: char)
  {
    match r
    case Digits => IsDigit(c)
    case Alphanumerics => IsAlphanumeric(c)
    case NonQuotes => c != '"'
    case NonNewlines => c != '\n'
    case NonDots => c != '.'
  }

  /** `is_alpha` holds exactly on the range 'A'..='z' and on '_'. */
  lemma AlphaIsOneRange(c: char)
    ensures IsAlpha(c) <==> ('A' <= c <= 'z' || c == '_')
  {
  }

  /** The range admits five punctuation characters as identifier letters. */
  lemma AlphaAdmitsPunctuation()
    ensures IsAlpha('[') && IsAlpha('\\') && IsAlpha(']') && IsAlpha('^') && IsAlpha('`')
    ensures !IsAlphanumeric('\0') && !IsAlphanumeric('\n') && !IsAlphanumeric(' ')
  {
  }

  // ---------------------------------------------------------------------
  // The keyword table

  const Keywords: map<string, TokenType> := map[
    "and" := And,
    "class" := Class,
    "else" := Else,
    "false" := False,
    "for" := For,
    "fun" := Fun,
    "if" := If,
    "nil" := TokenType.Nil,
    "or" := Or,
    "print" := Print,
    "return" := Return,
    "super" := Super,
    "this" := This,
    "true" := True,
    "var" := Var,
    "while" := While
  ]

  /** Every keyword is spelled in lower-case letters, and none of them maps
      to `Identifier` or `EOF`. */
  lemma KeywordTable()
    ensures forall w :: w in Keywords ==> Keywords[w] != EOF && Keywords[w] != Identifier
    ensures forall w :: w in Keywords ==> |w| > 0 && forall i :: 0 <= i < |w| ==> 'a' <= w[i] <= 'z'
  {
  }

  // ---------------------------------------------------------------------
  // Scanning primitives

  datatype ScanError = ScanError(line: nat, message: string)

  const UnexpectedCharacter := "Unexpected character"
  const UnterminatedString := "unterminated string"

  /** The token appended after the last lexeme. Its line is hard-coded to 23
      in the source (apparently a leftover), whatever the input. */
  const EofToken: Token := Token(EOF, "", 23, RoxTypes.Nil)

  /** The number of newlines in `src[i..j]`. */
  function Newlines(src: string, i: nat, j: nat): nat
    requires i <= j <= |src|
    decreases j - i
  {
    if i == j then 0 else Newlines(src, i, j - 1) + (if src[j - 1] == '\n' then 1 else 0)
  }

  /** `peek` at position `i`: the character there, or '\0' at the end. */
  function PeekAt(src: string, i: nat): char { if i >= |src| then '\0' else src[i] }

  /** `peek_next` at position `i`. */
  function PeekNextAt(src: string, i: nat): char { if i + 1 >= |src| then '\0' else src[i + 1] }

  /** The end of the run of characters satisfying `p` that starts at `i`:
      every character in between satisfies `p`, and the one at the end (if
      any) does not. */
  function SkipWhile(src: string, i: nat, r: Run): (j: nat)
    requires i <= |src|
    ensures i <= j <= |src|
    ensures forall k :: i <= k < j ==> InRun(r, src[k])
    ensures j == |src| || !InRun(r, src[j])
    decreases |src| - i
  {
    if i < |src| && InRun(r, src[i]) then SkipWhile(src, i + 1, r) else i
  }

  /** The end of a run is determined by the two properties above. */
  lemma SkipWhileUnique(src: string, i: nat, j: nat, r: Run)
    requires i <= j <= |src|
    requires forall k :: i <= k < j ==> InRun(r, src[k])
    requires j == |src| || !InRun(r, src[j])
    ensures SkipWhile(src, i, r) == j
  {
  }

  lemma NoNewlines(src: string, i: nat, j: nat)
    requires i <= j <= |src|
    requires forall k :: i <= k < j ==> src[k] != '\n'
    ensures Newlines(src, i, j) == 0
    decreases j - i
  {
    if i < j {
      NoNewlines(src, i, j - 1);
    }
  }

  /** Newlines counted over two adjacent stretches add up. */
  lemma NewlineSplit(src: string, i: nat, j: nat, k: nat)
    requires i <= j <= k <= |src|
    ensures Newlines(src, i, k) == Newlines(src, i, j) + Newlines(src, j, k)
    decreases k - j
  {
    if j < k {
      NewlineSplit(src, i, j, k - 1);
    }
  }

  /** Lines counted over two adjacent stretches add up. */
  lemma LineAfter(src: string, i: nat, j: nat, line: nat, middle: nat, last: nat)
    requires i <= j <= |src|
    requires middle == line + Newlines(src, i, j)
    requires last == middle + Newlines(src, j, |src|)
    ensures last == line + Newlines(src, i, |src|)
  {
    NewlineSplit(src, i, j, |src|);
  }

  // ---------------------------------------------------------------------
  // Number lexemes and their value

  predicate AllDigits(s: string) { forall k :: 0 <= k < |s| ==> IsDigit(s[k]) }

  /** The decimal value of a run of digits. */
  function DigitsValue(s: string): nat
    requires AllDigits(s)
  {
    if s == [] then 0 else 10 * DigitsValue(s[..|s| - 1]) + (s[|s| - 1] as int - '0' as int)
  }

  function Pow10(n: nat): (p: nat)
    ensures p > 0
  {
    if n == 0 then 1 else 10 * Pow10(n - 1)
  }

  /** The shape of every number lexeme: digit+ ('.' digit+)? */
  predicate NumberShape(s: string)
  {
    && |s| > 0 && IsDigit(s[0])
    && var d := SkipWhile(s, 0, Digits);
       d == |s| || (s[d] == '.' && d + 1 < |s| && AllDigits(s[d + 1..]))
  }

  /** The float parse of a lexeme, `parse::<f64>()`, for decimal text of the
      shape digit+ ('.' digit+)?, computed exactly. Text of any other shape
      is refused. */
  function ParseNumber(s: string): Option<real>
  {
    var dot := SkipWhile(s, 0, NonDots);
    if dot == |s| then
      if |s| > 0 && AllDigits(s) then Some(DigitsValue(s) as real) else None
    else
      var whole, fraction := s[..dot], s[dot + 1..];
      if |whole| > 0 && |fraction| > 0 && AllDigits(whole) && AllDigits(fraction) then
        Some(DigitsValue(whole) as real + DigitsValue(fraction) as real / Pow10(|fraction|) as real)
      else
        None
  }

  /** The parse succeeds exactly on the number shape; so the `unwrap` after
      the parse in `scn_number` cannot fail. */
  lemma NumberShapeParses(s: string)
    ensures ParseNumber(s).Some? <==> NumberShape(s)
  {
    var dot := SkipWhile(s, 0, NonDots);
    if NumberShape(s) {
      var d := SkipWhile(s, 0, Digits);
      if d == |s| {
        SkipWhileUnique(s, 0, |s|, NonDots);
      } else {
        SkipWhileUnique(s, 0, d, NonDots);
        assert s[..d] == s[..dot];
      }
    }
    if ParseNumber(s).Some? {
      if dot == |s| {
        SkipWhileUnique(s, 0, |s|, Digits);
      } else {
        assert forall k :: 0 <= k < dot ==> IsDigit(s[..dot][k]);
        SkipWhileUnique(s, 0, dot, Digits);
        assert s[dot + 1..] == s[dot + 1..];
      }
    }
  }

  // ---------------------------------------------------------------------
  // One call of `scan_token`

  /** The effect of one call of `scan_token` that starts at `start` on line
      `line`: the tokens it appends (none or one), where `current` ends, the
      line afterwards, and the errors it reports. */
  datatype Step = Step(emitted: seq<Token>, next: nat, line: nat, errors: seq<ScanError>)

  /** A step consumes at least one character and never runs past the end;
      `line` rises by exactly the newlines consumed. It either emits one
      token or reports at most one error. An emitted token is never `EOF`,
      its lexeme is exactly the consumed text and it carries the line on
      which the step ends. An error is an unexpected character, or an
      unterminated string, and the latter only once the input is used up. */
  predicate Sound(src: string, start: nat, line: nat, s: Step)
    requires start < |src|
  {
    && start < s.next <= |src|
    && s.line == line + Newlines(src, start, s.next)
    && (s.emitted == [] || (s.errors == [] && |s.emitted| == 1 && Fits(src, start, s, s.emitted[0])))
    && |s.errors| <= 1
    && (s.errors != [] ==> Reportable(src, s, s.errors[0]))
  }

  predicate Fits(src: string, start: nat, s: Step, t: Token)
    requires start <= s.next <= |src|
  {
    t.tokenType != EOF && t.lexeme == src[start..s.next] && t.line == s.line
  }

  predicate Reportable(src: string, s: Step, e: ScanError)
  {
    && e.line == s.line
    && (e.message == UnexpectedCharacter || (e.message == UnterminatedString && s.next == |src|))
  }

  /** `add_token`: append a token whose lexeme is `source[start..current]`. */
  function Emit(src: string, start: nat, next: nat, kind: TokenType, literal: RoxTypes.RoxType, line: nat): (s: Step)
    requires start < next <= |src| && kind != EOF
    requires forall k :: start <= k < next ==> src[k] != '\n'
    ensures Sound(src, start, line, s)
  {
    NoNewlines(src, start, next);
    Step([Token(kind, src[start..next], line, literal)], next, line, [])
  }

  /** A one-character operator that pairs with a following '='. */
  function PairedOperator(src: string, start: nat, line: nat, single: TokenType, double: TokenType): (s: Step)
    requires start < |src| && src[start] != '\n' && single != EOF && double != EOF
    ensures Sound(src, start, line, s)
  {
    if start + 1 < |src| && src[start + 1] == '=' then
      Emit(src, start, start + 2, double, RoxTypes.Nil, line)
    else
      Emit(src, start, start + 1, single, RoxTypes.Nil, line)
  }

  /** '/' starts a comment when another '/' follows; the comment runs up to,
      not including, the next newline. Otherwise it is a `Slash`. */
  function SlashStep(src: string, start: nat, line: nat): (s: Step)
    requires start < |src| && src[start] == '/'
    ensures Sound(src, start, line, s)
  {
    if start + 1 < |src| && src[start + 1] == '/' then
      var end := SkipWhile(src, start + 2, NonNewlines);
      NoNewlines(src, start, end);
      Step([], end, line, [])
    else
      Emit(src, start, start + 1, Slash, RoxTypes.Nil, line)
  }

  /** A string literal: everything up to the next '"', newlines included.
      Without a closing quote it reports an error and emits nothing. */
  function StringStep(src: string, start: nat, line: nat): (s: Step)
    requires start < |src| && src[start] == '"'
    ensures Sound(src, start, line, s)
  {
    var close := SkipWhile(src, start + 1, NonQuotes);
    var line' := line + Newlines(src, start + 1, close);
    NewlineSplit(src, start, start + 1, close);
    NoNewlines(src, start, start + 1);
    if close == |src| then
      Step([], close, line', [ScanError(line', UnterminatedString)])
    else
      NewlineSplit(src, start, close, close + 1);
      NoNewlines(src, close, close + 1);
      Step([Token(TokenType.String, src[start..close + 1], line', RoxTypes.String(src[start + 1..close]))],
           close + 1, line', [])
  }

  /** The step of a string literal in terms of where its closing quote is
      searched for: `close` is the first '"' after the opening one, or the
      end of the input. First the line on which it ends, then the step
      without and with a closing quote. */
  lemma StringLineAt(src: string, start: nat, line: nat, close: nat)
    requires start < |src| && src[start] == '"'
    requires start + 1 <= close <= |src|
    requires forall k :: start + 1 <= k < close ==> src[k] != '"'
    requires close == |src| || src[close] == '"'
    ensures StringStep(src, start, line).line == line + Newlines(src, start + 1, close)
  {
    SkipWhileUnique(src, start + 1, close, NonQuotes);
  }

  lemma UnterminatedAt(src: string, start: nat, line: nat, close: nat)
    requires start < |src| && src[start] == '"'
    requires start + 1 <= close <= |src|
    requires forall k :: start + 1 <= k < close ==> src[k] != '"'
    requires close == |src| || src[close] == '"'
    requires close == |src|
    ensures var s := StringStep(src, start, line);
      s.next == close && s.emitted == [] && s.errors == [ScanError(s.line, UnterminatedString)]
  {
    SkipWhileUnique(src, start + 1, close, NonQuotes);
  }

  lemma TerminatedAt(src: string, start: nat, line: nat, close: nat)
    requires start < |src| && src[start] == '"'
    requires start + 1 <= close <= |src|
    requires forall k :: start + 1 <= k < close ==> src[k] != '"'
    requires close == |src| || src[close] == '"'
    requires close < |src|
    ensures var s := StringStep(src, start, line);
      && s.next == close + 1 && s.errors == []
      && s.emitted == [Token(TokenType.String, src[start..close + 1], s.line, RoxTypes.String(src[start + 1..close]))]
  {
    SkipWhileUnique(src, start + 1, close, NonQuotes);
  }

  lemma IntegerShape(src: string, start: nat, d: nat)
    requires start < d <= |src|
    requires forall k :: start <= k < d ==> IsDigit(src[k])
    ensures NumberShape(src[start..d])
  {
    var text := src[start..d];
    forall k | 0 <= k < |text|
      ensures IsDigit(text[k])
    {
      assert text[k] == src[start + k];
    }
    SkipWhileUnique(text, 0, |text|, Digits);
  }

  lemma FractionShape(src: string, start: nat, d: nat, e: nat)
    requires start < d && d + 1 < e <= |src|
    requires forall k :: start <= k < d ==> IsDigit(src[k])
    requires src[d] == '.'
    requires forall k :: d + 1 <= k < e ==> IsDigit(src[k])
    ensures NumberShape(src[start..e])
  {
    var text := src[start..e];
    var dot := d - start;
    forall k | 0 <= k < dot
      ensures IsDigit(text[k])
    {
      assert text[k] == src[start + k];
    }
    assert text[dot] == '.';
    SkipWhileUnique(text, 0, dot, Digits);
    var fraction := text[dot + 1..];
    forall k | 0 <= k < |fraction|
      ensures IsDigit(fraction[k])
    {
      assert fraction[k] == src[d + 1 + k];
    }
  }

  /** Where a number lexeme that starts at `start` ends: its digits, then a
      '.' and more digits only when a digit follows the '.'. */
  function NumberEnd(src: string, start: nat): (next: nat)
    requires start < |src| && IsDigit(src[start])
    ensures start < next <= |src|
    ensures NumberShape(src[start..next])
  {
    var d := SkipWhile(src, start + 1, Digits);
    if PeekAt(src, d) == '.' && IsDigit(PeekNextAt(src, d)) then
      var e := SkipWhile(src, d + 1, Digits);
      FractionShape(src, start, d, e);
      e
    else
      IntegerShape(src, start, d);
      d
  }

  /** A number: its lexeme and its value. */
  function NumberStep(src: string, start: nat, line: nat): (s: Step)
    requires start < |src| && IsDigit(src[start])
    ensures Sound(src, start, line, s)
  {
    var next := NumberEnd(src, start);
    var lexeme := src[start..next];
    NumberShapeParses(lexeme);
    assert forall k :: start <= k < next ==> lexeme[k - start] == src[k];
    Emit(src, start, next, TokenType.Number, RoxTypes.Number(ParseNumber(lexeme).value), line)
  }

  /** Where `NumberEnd` lands, given the end `d` of the leading digits and,
      when a fraction follows, its end `e`. */
  lemma NumberEndAt(src: string, start: nat, d: nat, e: nat)
    requires start < d <= e <= |src| && IsDigit(src[start])
    requires forall k :: start + 1 <= k < d ==> IsDigit(src[k])
    requires d == |src| || !IsDigit(src[d])
    requires e == d ==> !(PeekAt(src, d) == '.' && IsDigit(PeekNextAt(src, d)))
    requires e > d ==> PeekAt(src, d) == '.' && IsDigit(PeekNextAt(src, d))
    requires e > d ==> (forall k :: d + 1 <= k < e ==> IsDigit(src[k])) && (e == |src| || !IsDigit(src[e]))
    ensures NumberEnd(src, start) == e
  {
    SkipWhileUnique(src, start + 1, d, Digits);
    if e > d {
      SkipWhileUnique(src, d + 1, e, Digits);
    }
  }

  /** The number step ending at `next`: one `Number` token whose literal is
      the parsed lexeme. */
  lemma NumberStepAt(src: string, start: nat, line: nat, next: nat)
    requires start < |src| && IsDigit(src[start]) && next == NumberEnd(src, start)
    ensures ParseNumber(src[start..next]).Some?
    ensures var s := NumberStep(src, start, line);
      && s.next == next && s.line == line && s.errors == []
      && s.emitted == [Token(TokenType.Number, src[start..next], line, RoxTypes.Number(ParseNumber(src[start..next]).value))]
  {
    NumberShapeParses(src[start..next]);
    NoNewlines(src, start, next);
  }

  /** The kind of an identifier-like lexeme: its keyword, or `Identifier`. */
  function WordKind(text: string): (kind: TokenType)
    ensures kind != EOF
    ensures text in Keywords ==> kind == Keywords[text]
    ensures text !in Keywords ==> kind == Identifier
  {
    KeywordTable();
    if text in Keywords then Keywords[text] else Identifier
  }

  /** An identifier or keyword: the maximal run of alphanumeric characters. */
  function IdentifierStep(src: string, start: nat, line: nat): (s: Step)
    requires start < |src| && IsAlphanumeric(src[start])
    ensures Sound(src, start, line, s)
  {
    var next := SkipWhile(src, start + 1, Alphanumerics);
    Emit(src, start, next, WordKind(src[start..next]), RoxTypes.Nil, line)
  }

  /** A character that produces nothing but is consumed. */
  function Skip(src: string, start: nat, line: nat, errors: seq<ScanError>): (s: Step)
    requires start < |src|
    requires errors == [] || errors == [ScanError(line, UnexpectedCharacter)]
    ensures s.next == start + 1 && s.emitted == [] && s.errors == errors
    ensures src[start] != '\n' ==> Sound(src, start, line, s)
  {
    NoNewlines(src, start, if src[start] == '\n' then start else start + 1);
    Step([], start + 1, line, errors)
  }

  /** The tokens of the one-character punctuation marks. */
  function PunctuationKind(c: char): (kind: TokenType)
    requires IsPunctuation(c)
    ensures kind != EOF
  {
    match c
    case '(' => LeftParen
    case ')' => RightParen
    case '{' => LeftBrace
    case '}' => RightBrace
    case ',' => Comma
    case '.' => Dot
    case '-' => Minus
    case '+' => Plus
    case ';' => Semicolon
    case '*' => Star
  }

  /** The operators that pair with a following '=': the lone kind and the
      paired kind. */
  function OperatorKinds(c: char): (kinds: (TokenType, TokenType))
    requires IsPairing(c)
    ensures kinds.0 != EOF && kinds.1 != EOF
  {
    match c
    case '!' => (Bang, BangEqual)
    case '=' => (Equal, EqualEqual)
    case '<' => (Less, LessEqual)
    case '>' => (Greater, GreaterEqual)
  }

  /** A newline produces nothing and advances the line. */
  function NewlineStep(src: string, start: nat, line: nat): (s: Step)
    requires start < |src| && src[start] == '\n'
    ensures Sound(src, start, line, s)
  {
    Step([], start + 1, line + 1, [])
  }

  /** One call of `scan_token`, dispatching on the character at `start`. */
  function ScanStep(src: string, start: nat, line: nat): (s: Step)
    requires start < |src|
    ensures Sound(src, start, line, s)
  {
    var c := src[start];
    if IsPunctuation(c) then
      Emit(src, start, start + 1, PunctuationKind(c), RoxTypes.Nil, line)
    else if IsPairing(c) then
      PairedOperator(src, start, line, OperatorKinds(c).0, OperatorKinds(c).1)
    else if c == '/' then
      SlashStep(src, start, line)
    else if IsBlank(c) then
      Skip(src, start, line, [])
    else if c == '\n' then
      NewlineStep(src, start, line)
    else if c == '"' then
      StringStep(src, start, line)
    else if IsDigit(c) then
      NumberStep(src, start, line)
    else if IsAlphanumeric(c) then
      IdentifierStep(src, start, line)
    else
      Skip(src, start, line, [ScanError(line, UnexpectedCharacter)])
  }

  // ---------------------------------------------------------------------
  // The scanning loop

  datatype ScanOutput = ScanOutput(tokens: seq<Token>, errors: seq<ScanError>, line: nat)

  /** The `while !at_end()` loop of `scan_tokens`, from position `pos` on
      line `line`: the tokens and errors of all remaining steps, and the
      final line. */
  function ScanFrom(src: string, pos: nat, line: nat): (out: ScanOutput)
    requires pos <= |src|
    ensures out.line == line + Newlines(src, pos, |src|)
    decreases |src| - pos
  {
    if pos == |src| then
      ScanOutput([], [], line)
    else
      var s := ScanStep(src, pos, line);
      var rest := ScanFrom(src, s.next, s.line);
      LineAfter(src, pos, s.next, line, s.line, rest.line);
      ScanOutput(s.emitted + rest.tokens, s.errors + rest.errors, rest.line)
  }

  /** Scanning from `pos0` on line `line0` has reached position `pos` on
      line `line`, having added `tokens` and `errors` to `tokens0` and
      `errors0`: what remains to be scanned completes the whole scan. */
  ghost predicate Progress(src: string, pos0: nat, line0: nat, tokens0: seq<Token>, errors0: seq<ScanError>,
                           pos: nat, line: nat, tokens: seq<Token>, errors: seq<ScanError>)
    requires pos0 <= |src| && pos <= |src|
  {
    var rest := ScanFrom(src, pos, line);
    var all := ScanFrom(src, pos0, line0);
    && tokens + rest.tokens == tokens0 + all.tokens
    && errors + rest.errors == errors0 + all.errors
    && rest.line == all.line
  }

  /** One more step keeps `Progress`. */
  lemma ProgressStep(src: string, pos0: nat, line0: nat, tokens0: seq<Token>, errors0: seq<ScanError>,
                     pos: nat, line: nat, tokens: seq<Token>, errors: seq<ScanError>)
    requires pos0 <= |src| && pos < |src|
    requires Progress(src, pos0, line0, tokens0, errors0, pos, line, tokens, errors)
    ensures var s := ScanStep(src, pos, line);
      Progress(src, pos0, line0, tokens0, errors0, s.next, s.line, tokens + s.emitted, errors + s.errors)
  {
    var s := ScanStep(src, pos, line);
    var rest := ScanFrom(src, s.next, s.line);
    assert ScanFrom(src, pos, line) == ScanOutput(s.emitted + rest.tokens, s.errors + rest.errors, rest.line);
    Regroup(tokens, s.emitted, rest.tokens);
    Regroup(errors, s.errors, rest.errors);
  }

  lemma Regroup<T>(a: seq<T>, b: seq<T>, c: seq<T>)
    ensures a + b + c == a + (b + c)
  {
  }

  /** At the end of the input, `Progress` has produced the whole scan. */
  lemma ProgressDone(src: string, pos0: nat, line0: nat, tokens0: seq<Token>, errors0: seq<ScanError>,
                     line: nat, tokens: seq<Token>, errors: seq<ScanError>)
    requires pos0 <= |src|
    requires Progress(src, pos0, line0, tokens0, errors0, |src|, line, tokens, errors)
    ensures var all := ScanFrom(src, pos0, line0);
      tokens == tokens0 + all.tokens && errors == errors0 + all.errors && line == all.line
  {
    var rest := ScanFrom(src, |src|, line);
    assert rest.tokens == [] && rest.errors == [];
    assert tokens + rest.tokens == tokens;
    assert errors + rest.errors == errors;
  }

  /** `scan_tokens` on a fresh scanner: the tokens of the whole input,
      closed by the one and only `EOF` token. */
  function Scan(src: string): (tokens: seq<Token>)
    ensures |tokens| > 0 && tokens[|tokens| - 1] == EofToken
    ensures forall i :: 0 <= i < |tokens| - 1 ==> tokens[i].tokenType != EOF
  {
    var out := ScanFrom(src, 0, 1);
    ScanHasNoEof(src, 0, 1);
    assert forall i :: 0 <= i < |out.tokens| ==> out.tokens[i] in out.tokens;
    out.tokens + [EofToken]
  }

  // ---------------------------------------------------------------------
  // Properties of the whole scan

  /** Every step consumes input, so there are never more tokens and errors
      together than characters left to scan. */
  lemma {:induction false} ScanIsBounded(src: string, pos: nat, line: nat)
    requires pos <= |src|
    ensures var out := ScanFrom(src, pos, line);
      |out.tokens| + |out.errors| <= |src| - pos
    decreases |src| - pos
  {
    if pos < |src| {
      var s := ScanStep(src, pos, line);
      ScanIsBounded(src, s.next, s.line);
    }
  }

  /** The token of a step, if any, is not `EOF` and lies on the line the
      step ends on, which is no earlier than the line it starts on. */
  lemma StepTokens(src: string, pos: nat, line: nat)
    requires pos < |src|
    ensures var s := ScanStep(src, pos, line);
      forall t :: t in s.emitted ==> t.tokenType != EOF && line <= t.line == s.line
  {
    var s := ScanStep(src, pos, line);
    if s.emitted != [] {
      assert s.emitted == [s.emitted[0]];
    }
  }

  /** The scan itself never produces `EOF`: `scan_tokens` adds the only one. */
  lemma {:induction false} ScanHasNoEof(src: string, pos: nat, line: nat)
    requires pos <= |src|
    ensures forall t :: t in ScanFrom(src, pos, line).tokens ==> t.tokenType != EOF
    decreases |src| - pos
  {
    if pos < |src| {
      var s := ScanStep(src, pos, line);
      ScanHasNoEof(src, s.next, s.line);
      StepTokens(src, pos, line);
      var rest := ScanFrom(src, s.next, s.line);
      assert ScanFrom(src, pos, line).tokens == s.emitted + rest.tokens;
    }
  }

  /** Each token lies on a line between the line where the scan starts and
      the line where it ends. */
  lemma {:induction false} ScanLinesBounded(src: string, pos: nat, line: nat)
    requires pos <= |src|
    ensures var out := ScanFrom(src, pos, line);
      forall t :: t in out.tokens ==> line <= t.line <= out.line
    decreases |src| - pos
  {
    if pos < |src| {
      var s := ScanStep(src, pos, line);
      ScanLinesBounded(src, s.next, s.line);
      var rest := ScanFrom(src, s.next, s.line);
      StepTokens(src, pos, line);
      assert ScanFrom(src, pos, line).tokens == s.emitted + rest.tokens;
    }
  }

  /** Tokens come out in line order. */
  lemma {:induction false} ScanLinesAscend(src: string, pos: nat, line: nat)
    requires pos <= |src|
    ensures var out := ScanFrom(src, pos, line);
      forall i, j :: 0 <= i < j < |out.tokens| ==> out.tokens[i].line <= out.tokens[j].line
    decreases |src| - pos
  {
    if pos < |src| {
      var s := ScanStep(src, pos, line);
      ScanLinesAscend(src, s.next, s.line);
      ScanLinesBounded(src, s.next, s.line);
      var rest := ScanFrom(src, s.next, s.line);
      var out := ScanFrom(src, pos, line);
      assert out.tokens == s.emitted + rest.tokens;
      forall i, j | 0 <= i < j < |out.tokens|
        ensures out.tokens[i].line <= out.tokens[j].line
      {
        if i < |s.emitted| && |s.emitted| <= j {
          assert out.tokens[j] in rest.tokens;
        } else if |s.emitted| <= i {
          assert out.tokens[i] == rest.tokens[i - |s.emitted|];
          assert out.tokens[j] == rest.tokens[j - |s.emitted|];
        }
      }
    }
  }

  /** Every lexeme is a stretch of the scanned text. */
  lemma {:induction false} LexemesAreSlices(src: string, pos: nat, line: nat)
    requires pos <= |src|
    ensures forall t :: t in ScanFrom(src, pos, line).tokens ==>
      exists i, j :: pos <= i <= j <= |src| && t.lexeme == src[i..j]
    decreases |src| - pos
  {
    if pos < |src| {
      var s := ScanStep(src, pos, line);
      LexemesAreSlices(src, s.next, s.line);
      forall t | t in s.emitted
        ensures exists i, j :: pos <= i <= j <= |src| && t.lexeme == src[i..j]
      {
        assert t.lexeme == src[pos..s.next];
      }
    }
  }

  /** Errors are unexpected characters or an unterminated string, each on a
      line within the scan; an unterminated string can only be the last
      error, since it uses up the input. */
  lemma {:induction false} ScanErrors(src: string, pos: nat, line: nat)
    requires pos <= |src|
    ensures var out := ScanFrom(src, pos, line);
      && (forall e :: e in out.errors ==> e.message == UnexpectedCharacter || e.message == UnterminatedString)
      && (forall e :: e in out.errors ==> line <= e.line <= out.line)
      && (forall i :: 0 <= i < |out.errors| - 1 ==> out.errors[i].message == UnexpectedCharacter)
    decreases |src| - pos
  {
    if pos < |src| {
      var s := ScanStep(src, pos, line);
      ScanErrors(src, s.next, s.line);
      var rest := ScanFrom(src, s.next, s.line);
      var out := ScanFrom(src, pos, line);
      assert out.errors == s.errors + rest.errors;
      if s.errors != [] && s.errors[0].message == UnterminatedString {
        assert s.errors[0] in s.errors;
        assert rest.errors == [];
      }
      forall i | 0 <= i < |out.errors| - 1
        ensures out.errors[i].message == UnexpectedCharacter
      {
        if i < |s.errors| {
          assert out.errors[i] == s.errors[i];
          assert s.errors[i] in s.errors;
        } else {
          assert out.errors[i] == rest.errors[i - |s.errors|];
        }
      }
    }
  }

  // ---------------------------------------------------------------------
  // What one step does, case by case

  /** A punctuation mark is always a token of its own. */
  lemma PunctuationStep(src: string, start: nat, line: nat)
    requires start < |src| && IsPunctuation(src[start])
    ensures ScanStep(src, start, line)
         == Step([Token(PunctuationKind(src[start]), [src[start]], line, RoxTypes.Nil)], start + 1, line, [])
  {
    assert src[start..start + 1] == [src[start]];
  }

  /** `match_next('=')` decides between the lone and the paired operator,
      and consumes the '=' only when it pairs. */
  lemma OperatorPairing(src: string, start: nat, line: nat)
    requires start < |src| && IsPairing(src[start])
    ensures var s := ScanStep(src, start, line);
      var paired := start + 1 < |src| && src[start + 1] == '=';
      && s.next == (if paired then start + 2 else start + 1)
      && s.emitted == [Token(if paired then OperatorKinds(src[start]).1 else OperatorKinds(src[start]).0,
                             src[start..s.next], line, RoxTypes.Nil)]
      && s.line == line && s.errors == []
  {
  }

  /** Blanks produce nothing; a newline only advances the line. */
  lemma BlankStep(src: string, start: nat, line: nat)
    requires start < |src| && (IsBlank(src[start]) || src[start] == '\n')
    ensures var s := ScanStep(src, start, line);
      && s.emitted == [] && s.errors == [] && s.next == start + 1
      && s.line == (if src[start] == '\n' then line + 1 else line)
  {
  }

  /** "//" starts a comment that produces nothing and stops at the next
      newline, which it leaves unconsumed; a lone '/' is a `Slash`. */
  lemma SlashStepCases(src: string, start: nat, line: nat)
    requires start < |src| && src[start] == '/'
    ensures var s := ScanStep(src, start, line);
      if start + 1 < |src| && src[start + 1] == '/' then
        && s.emitted == [] && s.errors == [] && s.line == line
        && (s.next == |src| || src[s.next] == '\n')
        && forall k :: start <= k < s.next ==> src[k] != '\n'
      else
        s == Step([Token(Slash, "/", line, RoxTypes.Nil)], start + 1, line, [])
  {
    assert src[start..start + 1] == "/";
  }

  /** A string literal runs to the first '"' after the opening one; its
      value is the text in between, newlines included, and its token
      carries the line on which it ends. Without a closing quote the scan
      reports "unterminated string" and reaches the end of the input. */
  lemma StringLiteralCases(src: string, start: nat, line: nat)
    requires start < |src| && src[start] == '"'
    ensures var s := ScanStep(src, start, line);
      if exists k :: start < k < |src| && src[k] == '"' then
        && start + 1 < s.next && src[s.next - 1] == '"'
        && (forall k :: start < k < s.next - 1 ==> src[k] != '"')
        && s.errors == []
        && s.emitted == [Token(TokenType.String, src[start..s.next], s.line, RoxTypes.String(src[start + 1..s.next - 1]))]
      else
        && s.next == |src| && s.emitted == []
        && s.errors == [ScanError(s.line, UnterminatedString)]
  {
  }

  /** A number lexeme has the shape digit+ ('.' digit+)? and is as long as
      possible: the scan stops at a non-digit, and it takes a '.' only when
      a digit follows it. Its literal is the value of the lexeme. */
  lemma NumberLexeme(src: string, start: nat, line: nat)
    requires start < |src| && IsDigit(src[start])
    ensures var s := ScanStep(src, start, line);
      var lexeme := src[start..s.next];
      && NumberShape(lexeme)
      && ParseNumber(lexeme).Some?
      && s.emitted == [Token(TokenType.Number, lexeme, line, RoxTypes.Number(ParseNumber(lexeme).value))]
      && (s.next == |src| || !IsDigit(src[s.next]))
      && ('.' !in lexeme ==> !(PeekAt(src, s.next) == '.' && IsDigit(PeekNextAt(src, s.next))))
  {
    assert ScanStep(src, start, line) == NumberStep(src, start, line);
    var next := NumberEnd(src, start);
    NumberStepAt(src, start, line, next);
    var lexeme := src[start..next];
    NumberShapeParses(lexeme);
    var d := SkipWhile(src, start + 1, Digits);
    if PeekAt(src, d) == '.' && IsDigit(PeekNextAt(src, d)) {
      assert lexeme[d - start] == '.';
    }
  }

  /** An identifier is the longest run of alphanumeric characters; it is a
      keyword exactly when its text is in the keyword table. */
  lemma WordLexeme(src: string, start: nat, line: nat)
    requires start < |src| && IsAlpha(src[start])
    ensures var s := ScanStep(src, start, line);
      var text := src[start..s.next];
      && (forall k :: start <= k < s.next ==> IsAlphanumeric(src[k]))
      && (s.next == |src| || !IsAlphanumeric(src[s.next]))
      && s.errors == []
      && s.emitted == [Token(if text in Keywords then Keywords[text] else Identifier, text, line, RoxTypes.Nil)]
  {
  }

  /** Any other character is reported and skipped. */
  lemma UnexpectedCharacterStep(src: string, start: nat, line: nat)
    requires start < |src| && !IsAlphanumeric(src[start])
    requires !IsPunctuation(src[start]) && !IsPairing(src[start]) && !IsBlank(src[start])
    requires src[start] != '/' && src[start] != '\n' && src[start] != '"'
    ensures ScanStep(src, start, line) == Step([], start + 1, line, [ScanError(line, UnexpectedCharacter)])
  {
  }

  // ---------------------------------------------------------------------
  // Examples

  lemma TwelveValue(text: string)
    requires text == "12"
    ensures ParseNumber(text) == Some(12.0)
  {
    SkipWhileUnique(text, 0, 2, NonDots);
    assert AllDigits(text);
    var one := text[..1];
    assert one[..0] == [];
    assert DigitsValue(one) == 1;
    assert DigitsValue(text) == 12;
  }

  lemma FirstOfTrailingDot(src: string)
    requires src == "12."
    ensures var s := ScanStep(src, 0, 1);
      s.next == 2 && s.emitted == [Token(TokenType.Number, "12", 1, RoxTypes.Number(12.0))] && s.line == 1
  {
    NumberEndAt(src, 0, 2, 2);
    NumberStepAt(src, 0, 1, 2);
    assert ScanStep(src, 0, 1) == NumberStep(src, 0, 1);
    TwelveValue(src[0..2]);
  }

  /** "12." is the number 12 followed by a `Dot`: a '.' joins a number only
      when a digit follows it. */
  lemma TrailingDotIsSeparate(src: string)
    requires src == "12."
    ensures Scan(src) == [Token(TokenType.Number, "12", 1, RoxTypes.Number(12.0)),
                          Token(Dot, ".", 1, RoxTypes.Nil),
                          EofToken]
  {
    FirstOfTrailingDot(src);
    var first := ScanStep(src, 0, 1);
    assert ScanFrom(src, 0, 1).tokens == first.emitted + ScanFrom(src, 2, 1).tokens;
    PunctuationStep(src, 2, 1);
    var second := ScanStep(src, 2, 1);
    assert ScanFrom(src, 2, 1).tokens == second.emitted + ScanFrom(src, 3, 1).tokens;
  }

  lemma FirstOfBrackets(src: string)
    requires src == "a[0]"
    ensures var s := ScanStep(src, 0, 1);
      s.next == 4 && s.emitted == [Token(Identifier, "a[0]", 1, RoxTypes.Nil)]
  {
    WordLexeme(src, 0, 1);
    assert forall k :: 0 <= k < 4 ==> IsAlphanumeric(src[k]);
    assert src[0..4] == "a[0]";
    assert "a[0]" !in Keywords;
  }

  /** The characters between 'Z' and 'a' are taken as identifier letters:
      "a[0]" is one identifier. */
  lemma BracketsJoinIdentifiers(src: string)
    requires src == "a[0]"
    ensures Scan(src) == [Token(Identifier, "a[0]", 1, RoxTypes.Nil), EofToken]
  {
    FirstOfBrackets(src);
    var first := ScanStep(src, 0, 1);
    assert ScanFrom(src, 0, 1).tokens == first.emitted + ScanFrom(src, 4, first.line).tokens;
  }
}

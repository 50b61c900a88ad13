/** What the recursive-descent parser of src/parser.rs computes, stated as
    functions of the token list and a cursor position. Module Parsing proves
    each method of its `Parser` class equal to one of these functions. */
module Grammar {
  import opened Basics
  import opened Tokens
  import Exprs
  import RoxTypes

  /** `ParseErr`: the token at which parsing stopped, and a message. */
  datatype ParseErr = ParseErr(errToken: Token, errMsg: string)

  const ExpectExpression := "Expect Expression"
  const ExpectRightParen := "Expect ')' after expression."

  /** The outcome of parsing from a position: the tree or the error, and the
      position of the cursor afterwards. */
  datatype Parsed = Parsed(result: Result<Exprs.Expr, ParseErr>, pos: nat)

  /** The precedence levels, from the loosest to the tightest. */
  datatype Level = Equality | Comparison | Term | Factor | Unary | Primary

  function Rank(lv: Level): nat
  {
    match lv
    case Equality => 5
    case Comparison => 4
    case Term => 3
    case Factor => 2
    case Unary => 1
    case Primary => 0
  }

  /** The four levels that chain binary operators in a loop. */
  predicate IsBinaryLevel(lv: Level)
  {
    Rank(lv) >= 2
  }

  /** The level the operands of a binary level are parsed at. */
  function Tighter(lv: Level): (t: Level)
    requires IsBinaryLevel(lv)
    ensures Rank(t) + 1 == Rank(lv)
  {
    if lv == Equality then Comparison
    else if lv == Comparison then Term
    else if lv == Term then Factor
    else Unary
  }

  /** The token kinds each level passes to `match_tokens`. */
  function Operators(lv: Level): seq<TokenType>
  {
    match lv
    case Equality => [BangEqual, EqualEqual]
    case Comparison => [Greater, GreaterEqual, Less, LessEqual]
    case Term => [Minus, Plus]
    case Factor => [Slash, Star]
    case Unary => [Bang, Minus]
    case Primary => []
  }

  /** Whether `kind` is one of the operators of level `lv`. */
  predicate IsOperator(lv: Level, kind: TokenType)
  {
    match lv
    case Equality => kind == BangEqual || kind == EqualEqual
    case Comparison => kind == Greater || kind == GreaterEqual || kind == Less || kind == LessEqual
    case Term => kind == Minus || kind == Plus
    case Factor => kind == Slash || kind == Star
    case Unary => kind == Bang || kind == Minus
    case Primary => false
  }

  lemma OperatorsListed(lv: Level, kind: TokenType)
    ensures kind in Operators(lv) <==> IsOperator(lv, kind)
  {
    match lv
    case Equality => assert Operators(lv) == [BangEqual, EqualEqual];
    case Comparison => assert Operators(lv) == [Greater, GreaterEqual, Less, LessEqual];
    case Term => assert Operators(lv) == [Minus, Plus];
    case Factor => assert Operators(lv) == [Slash, Star];
    case Unary => assert Operators(lv) == [Bang, Minus];
    case Primary =>
  }

  /** The binary level an operator kind belongs to (0 for any other kind). */
  function OperatorRank(kind: TokenType): (rank: nat)
    ensures rank <= 5
  {
    if kind == BangEqual || kind == EqualEqual then 5
    else if kind == Greater || kind == GreaterEqual || kind == Less || kind == LessEqual then 4
    else if kind == Minus || kind == Plus then 3
    else if kind == Slash || kind == Star then 2
    else 0
  }

  /** What the parser assumes of its input, so that `peek` never fails: the
      list is not empty and ends with `EOF`. */
  predicate ValidTokens(toks: seq<Token>)
  {
    |toks| > 0 && toks[|toks| - 1].tokenType == EOF
  }

  /** `at_end`, `check` and `match_tokens` at position `pos`. */
  predicate AtEndAt(toks: seq<Token>, pos: nat)
    requires pos < |toks|
  {
    toks[pos].tokenType == EOF
  }

  predicate CheckAt(toks: seq<Token>, pos: nat, kind: TokenType)
    requires pos < |toks|
  {
    !AtEndAt(toks, pos) && toks[pos].tokenType == kind
  }

  /** `match_tokens`: the current token is not `EOF` and its kind is one of
      `kinds`. */
  predicate MatchesAt(toks: seq<Token>, pos: nat, kinds: seq<TokenType>)
    requires pos < |toks|
  {
    !AtEndAt(toks, pos) && toks[pos].tokenType in kinds
  }

  /** `match_tokens` with the operators of level `lv`. */
  predicate MatchesOp(toks: seq<Token>, pos: nat, lv: Level)
    requires pos < |toks|
  {
    !AtEndAt(toks, pos) && IsOperator(lv, toks[pos].tokenType)
  }

  /** A token other than `EOF` is never the last one, so advancing past it
      stays within the list. */
  lemma NotLastToken(toks: seq<Token>, pos: nat)
    requires ValidTokens(toks) && pos < |toks| && !AtEndAt(toks, pos)
    ensures pos + 1 < |toks|
  {
  }

  /** `match_tokens` with the list of a level is `MatchesOp` of that level. */
  lemma OperatorsMatch(toks: seq<Token>, pos: nat, lv: Level)
    requires pos < |toks|
    ensures MatchesAt(toks, pos, Operators(lv)) <==> MatchesOp(toks, pos, lv)
  {
    OperatorsListed(lv, toks[pos].tokenType);
  }

  /** What an error looks like: it names the token where the cursor stands
      and carries one of the two messages of the parser. */
  predicate ErrorAt(toks: seq<Token>, r: Parsed)
    requires r.pos < |toks|
  {
    r.result.Err? ==>
      && r.result.error.errToken == toks[r.pos]
      && (r.result.error.errMsg == ExpectExpression || r.result.error.errMsg == ExpectRightParen)
  }

  /** Parsing at level `lv` from `pos`: `equality`, `comparison`, `term`,
      `factor`, `unary` and `primary`. A failure of a nested call is passed on
      unchanged, as the `?` operator does. */
  function ParseLevel(toks: seq<Token>, lv: Level, pos: nat): (r: Parsed)
    requires ValidTokens(toks) && pos < |toks|
    ensures pos <= r.pos < |toks|
    decreases |toks| - pos, Rank(lv), 1
  {
    match lv
    case Primary => ParsePrimary(toks, pos)
    case Unary =>
      if MatchesOp(toks, pos, Unary) then
        var right := ParseLevel(toks, Unary, pos + 1);
        if right.result.Err? then right
        else Parsed(Ok(Exprs.Unary(toks[pos], right.result.value)), right.pos)
      else
        ParseLevel(toks, Primary, pos)
    case _ =>
      var left := ParseLevel(toks, Tighter(lv), pos);
      if left.result.Err? then left
      else ParseMore(toks, lv, left.result.value, left.pos)
  }

  /** The `while self.match_tokens(..)` loop of a binary level: each operator
      of the level and the operand after it extend the tree to the left. */
  function ParseMore(toks: seq<Token>, lv: Level, left: Exprs.Expr, pos: nat): (r: Parsed)
    requires ValidTokens(toks) && pos < |toks| && IsBinaryLevel(lv)
    ensures pos <= r.pos < |toks|
    decreases |toks| - pos, Rank(lv), 0
  {
    if MatchesOp(toks, pos, lv) then
      var right := ParseLevel(toks, Tighter(lv), pos + 1);
      if right.result.Err? then right
      else ParseMore(toks, lv, Exprs.Binary(left, toks[pos], right.result.value), right.pos)
    else
      Parsed(Ok(left), pos)
  }

  /** `primary`. The literals `false` and `true` are swapped as the source
      writes them: `False` yields `Boolean(true)` and `True` yields
      `Boolean(false)` (a defect of src/parser.rs:88-93, kept as written). */
  function ParsePrimary(toks: seq<Token>, pos: nat): (r: Parsed)
    requires ValidTokens(toks) && pos < |toks|
    ensures pos <= r.pos < |toks|
    decreases |toks| - pos, 0, 0
  {
    if CheckAt(toks, pos, False) then
      Parsed(Ok(Exprs.Literal(RoxTypes.Boolean(true))), pos + 1)
    else if CheckAt(toks, pos, True) then
      Parsed(Ok(Exprs.Literal(RoxTypes.Boolean(false))), pos + 1)
    else if CheckAt(toks, pos, TokenType.Nil) then
      Parsed(Ok(Exprs.Literal(RoxTypes.Nil)), pos + 1)
    else if (CheckAt(toks, pos, TokenType.Number) || CheckAt(toks, pos, TokenType.String)) then
      Parsed(Ok(Exprs.Literal(toks[pos].literal)), pos + 1)
    else if CheckAt(toks, pos, LeftParen) then
      NotLastToken(toks, pos);
      ParseGroup(toks, pos + 1)
    else
      Parsed(Err(ParseErr(toks[pos], ExpectExpression)), pos)
  }

  /** The parenthesised case of `primary`, from just after its '(': an
      expression, then `consume` of the ')'. */
  function ParseGroup(toks: seq<Token>, pos: nat): (r: Parsed)
    requires ValidTokens(toks) && pos < |toks|
    ensures pos <= r.pos < |toks|
    decreases |toks| - pos, 6, 0
  {
    var inner := ParseLevel(toks, Equality, pos);
    if inner.result.Err? then inner
    else if CheckAt(toks, inner.pos, RightParen) then
      Parsed(Ok(Exprs.Grouping(inner.result.value)), inner.pos + 1)
    else
      Parsed(Err(ParseErr(toks[inner.pos], ExpectRightParen)), inner.pos)
  }

  /** `parse`: one expression from the start of the list. Parsing stops after
      that expression; it does not ask for `EOF`. */
  function Parse(toks: seq<Token>): (r: Parsed)
    requires ValidTokens(toks)
    ensures r.pos < |toks|
  {
    ParseLevel(toks, Equality, 0)
  }

  /** Every failure names the token where parsing stopped, with one of the
      two messages of `primary`. */
  lemma {:induction false} LevelErrorAt(toks: seq<Token>, lv: Level, pos: nat)
    requires ValidTokens(toks) && pos < |toks|
    ensures ErrorAt(toks, ParseLevel(toks, lv, pos))
    decreases |toks| - pos, Rank(lv), 1
  {
    match lv
    case Primary =>
      PrimaryErrorAt(toks, pos);
    case Unary =>
      if MatchesOp(toks, pos, Unary) {
        LevelErrorAt(toks, Unary, pos + 1);
      } else {
        LevelErrorAt(toks, Primary, pos);
      }
    case _ =>
      var left := ParseLevel(toks, Tighter(lv), pos);
      LevelErrorAt(toks, Tighter(lv), pos);
      if left.result.Ok? {
        MoreErrorAt(toks, lv, left.result.value, left.pos);
      }
  }

  lemma {:induction false} MoreErrorAt(toks: seq<Token>, lv: Level, left: Exprs.Expr, pos: nat)
    requires ValidTokens(toks) && pos < |toks| && IsBinaryLevel(lv)
    ensures ErrorAt(toks, ParseMore(toks, lv, left, pos))
    decreases |toks| - pos, Rank(lv), 0
  {
    if MatchesOp(toks, pos, lv) {
      var right := ParseLevel(toks, Tighter(lv), pos + 1);
      LevelErrorAt(toks, Tighter(lv), pos + 1);
      if right.result.Ok? {
        MoreErrorAt(toks, lv, Exprs.Binary(left, toks[pos], right.result.value), right.pos);
      }
    }
  }

  lemma {:induction false} PrimaryErrorAt(toks: seq<Token>, pos: nat)
    requires ValidTokens(toks) && pos < |toks|
    ensures ErrorAt(toks, ParsePrimary(toks, pos))
    decreases |toks| - pos, 0, 0
  {
    if !CheckAt(toks, pos, False) && !CheckAt(toks, pos, True) && !CheckAt(toks, pos, TokenType.Nil)
       && !(CheckAt(toks, pos, TokenType.Number) || CheckAt(toks, pos, TokenType.String)) && CheckAt(toks, pos, LeftParen)
    {
      LevelErrorAt(toks, Equality, pos + 1);
    }
  }

  // ---------------------------------------------------------------------
  // The grammar the parser follows

  /** The trees level `lv` derives. A binary level chains its own operators
      to the left, each right operand one level tighter; `unary` nests its
      prefix operators; `primary` is a literal or a parenthesised
      expression. */
  predicate Derives(lv: Level, e: Exprs.Expr)
    decreases e, Rank(lv)
  {
    match lv
    case Primary =>
      e.Literal? || (e.Grouping? && Derives(Equality, e.inner))
    case Unary =>
      (e.Unary? && IsOperator(Unary, e.op.tokenType) && Derives(Unary, e.operand))
      || Derives(Primary, e)
    case _ =>
      (e.Binary? && IsOperator(lv, e.op.tokenType) && Derives(lv, e.left) && Derives(Tighter(lv), e.right))
      || Derives(Tighter(lv), e)
  }

  /** Every tree the parser builds at a level is derived by that level. */
  lemma {:induction false} LevelDerives(toks: seq<Token>, lv: Level, pos: nat)
    requires ValidTokens(toks) && pos < |toks|
    ensures var r := ParseLevel(toks, lv, pos);
      r.result.Ok? ==> Derives(lv, r.result.value)
    decreases |toks| - pos, Rank(lv), 2
  {
    match lv
    case Primary =>
      PrimaryDerives(toks, pos);
    case Unary =>
      if MatchesOp(toks, pos, Unary) {
        LevelDerives(toks, Unary, pos + 1);
      } else {
        LevelDerives(toks, Primary, pos);
      }
    case _ =>
      var left := ParseLevel(toks, Tighter(lv), pos);
      LevelDerives(toks, Tighter(lv), pos);
      if left.result.Ok? {
        MoreDerives(toks, lv, left.result.value, left.pos);
      }
  }

  lemma {:induction false} MoreDerives(toks: seq<Token>, lv: Level, left: Exprs.Expr, pos: nat)
    requires ValidTokens(toks) && pos < |toks| && IsBinaryLevel(lv)
    requires Derives(lv, left)
    ensures var r := ParseMore(toks, lv, left, pos);
      r.result.Ok? ==> Derives(lv, r.result.value)
    decreases |toks| - pos, Rank(lv), 1
  {
    if MatchesOp(toks, pos, lv) {
      OperandDerives(toks, lv, left, pos);
    }
  }

  /** One turn of the loop keeps the chain derived by its level. */
  lemma {:induction false} OperandDerives(toks: seq<Token>, lv: Level, left: Exprs.Expr, pos: nat)
    requires ValidTokens(toks) && pos < |toks| && IsBinaryLevel(lv) && MatchesOp(toks, pos, lv)
    requires Derives(lv, left)
    ensures var r := ParseMore(toks, lv, left, pos);
      r.result.Ok? ==> Derives(lv, r.result.value)
    decreases |toks| - pos, Rank(lv), 0
  {
    var right := ParseLevel(toks, Tighter(lv), pos + 1);
    LevelDerives(toks, Tighter(lv), pos + 1);
    if right.result.Ok? {
      ChainDerives(lv, left, toks[pos], right.result.value);
      MoreDerives(toks, lv, Exprs.Binary(left, toks[pos], right.result.value), right.pos);
    }
  }

  /** An operator of a binary level extends a chain of that level. */
  lemma ChainDerives(lv: Level, left: Exprs.Expr, op: Token, right: Exprs.Expr)
    requires IsBinaryLevel(lv) && IsOperator(lv, op.tokenType)
    requires Derives(lv, left) && Derives(Tighter(lv), right)
    ensures Derives(lv, Exprs.Binary(left, op, right))
  {
  }

  lemma {:induction false} PrimaryDerives(toks: seq<Token>, pos: nat)
    requires ValidTokens(toks) && pos < |toks|
    ensures var r := ParsePrimary(toks, pos);
      r.result.Ok? ==> Derives(Primary, r.result.value)
    decreases |toks| - pos, 0, 0
  {
    if !CheckAt(toks, pos, False) && !CheckAt(toks, pos, True) && !CheckAt(toks, pos, TokenType.Nil)
       && !(CheckAt(toks, pos, TokenType.Number) || CheckAt(toks, pos, TokenType.String)) && CheckAt(toks, pos, LeftParen)
    {
      LevelDerives(toks, Equality, pos + 1);
    }
  }

  /** Precedence and associativity in a derived tree: a binary node's
      operator belongs to its level or a tighter one; a binary left operand
      has an operator of the same or a tighter level (operators chain to the
      left); a binary right operand has a strictly tighter operator, so
      `a - b - c` is `(a - b) - c` and `a - b * c` is `a - (b * c)`. */
  lemma {:induction false} BinaryNesting(lv: Level, e: Exprs.Expr)
    requires Derives(lv, e) && e.Binary?
    ensures 2 <= OperatorRank(e.op.tokenType) <= Rank(lv)
    ensures e.left.Binary? ==> OperatorRank(e.left.op.tokenType) <= OperatorRank(e.op.tokenType)
    ensures e.right.Binary? ==> OperatorRank(e.right.op.tokenType) < OperatorRank(e.op.tokenType)
    decreases e, Rank(lv)
  {
    if IsBinaryLevel(lv) && IsOperator(lv, e.op.tokenType) && Derives(lv, e.left) && Derives(Tighter(lv), e.right) {
      assert OperatorRank(e.op.tokenType) == Rank(lv);
      if e.left.Binary? {
        BinaryNesting(lv, e.left);
      }
      if e.right.Binary? {
        BinaryNesting(Tighter(lv), e.right);
      }
    } else if IsBinaryLevel(lv) {
      BinaryNesting(Tighter(lv), e);
    } else {
      NoBinaryBelowFactor(lv, e);
    }
  }

  /** `unary` and `primary` derive no binary node at their top. */
  lemma NoBinaryBelowFactor(lv: Level, e: Exprs.Expr)
    requires !IsBinaryLevel(lv) && Derives(lv, e)
    ensures !e.Binary?
  {
  }

  // ---------------------------------------------------------------------
  // Reading a tree back

  /** Whether `primary` reads token `t` as the literal `v`. Because `primary`
      swaps the booleans, `Boolean(true)` is read from a `False` token. */
  predicate ReadsAs(t: Token, v: RoxTypes.RoxType)
  {
    match v
    case Boolean(b) => t.tokenType == if b then False else True
    case Nil => t.tokenType == TokenType.Nil
    case String(_) => t.tokenType == TokenType.String && t.literal == v
    case Number(_) => t.tokenType == TokenType.Number && t.literal == v
  }

  /** A token that reads as the literal `v`. */
  function LiteralToken(v: RoxTypes.RoxType): (t: Token)
    ensures ReadsAs(t, v) && t.tokenType != EOF
  {
    match v
    case Boolean(b) => if b then Token(False, "false", 1, RoxTypes.Nil) else Token(True, "true", 1, RoxTypes.Nil)
    case Nil => Token(TokenType.Nil, "nil", 1, RoxTypes.Nil)
    case String(_) => Token(TokenType.String, "", 1, v)
    case Number(_) => Token(TokenType.Number, "", 1, v)
  }

  const OpenToken := Token(LeftParen, "(", 1, RoxTypes.Nil)
  const CloseToken := Token(RightParen, ")", 1, RoxTypes.Nil)

  /** The tokens of a tree in reading order: operands around their binary
      operator, a prefix operator before its operand, parentheses around a
      group. */
  function Unparse(e: Exprs.Expr): seq<Token>
  {
    match e
    case Binary(l, op, r) => Unparse(l) + [op] + Unparse(r)
    case Grouping(x) => [OpenToken] + Unparse(x) + [CloseToken]
    case Literal(v) => [LiteralToken(v)]
    case Unary(op, x) => [op] + Unparse(x)
  }

  /** The number of tokens of a tree. */
  function Size(e: Exprs.Expr): (n: nat)
    ensures n > 0
  {
    match e
    case Binary(l, _, r) => Size(l) + 1 + Size(r)
    case Grouping(x) => Size(x) + 2
    case Literal(_) => 1
    case Unary(_, x) => 1 + Size(x)
  }

  /** The tokens of `e` stand in `toks` from position `pos` on, part by part. */
  predicate Laid(toks: seq<Token>, pos: nat, e: Exprs.Expr)
    decreases e
  {
    match e
    case Binary(l, op, r) =>
      && Laid(toks, pos, l) && pos + Size(l) < |toks| && toks[pos + Size(l)] == op
      && Laid(toks, pos + Size(l) + 1, r)
    case Grouping(x) =>
      && pos < |toks| && toks[pos] == OpenToken && Laid(toks, pos + 1, x)
      && pos + 1 + Size(x) < |toks| && toks[pos + 1 + Size(x)] == CloseToken
    case Literal(v) => pos < |toks| && ReadsAs(toks[pos], v)
    case Unary(op, x) => pos < |toks| && toks[pos] == op && Laid(toks, pos + 1, x)
  }

  lemma {:induction false} LaidWithin(toks: seq<Token>, pos: nat, e: Exprs.Expr)
    requires Laid(toks, pos, e)
    ensures pos + Size(e) <= |toks|
    decreases e
  {
    match e
    case Binary(l, op, r) => LaidWithin(toks, pos + Size(l) + 1, r);
    case Grouping(x) =>
    case Literal(v) =>
    case Unary(op, x) => LaidWithin(toks, pos + 1, x);
  }

  lemma {:induction false} UnparseSize(e: Exprs.Expr)
    ensures |Unparse(e)| == Size(e)
    decreases e
  {
    match e
    case Binary(l, op, r) => UnparseSize(l); UnparseSize(r);
    case Grouping(x) => UnparseSize(x);
    case Literal(v) =>
    case Unary(op, x) => UnparseSize(x);
  }

  /** `Unparse` lays a tree out: its tokens, between any others, stand where
      `Laid` says. */
  lemma {:induction false} UnparseLaid(pre: seq<Token>, e: Exprs.Expr, post: seq<Token>)
    ensures Laid(pre + Unparse(e) + post, |pre|, e)
    decreases e
  {
    match e
    case Binary(l, op, r) => BinaryLaid(pre, l, op, r, post);
    case Grouping(x) => GroupingLaid(pre, x, post);
    case Literal(v) =>
    case Unary(op, x) => UnaryLaid(pre, op, x, post);
  }

  lemma {:induction false} BinaryLaid(pre: seq<Token>, l: Exprs.Expr, op: Token, r: Exprs.Expr, post: seq<Token>)
    ensures Laid(pre + Unparse(Exprs.Binary(l, op, r)) + post, |pre|, Exprs.Binary(l, op, r))
    decreases Exprs.Binary(l, op, r), 1
  {
    UnparseSize(l);
    LeftLaid(pre, l, op, r, post);
    RightLaid(pre, l, op, r, post);
  }

  lemma {:induction false} LeftLaid(pre: seq<Token>, l: Exprs.Expr, op: Token, r: Exprs.Expr, post: seq<Token>)
    ensures Laid(pre + Unparse(Exprs.Binary(l, op, r)) + post, |pre|, l)
    decreases Exprs.Binary(l, op, r), 0
  {
    var toks := pre + Unparse(Exprs.Binary(l, op, r)) + post;
    assert toks == pre + Unparse(l) + ([op] + Unparse(r) + post);
    UnparseLaid(pre, l, [op] + Unparse(r) + post);
  }

  lemma {:induction false} RightLaid(pre: seq<Token>, l: Exprs.Expr, op: Token, r: Exprs.Expr, post: seq<Token>)
    ensures var toks := pre + Unparse(Exprs.Binary(l, op, r)) + post;
      && |pre| + |Unparse(l)| < |toks| && toks[|pre| + |Unparse(l)|] == op
      && Laid(toks, |pre| + |Unparse(l)| + 1, r)
    decreases Exprs.Binary(l, op, r), 0
  {
    var mid := pre + Unparse(l) + [op];
    var toks := pre + Unparse(Exprs.Binary(l, op, r)) + post;
    assert toks == mid + Unparse(r) + post;
    UnparseLaid(mid, r, post);
  }

  lemma {:induction false} GroupingLaid(pre: seq<Token>, x: Exprs.Expr, post: seq<Token>)
    ensures Laid(pre + Unparse(Exprs.Grouping(x)) + post, |pre|, Exprs.Grouping(x))
    decreases Exprs.Grouping(x), 0
  {
    var toks := pre + Unparse(Exprs.Grouping(x)) + post;
    UnparseSize(x);
    assert toks == (pre + [OpenToken]) + Unparse(x) + ([CloseToken] + post);
    UnparseLaid(pre + [OpenToken], x, [CloseToken] + post);
    assert toks[|pre|] == OpenToken;
    assert toks[|pre| + 1 + Size(x)] == CloseToken;
  }

  lemma {:induction false} UnaryLaid(pre: seq<Token>, op: Token, x: Exprs.Expr, post: seq<Token>)
    ensures Laid(pre + Unparse(Exprs.Unary(op, x)) + post, |pre|, Exprs.Unary(op, x))
    decreases Exprs.Unary(op, x), 0
  {
    var toks := pre + Unparse(Exprs.Unary(op, x)) + post;
    assert toks == (pre + [op]) + Unparse(x) + post;
    UnparseLaid(pre + [op], x, post);
    assert toks[|pre|] == op;
  }

  /** `Unparse` lays a tree out at the start of a list. */
  lemma UnparseLaidFirst(e: Exprs.Expr, post: seq<Token>)
    ensures Laid(Unparse(e) + post, 0, e)
  {
    UnparseLaid([], e, post);
    assert [] + Unparse(e) + post == Unparse(e) + post;
  }

  /** A token of kind `kind` after a tree parsed at level `lv` ends it: no
      loop of that level or of a tighter one takes it as an operator. */
  predicate Ends(lv: Level, kind: TokenType)
  {
    OperatorRank(kind) == 0 || OperatorRank(kind) > Rank(lv)
  }

  /** Completeness of the parser for its grammar: the tokens of a tree that
      level `lv` derives, followed by a token that ends it, parse back to the
      same tree and stop right after its tokens. */
  lemma {:induction false} LevelComplete(toks: seq<Token>, lv: Level, e: Exprs.Expr, pos: nat)
    requires ValidTokens(toks) && Derives(lv, e) && Laid(toks, pos, e)
    requires pos + Size(e) < |toks| && Ends(lv, toks[pos + Size(e)].tokenType)
    ensures ParseLevel(toks, lv, pos) == Parsed(Ok(e), pos + Size(e))
    decreases e, Rank(lv), 5
  {
    match lv
    case Primary => PrimaryComplete(toks, e, pos);
    case Unary => UnaryComplete(toks, e, pos);
    case _ => BinaryComplete(toks, lv, e, pos);
  }

  lemma {:induction false} UnaryComplete(toks: seq<Token>, e: Exprs.Expr, pos: nat)
    requires ValidTokens(toks) && Derives(Unary, e) && Laid(toks, pos, e)
    requires pos + Size(e) < |toks| && Ends(Unary, toks[pos + Size(e)].tokenType)
    ensures ParseLevel(toks, Unary, pos) == Parsed(Ok(e), pos + Size(e))
    decreases e, Rank(Unary), 4
  {
    if e.Unary? && IsOperator(Unary, e.op.tokenType) && Derives(Unary, e.operand) {
      LevelComplete(toks, Unary, e.operand, pos + 1);
      UnaryStep(toks, pos, e.operand, pos + Size(e));
    } else {
      LevelComplete(toks, Primary, e, pos);
      PrimaryStart(toks, pos, e);
    }
  }

  lemma {:induction false} BinaryComplete(toks: seq<Token>, lv: Level, e: Exprs.Expr, pos: nat)
    requires ValidTokens(toks) && IsBinaryLevel(lv) && Derives(lv, e) && Laid(toks, pos, e)
    requires pos + Size(e) < |toks| && Ends(lv, toks[pos + Size(e)].tokenType)
    ensures ParseLevel(toks, lv, pos) == Parsed(Ok(e), pos + Size(e))
    decreases e, Rank(lv), 4
  {
    SpineComplete(toks, lv, e, pos);
    MoreStops(toks, lv, e, pos + Size(e));
  }

  /** `unary` reads a prefix operator and its operand. */
  lemma UnaryStep(toks: seq<Token>, pos: nat, x: Exprs.Expr, end: nat)
    requires ValidTokens(toks) && pos + 1 < |toks| && MatchesOp(toks, pos, Unary)
    requires ParseLevel(toks, Unary, pos + 1) == Parsed(Ok(x), end)
    ensures ParseLevel(toks, Unary, pos) == Parsed(Ok(Exprs.Unary(toks[pos], x)), end)
  {
  }

  /** `unary` hands a tree that starts with a literal or a '(' to `primary`. */
  lemma PrimaryStart(toks: seq<Token>, pos: nat, e: Exprs.Expr)
    requires ValidTokens(toks) && pos < |toks| && Derives(Primary, e) && Laid(toks, pos, e)
    ensures ParseLevel(toks, Unary, pos) == ParseLevel(toks, Primary, pos)
  {
    assert !MatchesOp(toks, pos, Unary);
  }

  /** A binary level's loop stops at a token that ends the level. */
  lemma MoreStops(toks: seq<Token>, lv: Level, e: Exprs.Expr, end: nat)
    requires ValidTokens(toks) && IsBinaryLevel(lv) && end < |toks| && Ends(lv, toks[end].tokenType)
    ensures ParseMore(toks, lv, e, end) == Parsed(Ok(e), end)
  {
    if MatchesOp(toks, end, lv) {
      OperatorRankOf(lv, toks[end].tokenType);
    }
  }

  /** A binary level reads the whole left-leaning chain of its operators: the
      parse of level `lv` comes to its loop with the tree `e` built, provided
      the token after `e` continues no tighter level. */
  lemma {:induction false} SpineComplete(toks: seq<Token>, lv: Level, e: Exprs.Expr, pos: nat)
    requires ValidTokens(toks) && IsBinaryLevel(lv) && Derives(lv, e) && Laid(toks, pos, e)
    requires pos + Size(e) < |toks| && Ends(Tighter(lv), toks[pos + Size(e)].tokenType)
    ensures ParseLevel(toks, lv, pos) == ParseMore(toks, lv, e, pos + Size(e))
    decreases e, Rank(lv), 3
  {
    if e.Binary? && IsOperator(lv, e.op.tokenType) && Derives(lv, e.left) && Derives(Tighter(lv), e.right) {
      SpineExtend(toks, lv, e, pos);
    } else {
      SpineStart(toks, lv, e, pos);
    }
  }

  /** A chain that ends with an operator of the level. */
  lemma {:induction false} SpineExtend(toks: seq<Token>, lv: Level, e: Exprs.Expr, pos: nat)
    requires ValidTokens(toks) && IsBinaryLevel(lv) && Laid(toks, pos, e)
    requires e.Binary? && IsOperator(lv, e.op.tokenType) && Derives(lv, e.left) && Derives(Tighter(lv), e.right)
    requires pos + Size(e) < |toks| && Ends(Tighter(lv), toks[pos + Size(e)].tokenType)
    ensures ParseLevel(toks, lv, pos) == ParseMore(toks, lv, e, pos + Size(e))
    decreases e, Rank(lv), 2
  {
    OperatorRankOf(lv, e.op.tokenType);
    var q := pos + Size(e.left);
    SpineRight(toks, Tighter(lv), e.right, q + 1, q + 1 + Size(e.right));
    SpineJoin(toks, lv, e.left, e.op, e.right, pos, q, q + 1 + Size(e.right));
  }

  /** A chain of one operand, parsed one level tighter. */
  lemma {:induction false} SpineStart(toks: seq<Token>, lv: Level, e: Exprs.Expr, pos: nat)
    requires ValidTokens(toks) && IsBinaryLevel(lv) && Derives(Tighter(lv), e) && Laid(toks, pos, e)
    requires pos + Size(e) < |toks| && Ends(Tighter(lv), toks[pos + Size(e)].tokenType)
    ensures ParseLevel(toks, lv, pos) == ParseMore(toks, lv, e, pos + Size(e))
    decreases e, Rank(lv), 2
  {
    LevelComplete(toks, Tighter(lv), e, pos);
    BinaryLevelUnfold(toks, lv, pos);
  }

  /** The last link of a chain: the chain `l` up to position `q`, then the
      operator `op` there and its right operand `r`, parsed up to `end`. */
  lemma {:induction false} SpineJoin(toks: seq<Token>, lv: Level, l: Exprs.Expr, op: Token, r: Exprs.Expr,
                                     pos: nat, q: nat, end: nat)
    requires ValidTokens(toks) && IsBinaryLevel(lv)
    requires IsOperator(lv, op.tokenType) && OperatorRank(op.tokenType) == Rank(lv)
    requires Derives(lv, l) && Laid(toks, pos, l) && q == pos + Size(l)
    requires q + 1 < |toks| && toks[q] == op
    requires ParseLevel(toks, Tighter(lv), q + 1) == Parsed(Ok(r), end)
    ensures ParseLevel(toks, lv, pos) == ParseMore(toks, lv, Exprs.Binary(l, op, r), end)
    decreases Exprs.Binary(l, op, r), Rank(lv), 0
  {
    SpineLeft(toks, lv, l, pos, q);
    MoreTurn(toks, lv, l, q, Ok(r), end);
  }

  lemma {:induction false} SpineLeft(toks: seq<Token>, lv: Level, l: Exprs.Expr, pos: nat, q: nat)
    requires ValidTokens(toks) && IsBinaryLevel(lv)
    requires Derives(lv, l) && Laid(toks, pos, l) && q == pos + Size(l)
    requires q < |toks| && OperatorRank(toks[q].tokenType) == Rank(lv)
    ensures ParseLevel(toks, lv, pos) == ParseMore(toks, lv, l, q)
    decreases l, Rank(lv), 4
  {
    SpineComplete(toks, lv, l, pos);
  }

  lemma {:induction false} SpineRight(toks: seq<Token>, lv: Level, r: Exprs.Expr, pos: nat, end: nat)
    requires ValidTokens(toks) && Derives(lv, r) && Laid(toks, pos, r)
    requires end == pos + Size(r) && end < |toks| && Ends(lv, toks[end].tokenType)
    ensures ParseLevel(toks, lv, pos) == Parsed(Ok(r), end)
    decreases r, Rank(lv), 6
  {
    LevelComplete(toks, lv, r, pos);
  }

  /** A binary level parses its first operand one level tighter and then
      runs its loop. */
  lemma BinaryLevelUnfold(toks: seq<Token>, lv: Level, pos: nat)
    requires ValidTokens(toks) && pos < |toks| && IsBinaryLevel(lv)
    ensures var left := ParseLevel(toks, Tighter(lv), pos);
      ParseLevel(toks, lv, pos) == if left.result.Err? then left else ParseMore(toks, lv, left.result.value, left.pos)
  {
  }

  /** A kind in the list of a binary level has that level's rank. */
  lemma OperatorRankOf(lv: Level, kind: TokenType)
    requires IsBinaryLevel(lv) && IsOperator(lv, kind)
    ensures OperatorRank(kind) == Rank(lv)
  {
  }

  /** One turn of a binary level's loop: the operand after the operator at
      `q` parses to `right`, ending at `end`. */
  lemma MoreTurn(toks: seq<Token>, lv: Level, left: Exprs.Expr, q: nat, right: Result<Exprs.Expr, ParseErr>, end: nat)
    requires ValidTokens(toks) && IsBinaryLevel(lv) && q + 1 < |toks| && MatchesOp(toks, q, lv)
    requires ParseLevel(toks, Tighter(lv), q + 1) == Parsed(right, end)
    ensures ParseMore(toks, lv, left, q)
         == if right.Err? then Parsed(right, end) else ParseMore(toks, lv, Exprs.Binary(left, toks[q], right.value), end)
  {
  }

  /** A binary level's loop ends at a token that is not one of its operators. */
  lemma MoreEnd(toks: seq<Token>, lv: Level, left: Exprs.Expr, q: nat)
    requires ValidTokens(toks) && IsBinaryLevel(lv) && q < |toks| && !MatchesOp(toks, q, lv)
    ensures ParseMore(toks, lv, left, q) == Parsed(Ok(left), q)
  {
  }

  lemma {:induction false} PrimaryComplete(toks: seq<Token>, e: Exprs.Expr, pos: nat)
    requires ValidTokens(toks) && Derives(Primary, e) && Laid(toks, pos, e) && pos + Size(e) < |toks|
    ensures ParseLevel(toks, Primary, pos) == Parsed(Ok(e), pos + Size(e))
    decreases e, 0, 1
  {
    if e.Grouping? {
      GroupComplete(toks, e.inner, pos);
    } else {
      LiteralStep(toks, pos, e.value);
    }
  }

  /** `primary` reads a parenthesised tree back, ')' included: `x` is laid
      out after the '(' at `pos` and a ')' follows it. */
  lemma {:induction false} GroupComplete(toks: seq<Token>, x: Exprs.Expr, pos: nat)
    requires ValidTokens(toks) && Derives(Equality, x) && pos < |toks| && toks[pos] == OpenToken
    requires Laid(toks, pos + 1, x) && pos + 1 + Size(x) < |toks| && toks[pos + 1 + Size(x)] == CloseToken
    ensures ParsePrimary(toks, pos) == Parsed(Ok(Exprs.Grouping(x)), pos + 2 + Size(x))
    decreases x, 6, 0
  {
    CloseEnds();
    LevelComplete(toks, Equality, x, pos + 1);
    ParenStep(toks, pos, x, pos + 1 + Size(x));
  }

  /** A ')' ends an expression of every level. */
  lemma CloseEnds()
    ensures Ends(Equality, CloseToken.tokenType)
  {
  }

  /** `primary` on a '(' whose expression parses to `x` and stops on a ')'. */
  lemma ParenStep(toks: seq<Token>, pos: nat, x: Exprs.Expr, end: nat)
    requires ValidTokens(toks) && pos + 1 < |toks| && toks[pos].tokenType == LeftParen
    requires ParseLevel(toks, Equality, pos + 1) == Parsed(Ok(x), end) && CheckAt(toks, end, RightParen)
    ensures ParsePrimary(toks, pos) == Parsed(Ok(Exprs.Grouping(x)), end + 1)
  {
    PrimaryAtParen(toks, pos);
  }

  /** `primary` on a '(' is the group that follows it. */
  lemma PrimaryAtParen(toks: seq<Token>, pos: nat)
    requires ValidTokens(toks) && pos < |toks| && toks[pos].tokenType == LeftParen
    ensures pos + 1 < |toks| && ParsePrimary(toks, pos) == ParseGroup(toks, pos + 1)
  {
  }

  /** `primary` reads a literal token as its value. */
  lemma LiteralStep(toks: seq<Token>, pos: nat, v: RoxTypes.RoxType)
    requires ValidTokens(toks) && pos < |toks| && ReadsAs(toks[pos], v)
    ensures ParsePrimary(toks, pos) == Parsed(Ok(Exprs.Literal(v)), pos + 1)
  {
  }

  /** A group: the inner expression parses to `inner`, ending at `end`; then
      a ')' must follow. */
  lemma GroupTurn(toks: seq<Token>, pos: nat, inner: Result<Exprs.Expr, ParseErr>, end: nat)
    requires ValidTokens(toks) && pos < |toks|
    requires ParseLevel(toks, Equality, pos) == Parsed(inner, end)
    ensures end < |toks|
    ensures ParseGroup(toks, pos)
         == if inner.Err? then Parsed(inner, end)
            else if CheckAt(toks, end, RightParen) then Parsed(Ok(Exprs.Grouping(inner.value)), end + 1)
            else Parsed(Err(ParseErr(toks[end], ExpectRightParen)), end)
  {
  }

  /** Parsing reads back what `Unparse` writes: for every tree of the
      grammar, its tokens followed by any tokens that do not start with a
      binary operator parse to that very tree, and parsing stops right after
      the tree's tokens. What follows is left unread: `parse` does not ask
      for `EOF`. */
  lemma ParseUnparse(e: Exprs.Expr, rest: seq<Token>)
    requires Derives(Equality, e) && ValidTokens(rest) && OperatorRank(rest[0].tokenType) == 0
    ensures ValidTokens(Unparse(e) + rest)
    ensures Parse(Unparse(e) + rest) == Parsed(Ok(e), |Unparse(e)|)
  {
    var toks := Unparse(e) + rest;
    UnparseSize(e);
    UnparseLaidFirst(e, rest);
    assert toks[Size(e)] == rest[0];
    LevelComplete(toks, Equality, e, 0);
  }

  /** A token that cannot start an expression stops every level: the parse
      fails with "Expect Expression" on that very token. */
  lemma {:induction false} NoExpression(toks: seq<Token>, lv: Level, pos: nat)
    requires ValidTokens(toks) && pos < |toks|
    requires toks[pos].tokenType !in {False, True, TokenType.Nil, TokenType.Number, TokenType.String, LeftParen, Bang, Minus}
    ensures ParseLevel(toks, lv, pos) == Parsed(Err(ParseErr(toks[pos], ExpectExpression)), pos)
    decreases Rank(lv)
  {
    if IsBinaryLevel(lv) {
      NoExpression(toks, Tighter(lv), pos);
      BinaryLevelUnfold(toks, lv, pos);
    } else if lv == Unary {
      NoExpression(toks, Primary, pos);
    }
  }

  /** The swapped booleans of `primary`: the token `false` parses to the
      value `true`, and `true` to `false`. */
  lemma SwappedBooleans(t: Token, rest: seq<Token>)
    requires t.tokenType == False || t.tokenType == True
    requires ValidTokens(rest) && OperatorRank(rest[0].tokenType) == 0
    ensures ValidTokens([t] + rest)
    ensures Parse([t] + rest) == Parsed(Ok(Exprs.Literal(RoxTypes.Boolean(t.tokenType == False))), 1)
  {
    var e := Exprs.Literal(RoxTypes.Boolean(t.tokenType == False));
    var toks := [t] + rest;
    assert toks[1] == rest[0];
    LiteralDerives(Equality, e.value);
    LevelComplete(toks, Equality, e, 0);
  }

  /** A literal is an expression of every level. */
  lemma {:induction false} LiteralDerives(lv: Level, v: RoxTypes.RoxType)
    ensures Derives(lv, Exprs.Literal(v))
    decreases Rank(lv)
  {
    if IsBinaryLevel(lv) {
      LiteralDerives(Tighter(lv), v);
    } else if lv == Unary {
      LiteralDerives(Primary, v);
    }
  }

  // ---------------------------------------------------------------------
  // Recovery

  /** The loop of `synchronize`, from cursor `p` on: it stops at `EOF`, right
      after a `;`, or right before a `return`. */
  function SyncFrom(toks: seq<Token>, p: nat): (r: nat)
    requires ValidTokens(toks) && 0 < p < |toks|
    decreases |toks| - p
  {
    if AtEndAt(toks, p) then p
    else if toks[p - 1].tokenType == Semicolon then p
    else if toks[p].tokenType == Return then p
    else
      NotLastToken(toks, p);
      SyncFrom(toks, p + 1)
  }

  /** Where `synchronize` may stop at cursor `k`. */
  predicate SyncPoint(toks: seq<Token>, k: nat)
    requires 0 < k < |toks|
  {
    AtEndAt(toks, k) || toks[k - 1].tokenType == Semicolon || toks[k].tokenType == Return
  }

  /** `synchronize` stops at the first place from `p` on where it may stop. */
  lemma {:induction false} SyncFromIsFirstStop(toks: seq<Token>, p: nat)
    requires ValidTokens(toks) && 0 < p < |toks|
    ensures p <= SyncFrom(toks, p) < |toks|
    ensures SyncPoint(toks, SyncFrom(toks, p))
    ensures forall k :: p <= k < SyncFrom(toks, p) ==> !SyncPoint(toks, k)
    decreases |toks| - p
  {
    if !SyncPoint(toks, p) {
      NotLastToken(toks, p);
      SyncFromIsFirstStop(toks, p + 1);
    }
  }
}

/** The `Parser` of src/parser.rs: a cursor over a token list, with one
    method per grammar level. Each method is proved to return what module
    Grammar computes for its level from the cursor it starts at, and to leave
    the cursor where that parse stops. */
module Parsing {
  import opened Basics
  import opened Tokens
  import opened Grammar
  import Exprs
  import RoxTypes

  class Parser {
    const tokens: seq<Token>
    var current: nat

    /** `peek` cannot fail: the list ends with `EOF` and the cursor is on it
        or before it. */
    ghost predicate Valid()
      reads this
    {
      ValidTokens(tokens) && current < |tokens|
    }

    constructor (list: seq<Token>)
      ensures tokens == list && current == 0
      ensures ValidTokens(list) ==> Valid()
    {
      tokens := list;
      current := 0;
    }

    function Peek(): (t: Token)
      reads this
      requires current < |tokens|
      ensures t == tokens[current]
    {
      tokens[current]
    }

    function AtEnd(): (b: bool)
      reads this
      requires current < |tokens|
      ensures b <==> AtEndAt(tokens, current)
    {
      Peek().tokenType == EOF
    }

    function Previous(): (t: Token)
      reads this
      requires 0 < current <= |tokens|
      ensures t == tokens[current - 1]
    {
      tokens[current - 1]
    }

    function Check(kind: TokenType): (b: bool)
      reads this
      requires current < |tokens|
      ensures b <==> CheckAt(tokens, current, kind)
    {
      if AtEnd() then false else Peek().tokenType == kind
    }

    /** Moves past the current token unless it is `EOF`, and returns the
        token before the cursor (which must exist). */
    method Advance() returns (t: Token)
      requires Valid() && (current > 0 || !AtEnd())
      modifies this
      ensures Valid()
      ensures current == if old(AtEnd()) then old(current) else old(current) + 1
      ensures 0 < current && t == tokens[current - 1]
    {
      if !AtEnd() {
        NotLastToken(tokens, current);
        current := current + 1;
      }
      t := Previous();
    }

    /** `match_tokens`: advances past the current token when its kind is in
        `kinds`. */
    method MatchTokens(kinds: seq<TokenType>) returns (matched: bool)
      requires Valid()
      modifies this
      ensures Valid()
      ensures matched <==> MatchesAt(tokens, old(current), kinds)
      ensures current == if matched then old(current) + 1 else old(current)
    {
      for i := 0 to |kinds|
        invariant current == old(current)
        invariant forall j :: 0 <= j < i ==> !CheckAt(tokens, current, kinds[j])
      {
        if Check(kinds[i]) {
          var _ := Advance();
          return true;
        }
      }
      return false;
    }

    /** `consume`: the current token when it has kind `kind`, otherwise an
        error at the current token. */
    method Consume(kind: TokenType, message: string) returns (r: Result<Token, ParseErr>)
      requires Valid()
      modifies this
      ensures Valid()
      ensures CheckAt(tokens, old(current), kind) ==> r == Ok(tokens[old(current)]) && current == old(current) + 1
      ensures !CheckAt(tokens, old(current), kind) ==> r == Err(ParseErr(tokens[old(current)], message)) && current == old(current)
    {
      if Check(kind) {
        var t := Advance();
        return Ok(t);
      }
      return Err(ParseErr(Peek(), message));
    }

    /** `synchronize`: skips tokens up to a likely statement boundary. */
    method Synchronize()
      requires Valid() && (current > 0 || !AtEnd())
      modifies this
      ensures Valid()
      ensures current == SyncFrom(tokens, if old(AtEnd()) then old(current) else old(current) + 1)
    {
      var _ := Advance();
      ghost var start := current;
      while !AtEnd()
        invariant Valid() && 0 < start <= current
        invariant SyncFrom(tokens, start) == SyncFrom(tokens, current)
        decreases |tokens| - current
      {
        if Previous().tokenType == Semicolon {
          return;
        }
        if Peek().tokenType == Return {
          return;
        }
        var _ := Advance();
      }
    }

    /** `parse`: one expression from the cursor on. */
    method Parse() returns (r: Result<Exprs.Expr, ParseErr>)
      requires Valid()
      modifies this
      ensures Valid()
      ensures Parsed(r, current) == ParseLevel(tokens, Level.Equality, old(current))
    {
      r := Expression();
    }

    method Expression() returns (r: Result<Exprs.Expr, ParseErr>)
      requires Valid()
      modifies this
      ensures Valid()
      ensures Parsed(r, current) == ParseLevel(tokens, Level.Equality, old(current))
      decreases |tokens| - current, 7
    {
      r := Equality();
    }

    method Equality() returns (r: Result<Exprs.Expr, ParseErr>)
      requires Valid()
      modifies this
      ensures Valid()
      ensures Parsed(r, current) == ParseLevel(tokens, Level.Equality, old(current))
      decreases |tokens| - current, 6
    {
      var left := Comparison();
      BinaryLevelUnfold(tokens, Level.Equality, old(current));
      if left.Err? {
        return left;
      }
      var expr := left.value;
      ghost var at := current;
      var matched := MatchTokens(Operators(Level.Equality));
      OperatorsMatch(tokens, at, Level.Equality);
      while matched
        invariant Valid() && at < |tokens|
        invariant matched <==> MatchesOp(tokens, at, Level.Equality)
        invariant current == if matched then at + 1 else at
        invariant ParseLevel(tokens, Level.Equality, old(current)) == ParseMore(tokens, Level.Equality, expr, at)
        decreases |tokens| - at
      {
        var operator := Previous();
        var right := Comparison();
        MoreTurn(tokens, Level.Equality, expr, at, right, current);
        if right.Err? {
          return right;
        }
        expr := Exprs.Binary(expr, operator, right.value);
        at := current;
        matched := MatchTokens(Operators(Level.Equality));
        OperatorsMatch(tokens, at, Level.Equality);
      }
      MoreEnd(tokens, Level.Equality, expr, at);
      return Ok(expr);
    }

    method Comparison() returns (r: Result<Exprs.Expr, ParseErr>)
      requires Valid()
      modifies this
      ensures Valid()
      ensures Parsed(r, current) == ParseLevel(tokens, Level.Comparison, old(current))
      decreases |tokens| - current, 5
    {
      var left := Term();
      BinaryLevelUnfold(tokens, Level.Comparison, old(current));
      if left.Err? {
        return left;
      }
      var expr := left.value;
      ghost var at := current;
      var matched := MatchTokens(Operators(Level.Comparison));
      OperatorsMatch(tokens, at, Level.Comparison);
      while matched
        invariant Valid() && at < |tokens|
        invariant matched <==> MatchesOp(tokens, at, Level.Comparison)
        invariant current == if matched then at + 1 else at
        invariant ParseLevel(tokens, Level.Comparison, old(current)) == ParseMore(tokens, Level.Comparison, expr, at)
        decreases |tokens| - at
      {
        var operator := Previous();
        var right := Term();
        MoreTurn(tokens, Level.Comparison, expr, at, right, current);
        if right.Err? {
          return right;
        }
        expr := Exprs.Binary(expr, operator, right.value);
        at := current;
        matched := MatchTokens(Operators(Level.Comparison));
        OperatorsMatch(tokens, at, Level.Comparison);
      }
      MoreEnd(tokens, Level.Comparison, expr, at);
      return Ok(expr);
    }

    method Term() returns (r: Result<Exprs.Expr, ParseErr>)
      requires Valid()
      modifies this
      ensures Valid()
      ensures Parsed(r, current) == ParseLevel(tokens, Level.Term, old(current))
      decreases |tokens| - current, 4
    {
      var left := Factor();
      BinaryLevelUnfold(tokens, Level.Term, old(current));
      if left.Err? {
        return left;
      }
      var expr := left.value;
      ghost var at := current;
      var matched := MatchTokens(Operators(Level.Term));
      OperatorsMatch(tokens, at, Level.Term);
      while matched
        invariant Valid() && at < |tokens|
        invariant matched <==> MatchesOp(tokens, at, Level.Term)
        invariant current == if matched then at + 1 else at
        invariant ParseLevel(tokens, Level.Term, old(current)) == ParseMore(tokens, Level.Term, expr, at)
        decreases |tokens| - at
      {
        var operator := Previous();
        var right := Factor();
        MoreTurn(tokens, Level.Term, expr, at, right, current);
        if right.Err? {
          return right;
        }
        expr := Exprs.Binary(expr, operator, right.value);
        at := current;
        matched := MatchTokens(Operators(Level.Term));
        OperatorsMatch(tokens, at, Level.Term);
      }
      MoreEnd(tokens, Level.Term, expr, at);
      return Ok(expr);
    }

    method Factor() returns (r: Result<Exprs.Expr, ParseErr>)
      requires Valid()
      modifies this
      ensures Valid()
      ensures Parsed(r, current) == ParseLevel(tokens, Level.Factor, old(current))
      decreases |tokens| - current, 3
    {
      var left := Unary();
      BinaryLevelUnfold(tokens, Level.Factor, old(current));
      if left.Err? {
        return left;
      }
      var expr := left.value;
      ghost var at := current;
      var matched := MatchTokens(Operators(Level.Factor));
      OperatorsMatch(tokens, at, Level.Factor);
      while matched
        invariant Valid() && at < |tokens|
        invariant matched <==> MatchesOp(tokens, at, Level.Factor)
        invariant current == if matched then at + 1 else at
        invariant ParseLevel(tokens, Level.Factor, old(current)) == ParseMore(tokens, Level.Factor, expr, at)
        decreases |tokens| - at
      {
        var operator := Previous();
        var right := Unary();
        MoreTurn(tokens, Level.Factor, expr, at, right, current);
        if right.Err? {
          return right;
        }
        expr := Exprs.Binary(expr, operator, right.value);
        at := current;
        matched := MatchTokens(Operators(Level.Factor));
        OperatorsMatch(tokens, at, Level.Factor);
      }
      MoreEnd(tokens, Level.Factor, expr, at);
      return Ok(expr);
    }

    method Unary() returns (r: Result<Exprs.Expr, ParseErr>)
      requires Valid()
      modifies this
      ensures Valid()
      ensures Parsed(r, current) == ParseLevel(tokens, Level.Unary, old(current))
      decreases |tokens| - current, 2
    {
      var matched := MatchTokens(Operators(Level.Unary));
      OperatorsMatch(tokens, old(current), Level.Unary);
      if matched {
        var operator := Previous();
        var right := Unary();
        if right.Err? {
          return right;
        }
        return Ok(Exprs.Unary(operator, right.value));
      }
      r := Primary();
    }

    method Primary() returns (r: Result<Exprs.Expr, ParseErr>)
      requires Valid()
      modifies this
      ensures Valid()
      ensures Parsed(r, current) == ParseLevel(tokens, Level.Primary, old(current))
      decreases |tokens| - current, 1
    {
      var matched := MatchTokens([False]);
      if matched {
        return Ok(Exprs.Literal(RoxTypes.Boolean(true)));
      }
      matched := MatchTokens([True]);
      if matched {
        return Ok(Exprs.Literal(RoxTypes.Boolean(false)));
      }
      matched := MatchTokens([TokenType.Nil]);
      if matched {
        return Ok(Exprs.Literal(RoxTypes.Nil));
      }
      r := Operand();
    }

    /** The rest of `primary`, once the keyword literals are ruled out: a
        number or string literal, a parenthesised expression, or an error. */
    method Operand() returns (r: Result<Exprs.Expr, ParseErr>)
      requires Valid()
      requires !CheckAt(tokens, current, False) && !CheckAt(tokens, current, True) && !CheckAt(tokens, current, TokenType.Nil)
      modifies this
      ensures Valid()
      ensures Parsed(r, current) == ParsePrimary(tokens, old(current))
      decreases |tokens| - current, 0
    {
      ghost var at := current;
      var matched := MatchTokens([TokenType.Number, TokenType.String]);
      if matched {
        return Ok(Exprs.Literal(Previous().literal));
      }
      matched := MatchTokens([LeftParen]);
      if matched {
        NotLastToken(tokens, at);
        r := Group();
        return;
      }
      return Err(ParseErr(Peek(), ExpectExpression));
    }

    /** The parenthesised case of `primary`, once its '(' is consumed: an
        expression, then a ')'. */
    method Group() returns (r: Result<Exprs.Expr, ParseErr>)
      requires Valid()
      modifies this
      ensures Valid()
      ensures Parsed(r, current) == ParseGroup(tokens, old(current))
      decreases |tokens| - current, 8
    {
      var expr := Expression();
      GroupTurn(tokens, old(current), expr, current);
      if expr.Err? {
        return expr;
      }
      var rpar := Consume(RightParen, ExpectRightParen);
      match rpar {
        case Ok(_) => return Ok(Exprs.Grouping(expr.value));
        case Err(e) => return Err(e);
      }
    }
  }
}

/** The tree-walking evaluator of src/interpreter.rs. `eval` is a function
    from a tree to an outcome: the two cases of `InterpreterResult`, the
    `panic!` that the source reaches on an operator it does not handle, and a
    division by zero, whose IEEE result lies outside a model with exact
    numbers. */
module Interpreter {
  import opened Tokens
  import opened Grammar
  import Exprs
  import RoxTypes

  /** `InterpreterError`: a run-time error carries its message only. */
  datatype InterpreterError = InterpreterError(errorString: string)

  /** What evaluating a tree comes to. `Value` and `Failure` are `Ok` and
      `Err` of `InterpreterResult`; `Panic` is the `panic!` that aborts the
      program; `NonFinite` is a division by zero, which yields an infinity or
      NaN in the source and which the model does not follow further. */
  datatype Outcome =
    | Value(value: RoxTypes.RoxType)
    | Failure(error: InterpreterError)
    | Panic(message: string)
    | NonFinite

  const MinusTypes := "Invalid Types in Binary Minus Expr"
  const AdditionTypes := "Invalid Types in Binary Addition Expr"
  const DivisionTypes := "Invalid Types in Binary Division Expr"
  const MultiplyTypes := "Invalid Types in Binary Multiply Expr"
  const GreaterTypes := "Invalid Types in Binary Greater Comparison Expr"
  const GreaterEqualTypes := "Invalid Types in Binary GreaterEqual Comparison Expr"
  const LessTypes := "Invalid Types in Binary Less Comparison Expr"
  const LessEqualTypes := "Invalid Types in Binary LessEqual Comparison Expr"
  const UnaryNumber := "Unary Expression must be number"
  const InvalidUnary := "Invalid unary expression"
  const ParserPanic := "Invalid Expression, parser panic"

  /** Every message a run-time error can carry. */
  const ErrorMessages := {MinusTypes, AdditionTypes, DivisionTypes, MultiplyTypes, GreaterTypes,
                          GreaterEqualTypes, LessTypes, LessEqualTypes, UnaryNumber, InvalidUnary}

  /** The binary operators `eval` handles; any other one reaches the panic. */
  const HandledBinary := {Minus, Plus, Slash, Star, Greater, GreaterEqual, Less, LessEqual, BangEqual}

  /** The operators that take two numbers and nothing else. */
  const NumericBinary := {Minus, Slash, Star, Greater, GreaterEqual, Less, LessEqual}

  /** The comparisons, which yield a boolean. */
  const Comparisons := {Greater, GreaterEqual, Less, LessEqual}

  /** The message of a binary operator applied to operands of the wrong
      types. */
  function TypeMessage(kind: TokenType): string
  {
    match kind
    case Minus => MinusTypes
    case Plus => AdditionTypes
    case Slash => DivisionTypes
    case Star => MultiplyTypes
    case Greater => GreaterTypes
    case GreaterEqual => GreaterEqualTypes
    case Less => LessTypes
    case LessEqual => LessEqualTypes
    case _ => ""
  }

  /** `truthy`: only `nil` and `false` are false; `0` and the empty string
      are true. */
  function Truthy(v: RoxTypes.RoxType): (b: bool)
    ensures !b <==> v == RoxTypes.Nil || v == RoxTypes.Boolean(false)
  {
    match v
    case Boolean(truth) => truth
    case Nil => false
    case _ => true
  }

  /** `isEqual`: values of different kinds are never equal, `nil` equals
      `nil`, and values of one kind compare their payloads. With exact
      numbers this is value equality. */
  function IsEqual(l: RoxTypes.RoxType, r: RoxTypes.RoxType): (b: bool)
    ensures b <==> l == r
  {
    match (l, r)
    case (String(a), String(b)) => a == b
    case (Nil, Nil) => true
    case (Nil, _) => false
    case (Number(a), Number(b)) => a == b
    case (Boolean(a), Boolean(b)) => a == b
    case (_, _) => false
  }

  /** The operator of a `Binary` node applied to the values of its operands.
      `+` on two numbers subtracts, `!=` yields equality without negating it,
      and `==` falls into the panic, all as src/interpreter.rs:45, :90-92 and
      :93 write them. */
  function BinaryOp(kind: TokenType, l: RoxTypes.RoxType, r: RoxTypes.RoxType): (o: Outcome)
    ensures o.Panic? <==> kind !in HandledBinary
    ensures o.Panic? ==> o.message == ParserPanic
    ensures kind in NumericBinary ==> (o.Failure? <==> !(l.Number? && r.Number?))
    ensures kind == Plus ==> (o.Failure? <==> !((l.Number? && r.Number?) || (l.String? && r.String?)))
    ensures o.Failure? ==> o.error == InterpreterError(TypeMessage(kind))
    ensures o.NonFinite? <==> kind == Slash && l.Number? && r.Number? && r.number == 0.0
    ensures kind in Comparisons && o.Value? ==> o.value.Boolean?
    ensures kind == BangEqual ==> o == Value(RoxTypes.Boolean(IsEqual(l, r)))
    ensures l.Number? && r.Number? ==>
      && (kind == Minus ==> o == Value(RoxTypes.Number(l.number - r.number)))
      && (kind == Plus ==> o == Value(RoxTypes.Number(l.number - r.number)))
      && (kind == Star ==> o == Value(RoxTypes.Number(l.number * r.number)))
      && (kind == Slash && r.number != 0.0 ==> o == Value(RoxTypes.Number(l.number / r.number)))
      && (kind == Greater ==> o == Value(RoxTypes.Boolean(l.number > r.number)))
      && (kind == GreaterEqual ==> o == Value(RoxTypes.Boolean(l.number >= r.number)))
      && (kind == Less ==> o == Value(RoxTypes.Boolean(l.number < r.number)))
      && (kind == LessEqual ==> o == Value(RoxTypes.Boolean(l.number <= r.number)))
    ensures kind == Plus && l.String? && r.String? ==> o == Value(RoxTypes.String(l.text + r.text))
  {
    match kind
    case Minus =>
      if l.Number? && r.Number? then Value(RoxTypes.Number(l.number - r.number))
      else Failure(InterpreterError(MinusTypes))
    case Plus =>
      if l.Number? && r.Number? then Value(RoxTypes.Number(l.number - r.number))
      else if l.String? && r.String? then Value(RoxTypes.String(l.text + r.text))
      else Failure(InterpreterError(AdditionTypes))
    case Slash =>
      if l.Number? && r.Number? then
        if r.number == 0.0 then NonFinite else Value(RoxTypes.Number(l.number / r.number))
      else Failure(InterpreterError(DivisionTypes))
    case Star =>
      if l.Number? && r.Number? then Value(RoxTypes.Number(l.number * r.number))
      else Failure(InterpreterError(MultiplyTypes))
    case Greater =>
      if l.Number? && r.Number? then Value(RoxTypes.Boolean(l.number > r.number))
      else Failure(InterpreterError(GreaterTypes))
    case GreaterEqual =>
      if l.Number? && r.Number? then Value(RoxTypes.Boolean(l.number >= r.number))
      else Failure(InterpreterError(GreaterEqualTypes))
    case Less =>
      if l.Number? && r.Number? then Value(RoxTypes.Boolean(l.number < r.number))
      else Failure(InterpreterError(LessTypes))
    case LessEqual =>
      if l.Number? && r.Number? then Value(RoxTypes.Boolean(l.number <= r.number))
      else Failure(InterpreterError(LessEqualTypes))
    case BangEqual =>
      Value(RoxTypes.Boolean(IsEqual(l, r)))
    case _ =>
      Panic(ParserPanic)
  }

  /** The operator of a `Unary` node applied to the value of its operand:
      `!` negates truthiness, `-` negates a number, any other operator is an
      error (never a panic). */
  function UnaryOp(kind: TokenType, v: RoxTypes.RoxType): (o: Outcome)
    ensures o.Value? || o.Failure?
    ensures o.Value? <==> kind == Bang || (kind == Minus && v.Number?)
    ensures kind == Bang ==> o == Value(RoxTypes.Boolean(!Truthy(v)))
    ensures kind == Minus && v.Number? ==> o == Value(RoxTypes.Number(-v.number))
    ensures o.Failure? ==> o.error.errorString == if kind == Minus then UnaryNumber else InvalidUnary
  {
    match kind
    case Bang => Value(RoxTypes.Boolean(!Truthy(v)))
    case Minus =>
      if v.Number? then Value(RoxTypes.Number(-v.number)) else Failure(InterpreterError(UnaryNumber))
    case _ => Failure(InterpreterError(InvalidUnary))
  }

  /** `eval`. A `Binary` node evaluates its left operand, then its right one,
      and a failure of either is passed on unchanged by `?` before the
      operator is looked at. A panic or a division by zero ends the
      evaluation too. */
  function Eval(e: Exprs.Expr): (o: Outcome)
    ensures o.Panic? ==> o.message == ParserPanic
    ensures o.Failure? ==> o.error.errorString in ErrorMessages
    ensures e.Literal? ==> o == Value(e.value)
  {
    match e
    case Binary(l, op, r) =>
      var left := Eval(l);
      if !left.Value? then left
      else
        var right := Eval(r);
        if !right.Value? then right
        else BinaryOp(op.tokenType, left.value, right.value)
    case Grouping(x) => Eval(x)
    case Literal(v) => Value(v)
    case Unary(op, x) =>
      var operand := Eval(x);
      if !operand.Value? then operand
      else UnaryOp(op.tokenType, operand.value)
  }

  // ---------------------------------------------------------------------
  // Properties of evaluation

  /** `isEqual` is an equivalence, and values of different kinds are never
      equal. */
  lemma IsEqualLaws(a: RoxTypes.RoxType, b: RoxTypes.RoxType, c: RoxTypes.RoxType)
    ensures IsEqual(a, a)
    ensures IsEqual(a, b) == IsEqual(b, a)
    ensures IsEqual(a, b) && IsEqual(b, c) ==> IsEqual(a, c)
    ensures a.String? != b.String? || a.Number? != b.Number? || a.Nil? != b.Nil? ==> !IsEqual(a, b)
  {
  }

  /** The left operand goes first: when it does not yield a value, the
      whole node comes to what the left operand came to, whatever the right
      operand is; the right one is never evaluated. */
  lemma LeftFirst(l: Exprs.Expr, op: Token, r: Exprs.Expr)
    requires !Eval(l).Value?
    ensures Eval(Exprs.Binary(l, op, r)) == Eval(l)
  {
  }

  /** After a left value, a right operand that does not yield a value
      decides the whole node, before the operator is looked at. */
  lemma RightSecond(l: Exprs.Expr, op: Token, r: Exprs.Expr)
    requires Eval(l).Value? && !Eval(r).Value?
    ensures Eval(Exprs.Binary(l, op, r)) == Eval(r)
  {
  }

  /** The tree without its `Grouping` nodes. */
  function Ungroup(e: Exprs.Expr): (u: Exprs.Expr)
    ensures !HasGrouping(u)
  {
    match e
    case Binary(l, op, r) => Exprs.Binary(Ungroup(l), op, Ungroup(r))
    case Grouping(x) => Ungroup(x)
    case Literal(v) => e
    case Unary(op, x) => Exprs.Unary(op, Ungroup(x))
  }

  predicate HasGrouping(e: Exprs.Expr)
  {
    match e
    case Binary(l, _, r) => HasGrouping(l) || HasGrouping(r)
    case Grouping(_) => true
    case Literal(_) => false
    case Unary(_, x) => HasGrouping(x)
  }

  /** Parentheses only steer parsing: at every depth, a `Grouping` node
      evaluates to what its inner tree does. */
  lemma {:induction false} GroupingsTransparent(e: Exprs.Expr)
    ensures Eval(Ungroup(e)) == Eval(e)
  {
    match e
    case Binary(l, op, r) =>
      GroupingsTransparent(l);
      GroupingsTransparent(r);
    case Grouping(x) =>
      GroupingsTransparent(x);
    case Literal(v) =>
    case Unary(op, x) =>
      GroupingsTransparent(x);
  }

  /** Whether an operator of kind `kind` occurs in the tree. */
  predicate Mentions(e: Exprs.Expr, kind: TokenType)
  {
    match e
    case Binary(l, op, r) => op.tokenType == kind || Mentions(l, kind) || Mentions(r, kind)
    case Grouping(x) => Mentions(x, kind)
    case Literal(_) => false
    case Unary(op, x) => op.tokenType == kind || Mentions(x, kind)
  }

  /** On the trees the parser builds, "Invalid unary expression" never
      occurs, and the only way to the panic is an `==` operator. */
  lemma {:induction false} DerivedFailures(lv: Level, e: Exprs.Expr)
    requires Derives(lv, e)
    ensures Eval(e) != Failure(InterpreterError(InvalidUnary))
    ensures Eval(e).Panic? ==> Mentions(e, EqualEqual)
    decreases e, Rank(lv)
  {
    match lv
    case Primary =>
      if e.Grouping? {
        DerivedFailures(Equality, e.inner);
      }
    case Unary =>
      if e.Unary? && IsOperator(Unary, e.op.tokenType) && Derives(Unary, e.operand) {
        DerivedFailures(Unary, e.operand);
      } else {
        DerivedFailures(Primary, e);
      }
    case _ =>
      if e.Binary? && IsOperator(lv, e.op.tokenType) && Derives(lv, e.left) && Derives(Tighter(lv), e.right) {
        DerivedFailures(lv, e.left);
        DerivedFailures(Tighter(lv), e.right);
      } else {
        DerivedFailures(Tighter(lv), e);
      }
  }

  /** `==` between two values panics. */
  lemma EqualEqualPanics(l: Exprs.Expr, op: Token, r: Exprs.Expr)
    requires op.tokenType == EqualEqual && Eval(l).Value? && Eval(r).Value?
    ensures Eval(Exprs.Binary(l, op, r)) == Panic(ParserPanic)
  {
  }

  /** The defect at src/interpreter.rs:45: `+` on two numbers yields their
      difference, so `1 + 2` is `-1`. */
  lemma PlusSubtracts(a: real, b: real, op: Token)
    requires op.tokenType == Plus
    ensures Eval(Exprs.Binary(Exprs.Literal(RoxTypes.Number(a)), op, Exprs.Literal(RoxTypes.Number(b))))
         == Value(RoxTypes.Number(a - b))
  {
  }

  /** `+` on two strings concatenates them, left then right. */
  lemma PlusConcatenates(a: string, b: string, op: Token)
    requires op.tokenType == Plus
    ensures Eval(Exprs.Binary(Exprs.Literal(RoxTypes.String(a)), op, Exprs.Literal(RoxTypes.String(b))))
         == Value(RoxTypes.String(a + b))
  {
  }

  /** The defect at src/interpreter.rs:90-92: `!=` yields equality, so
      `v != v` is `true` for every value `v`. */
  lemma NotEqualSaysEqual(v: RoxTypes.RoxType, op: Token)
    requires op.tokenType == BangEqual
    ensures Eval(Exprs.Binary(Exprs.Literal(v), op, Exprs.Literal(v))) == Value(RoxTypes.Boolean(true))
  {
  }
}

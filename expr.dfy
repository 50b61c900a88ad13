/** The syntax tree and its Lisp-style printer (src/expr.rs). */
module Exprs {
  import opened Basics
  import opened Tokens
  import RoxTypes

  /** Each node owns its subtrees: `Binary` two, `Unary` and `Grouping` one,
      `Literal` none. */
  datatype Expr =
    | Binary(left: Expr, op: Token, right: Expr)
    | Grouping(inner: Expr)
    | Literal(value: RoxTypes.RoxType)
    | Unary(op: Token, operand: Expr)

  /** The parts of a parenthesised form, each preceded by one space. */
  function SpacedJoin(parts: seq<string>): string
  {
    if parts == [] then "" else SpacedJoin(parts[..|parts| - 1]) + " " + parts[|parts| - 1]
  }

  /** What `expr_paren` builds: an open parenthesis, the name, each part
      preceded by a space, and a closing parenthesis. */
  function ParenText(name: string, parts: seq<string>): string
  {
    "(" + name + SpacedJoin(parts) + ")"
  }

  /** `Expr::to_string`. `RoxType` implements no text form in these files, so
      the rendering of a literal value is the parameter `show`. */
  function ToString(e: Expr, show: RoxTypes.RoxType -> string): (text: string)
    ensures e.Literal? ==> text == show(e.value)
    ensures !e.Literal? ==> 2 <= |text| && text[0] == '(' && text[|text| - 1] == ')'
  {
    match e
    case Binary(l, op, r) => ParenText(op.lexeme, [ToString(l, show), ToString(r, show)])
    case Literal(v) => show(v)
    case Grouping(x) => "(group " + ToString(x, show) + ")"
    case Unary(op, x) => "(" + op.lexeme + " " + ToString(x, show) + ")"
  }

  /** The printed form of each expression of a list, in list order. */
  function Render(exprs: seq<Expr>, show: RoxTypes.RoxType -> string): (texts: seq<string>)
    ensures |texts| == |exprs|
    ensures forall i :: 0 <= i < |exprs| ==> texts[i] == ToString(exprs[i], show)
  {
    seq(|exprs|, i requires 0 <= i < |exprs| => ToString(exprs[i], show))
  }

  /** `expr_paren`: builds the text by appending to a growing string. */
  method ExprParen(name: string, exprs: seq<Expr>, show: RoxTypes.RoxType -> string) returns (paren: string)
    ensures paren == ParenText(name, Render(exprs, show))
  {
    paren := "(" + name;
    for i := 0 to |exprs|
      invariant paren == "(" + name + SpacedJoin(Render(exprs[..i], show))
    {
      assert Render(exprs[..i + 1], show)[..i] == Render(exprs[..i], show);
      paren := paren + " ";
      paren := paren + ToString(exprs[i], show);
    }
    assert exprs[..|exprs|] == exprs;
    paren := paren + ")";
  }

  /** A binary node is printed by `expr_paren` with its operator's lexeme
      and its two operands. */
  lemma BinaryUsesExprParen(l: Expr, op: Token, r: Expr, show: RoxTypes.RoxType -> string)
    ensures ToString(Binary(l, op, r), show) == ParenText(op.lexeme, Render([l, r], show))
    ensures ToString(Binary(l, op, r), show)
         == "(" + op.lexeme + " " + ToString(l, show) + " " + ToString(r, show) + ")"
  {
    var L, R := ToString(l, show), ToString(r, show);
    assert ToString(Binary(l, op, r), show) == ParenText(op.lexeme, [L, R]);
    PairText(op.lexeme, L, R);
    var texts := Render([l, r], show);
    assert texts[0] == L && texts[1] == R;
    assert texts == [L, R];
  }

  /** A unary node and a grouping print in the same layout as `expr_paren`
      with a single part: the operator's lexeme, or the word `group`, then
      the operand after one space, all in one pair of parentheses. */
  lemma OneOperandForms(op: Token, x: Expr, show: RoxTypes.RoxType -> string)
    ensures ToString(Unary(op, x), show) == ParenText(op.lexeme, Render([x], show))
    ensures ToString(Grouping(x), show) == ParenText("group", Render([x], show))
  {
    var texts := Render([x], show);
    assert texts == [ToString(x, show)];
    assert texts[..0] == [];
    assert SpacedJoin(texts) == " " + ToString(x, show);
  }

  lemma PairText(name: string, a: string, b: string)
    ensures ParenText(name, [a, b]) == "(" + name + " " + a + " " + b + ")"
  {
    SpacedJoinTwo(a, b);
  }

  lemma SpacedJoinTwo(a: string, b: string)
    ensures SpacedJoin([a, b]) == " " + a + " " + b
  {
    assert [a, b][..1] == [a];
    assert [a][..0] == [];
    assert SpacedJoin([a]) == " " + a;
  }

  /** Joining a prefix of the parts gives a prefix of the joined text. */
  lemma {:induction false} SpacedJoinPrefix(parts: seq<string>, n: nat)
    requires n <= |parts|
    ensures |SpacedJoin(parts[..n])| <= |SpacedJoin(parts)|
    ensures SpacedJoin(parts)[..|SpacedJoin(parts[..n])|] == SpacedJoin(parts[..n])
    decreases |parts| - n
  {
    if n == |parts| {
      assert parts[..n] == parts;
    } else {
      SpacedJoinPrefix(parts, n + 1);
      assert parts[..n + 1][..n] == parts[..n];
    }
  }

  /** The layout `expr_paren` promises: the text starts with "(" and the
      name, each part appears in list order right after exactly one space,
      and the text ends with one ")". */
  lemma ParenTextLayout(name: string, parts: seq<string>, k: nat)
    requires k < |parts|
    ensures var text := ParenText(name, parts);
      var at := 1 + |name| + |SpacedJoin(parts[..k])|;
      && text[..1 + |name|] == "(" + name
      && text[|text| - 1] == ')'
      && at + 1 + |parts[k]| < |text|
      && text[at] == ' '
      && text[at + 1..at + 1 + |parts[k]|] == parts[k]
  {
    SpacedJoinPrefix(parts, k + 1);
    assert parts[..k + 1][..k] == parts[..k];
    var joined := SpacedJoin(parts);
    var upto := SpacedJoin(parts[..k + 1]);
    assert upto == SpacedJoin(parts[..k]) + " " + parts[k];
    var o := |SpacedJoin(parts[..k])|;
    assert joined[o] == upto[o] == ' ';
    assert joined[o + 1..o + 1 + |parts[k]|] == upto[o + 1..o + 1 + |parts[k]|] == parts[k];
    var text := ParenText(name, parts);
    assert text == "(" + name + joined + ")";
    assert text[1 + |name| + o + 1..1 + |name| + o + 1 + |parts[k]|] == joined[o + 1..o + 1 + |parts[k]|];
  }

  /** The number of nodes that print their own pair of parentheses. */
  function ParenNodes(e: Expr): nat
  {
    match e
    case Binary(l, _, r) => 1 + ParenNodes(l) + ParenNodes(r)
    case Grouping(x) => 1 + ParenNodes(x)
    case Literal(_) => 0
    case Unary(_, x) => 1 + ParenNodes(x)
  }

  /** No operator lexeme in the tree contains a parenthesis. */
  predicate LexemesParenFree(e: Expr)
  {
    match e
    case Binary(l, op, r) => '(' !in op.lexeme && ')' !in op.lexeme && LexemesParenFree(l) && LexemesParenFree(r)
    case Grouping(x) => LexemesParenFree(x)
    case Literal(_) => true
    case Unary(op, x) => '(' !in op.lexeme && ')' !in op.lexeme && LexemesParenFree(x)
  }

  /** When neither lexemes nor literal texts contain parentheses, the
      printed form has exactly one "(" and one ")" per non-literal node, so
      every parenthesis the printer opens it also closes. */
  lemma {:induction false} ParensPerNode(e: Expr, show: RoxTypes.RoxType -> string)
    requires forall v :: '(' !in show(v) && ')' !in show(v)
    requires LexemesParenFree(e)
    ensures Occurrences(ToString(e, show), '(') == ParenNodes(e)
    ensures Occurrences(ToString(e, show), ')') == ParenNodes(e)
  {
    match e
    case Binary(l, op, r) =>
      ParensPerNode(l, show);
      ParensPerNode(r, show);
      PairText(op.lexeme, ToString(l, show), ToString(r, show));
      PairCounts(op.lexeme, ToString(l, show), ToString(r, show), '(');
      PairCounts(op.lexeme, ToString(l, show), ToString(r, show), ')');
    case Grouping(x) =>
      ParensPerNode(x, show);
      GroupCounts(ToString(x, show), '(');
      GroupCounts(ToString(x, show), ')');
    case Literal(v) =>
      OccurrencesAbsent(show(v), '(');
      OccurrencesAbsent(show(v), ')');
    case Unary(op, x) =>
      ParensPerNode(x, show);
      UnaryCounts(op.lexeme, ToString(x, show), '(');
      UnaryCounts(op.lexeme, ToString(x, show), ')');
  }

  lemma UnaryCounts(head: string, x: string, c: char)
    requires c == '(' || c == ')'
    requires c !in head
    ensures Occurrences("(" + head + " " + x + ")", c) == 1 + Occurrences(x, c)
  {
    OccurrencesAppend("(" + head + " " + x, ")", c);
    OccurrencesAppend("(" + head + " ", x, c);
    OccurrencesAppend("(" + head, " ", c);
    OccurrencesAppend("(", head, c);
    OccurrencesAbsent(head, c);
  }

  lemma GroupCounts(x: string, c: char)
    requires c == '(' || c == ')'
    ensures Occurrences("(group " + x + ")", c) == 1 + Occurrences(x, c)
  {
    OccurrencesAppend("(group " + x, ")", c);
    OccurrencesAppend("(group ", x, c);
    OccurrencesAppend("(", "group ", c);
    assert "(group " == "(" + "group ";
    OccurrencesAbsent("group ", c);
  }

  lemma PairCounts(head: string, x: string, y: string, c: char)
    requires c == '(' || c == ')'
    requires c !in head
    ensures Occurrences("(" + head + " " + x + " " + y + ")", c) == 1 + Occurrences(x, c) + Occurrences(y, c)
  {
    OccurrencesAppend("(" + head + " " + x + " " + y, ")", c);
    OccurrencesAppend("(" + head + " " + x + " ", y, c);
    OccurrencesAppend("(" + head + " " + x, " ", c);
    UnaryCounts(head, x, c);
    OccurrencesAppend("(" + head + " ", x, c);
  }
}

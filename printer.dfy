// The expression tree of the Lox interpreter and its printer, which renders
// a tree as a parenthesised prefix string such as "(* (- 123) (group 45.67))".
//
// `Render` is the reference definition of the printed form, one equation
// per kind of node.  `Accept` and `Parenthesize` follow the printer's own
// structure (a dispatch on the node, and a loop that appends one printed
// sub-expression at a time) and are proved to produce exactly `Render`.

module Printer {
  import opened Tokens

  /** A closed expression tree. */
  datatype Expr =
    | Binary(left: Expr, operator: Token, right: Expr)
    | Grouping(expression: Expr)
    | Literal(value: string)
    | Unary(operator: Token, right: Expr)

  /** A parenthesised list: `(`, a name, the printed operands, `)`. */
  function List(name: string, operands: string): (s: string)
    ensures |s| == |name| + |operands| + 2 && s[0] == '(' && s[|s| - 1] == ')'
  {
    "(" + name + operands + ")"
  }

  /** The printed form: a literal is its text (`nil` when empty); every other
      node is a parenthesised list of a name followed by its operands, each
      after one space, left before right. */
  function Render(e: Expr): (s: string)
    ensures |s| > 0
    ensures !e.Literal? ==> s[0] == '(' && s[|s| - 1] == ')'
  {
    match e
    case Binary(l, op, r) => List(op.lexeme, " " + Render(l) + " " + Render(r))
    case Grouping(x) => List("group", " " + Render(x))
    case Literal(v) => if v == "" then "nil" else v
    case Unary(op, r) => List(op.lexeme, " " + Render(r))
  }

  /** The printed operands of a parenthesised list, each preceded by one
      space, in list order. */
  function Spaced(es: seq<Expr>): (s: string)
    ensures (es == []) == (s == [])
    ensures es != [] ==> s[0] == ' ' && |s| >= 2 * |es|
  {
    if es == [] then "" else Spaced(es[..|es| - 1]) + " " + Render(es[|es| - 1])
  }

  function Size(e: Expr): nat {
    match e
    case Binary(l, _, r) => Size(l) + Size(r) + 3
    case Grouping(x) => Size(x) + 2
    case Literal(_) => 0
    case Unary(_, r) => Size(r) + 2
  }

  function SizeAll(es: seq<Expr>): nat {
    if es == [] then 0 else Size(es[0]) + 1 + SizeAll(es[1..])
  }

  lemma SizeAllOne(x: Expr)
    ensures SizeAll([x]) == Size(x) + 1
  {
    assert [x][1..] == [];
  }

  lemma {:induction false} SizeAllBound(es: seq<Expr>, i: nat)
    requires i < |es|
    ensures Size(es[i]) < SizeAll(es)
  {
    if i > 0 {
      SizeAllBound(es[1..], i - 1);
    }
  }

  lemma SpacedOne(x: Expr)
    ensures Spaced([x]) == " " + Render(x)
  {
    assert [x][..0] == [];
  }

  lemma SpacedTwo(l: Expr, r: Expr)
    ensures Spaced([l, r]) == " " + Render(l) + " " + Render(r)
  {
    assert [l, r][..1] == [l];
    SpacedOne(l);
  }

  /** Prints an expression tree (the entry point of the printer). */
  method Print(e: Expr) returns (s: string)
    ensures s == Render(e)
  {
    s := Accept(e);
  }

  /** Dispatches on the kind of node, printing operator nodes through
      `Parenthesize` and literals directly. */
  method Accept(e: Expr) returns (s: string)
    ensures s == Render(e)
    decreases Size(e), 1
  {
    match e
    case Binary(l, op, r) =>
      assert SizeAll([l, r]) == Size(l) + Size(r) + 2 by {
        assert [l, r][1..] == [r];
        SizeAllOne(r);
      }
      s := Parenthesize(op.lexeme, [l, r]);
      SpacedTwo(l, r);
    case Grouping(x) =>
      SizeAllOne(x);
      s := Parenthesize("group", [x]);
      SpacedOne(x);
    case Literal(v) =>
      s := if v == "" then "nil" else v;
    case Unary(op, r) =>
      SizeAllOne(r);
      s := Parenthesize(op.lexeme, [r]);
      SpacedOne(r);
  }

  /** Builds `(name e1 e2 ...)` by appending each printed operand in turn. */
  method Parenthesize(name: string, exprs: seq<Expr>) returns (output: string)
    ensures output == List(name, Spaced(exprs))
    decreases SizeAll(exprs), 0
  {
    output := "(";
    output := output + name;
    for i := 0 to |exprs|
      invariant output == "(" + name + Spaced(exprs[..i])
    {
      SizeAllBound(exprs, i);
      var printed := Accept(exprs[i]);
      assert exprs[..i + 1][..i] == exprs[..i];
      output := output + " " + printed;
    }
    assert exprs[..|exprs|] == exprs;
    output := output + ")";
  }

  /** Neither parenthesis occurs in `s`. */
  predicate NoParens(s: string) {
    ParensCount(s, 0)
  }

  /** `s` holds `n` opening and `n` closing parentheses. */
  predicate ParensCount(s: string, n: nat) {
    multiset(s)['('] == n && multiset(s)[')'] == n
  }

  /** No literal value and no operator lexeme in the tree holds a parenthesis. */
  predicate Plain(e: Expr) {
    match e
    case Binary(l, op, r) => NoParens(op.lexeme) && Plain(l) && Plain(r)
    case Grouping(x) => Plain(x)
    case Literal(v) => NoParens(v)
    case Unary(op, r) => NoParens(op.lexeme) && Plain(r)
  }

  /** Number of non-literal nodes of the tree. */
  function Interior(e: Expr): nat {
    match e
    case Binary(l, _, r) => Interior(l) + Interior(r) + 1
    case Grouping(x) => Interior(x) + 1
    case Literal(_) => 0
    case Unary(_, r) => Interior(r) + 1
  }

  /** Occurrences of `c` in a parenthesised list `(name body)`. */
  lemma CountWrapped(name: string, body: string, c: char)
    ensures multiset(List(name, body))[c]
         == multiset("(")[c] + multiset(name)[c] + multiset(body)[c] + multiset(")")[c]
  {
    assert "(" + name + body + ")" == "(" + name + (body + ")");
  }

  /** Occurrences of a parenthesis in `(name body)`, for a name without any. */
  lemma ParensOfList(name: string, body: string)
    requires NoParens(name)
    ensures multiset(List(name, body))['('] == multiset(body)['('] + 1
    ensures multiset(List(name, body))[')'] == multiset(body)[')'] + 1
  {
    CountWrapped(name, body, '(');
    CountWrapped(name, body, ')');
    assert multiset(name)['('] == 0 && multiset(name)[')'] == 0;
    assert multiset("(") == multiset{'('} && multiset(")") == multiset{')'};
  }

  /** Occurrences of a parenthesis in the operands ` a b` of a binary node. */
  lemma ParensOfPair(a: string, b: string, c: char)
    ensures multiset(" " + a + " " + b)[c] == multiset(" ")[c] * 2 + multiset(a)[c] + multiset(b)[c]
  {
  }

  lemma BinaryParens(l: Expr, op: Token, r: Expr)
    requires NoParens(op.lexeme)
    requires ParensCount(Render(l), Interior(l)) && ParensCount(Render(r), Interior(r))
    ensures ParensCount(Render(Binary(l, op, r)), Interior(l) + Interior(r) + 1)
  {
    ParensOfPair(Render(l), Render(r), '(');
    ParensOfPair(Render(l), Render(r), ')');
    ParensOfList(op.lexeme, " " + Render(l) + " " + Render(r));
  }

  lemma UnaryParens(name: string, x: Expr)
    requires NoParens(name) && ParensCount(Render(x), Interior(x))
    ensures ParensCount(List(name, " " + Render(x)), Interior(x) + 1)
  {
    ParensOfList(name, " " + Render(x));
  }

  lemma LiteralParens(v: string)
    requires NoParens(v)
    ensures ParensCount(Render(Literal(v)), 0)
  {
    assert multiset("nil") == multiset{'n', 'i', 'l'};
  }

  lemma GroupHasNoParens()
    ensures NoParens("group")
  {
    assert multiset("group") == multiset{'g', 'r', 'o', 'u', 'p'};
  }

  /** When the texts in the tree hold no parentheses, the printed form has
      one opening and one closing parenthesis per non-literal node. */
  lemma {:induction false} ParenthesesBalanced(e: Expr)
    requires Plain(e)
    ensures ParensCount(Render(e), Interior(e))
  {
    match e
    case Binary(l, op, r) =>
      ParenthesesBalanced(l);
      ParenthesesBalanced(r);
      BinaryParens(l, op, r);
    case Grouping(x) =>
      ParenthesesBalanced(x);
      GroupHasNoParens();
      UnaryParens("group", x);
    case Literal(v) =>
      LiteralParens(v);
    case Unary(op, r) =>
      ParenthesesBalanced(r);
      UnaryParens(op.lexeme, r);
  }

  /** The tree of the printer's own test: `-123 * (45.67)`. */
  function SampleTree(): Expr {
    Binary(
      Unary(Token(Minus, "-", "", 1), Literal("123")),
      Token(Star, "*", "", 1),
      Grouping(Literal("45.67")))
  }

  lemma NegationPrints()
    ensures Render(Unary(Token(Minus, "-", "", 1), Literal("123"))) == "(- 123)"
  {
  }

  lemma GroupPrints()
    ensures Render(Grouping(Literal("45.67"))) == "(group 45.67)"
  {
  }

  /** The printer's own test tree prints as `(* (- 123) (group 45.67))`. */
  lemma SamplePrints()
    ensures Render(SampleTree()) == "(* (- 123) (group 45.67))"
  {
    NegationPrints();
    GroupPrints();
  }
}

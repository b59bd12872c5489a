/** The expression and statement trees of `Expr.kt` and `Stmt.kt`, and their
    `ast()` renderings as parenthesised prefix forms. */
module Ast {
  import opened Extensions
  import Lexer

  /** `Expr`. The four `Literal` subclasses are the last four constructors; a
      number literal keeps its lexeme in place of its `Double` value. */
  datatype Expr =
    | Binary(left: Expr, op: Lexer.Token, right: Expr)
    | Logical(left: Expr, op: Lexer.Token, right: Expr)
    | Grouping(expr: Expr)
    | Unary(op: Lexer.Token, right: Expr)
    | Variable(name: string)
    | Assign(name: string, value: Expr)
    | Str(text: string)
    | Num(lexeme: string)
    | Bool(truth: bool)
    | Nothing

  predicate IsLiteral(e: Expr) { e.Str? || e.Num? || e.Bool? || e.Nothing? }

  /** `Stmt`. */
  datatype Stmt =
    | Expression(expr: Expr)
    | Print(expr: Expr)
    | Var(name: string, init: Expr)
    | Block(stmts: seq<Stmt>)
    | If(cond: Expr, thenBranch: Stmt, elseBranch: Option<Stmt>)

  /** `name.repr()` of an identifier. */
  function NameRepr(name: string): (s: string)
    ensures s == "IDENT `" + name + "`"
  {
    Lexer.Repr(Lexer.Identifier(name))
  }

  /** `Expr.ast()`. */
  function ExprAst(e: Expr): (s: string)
    ensures !IsLiteral(e) ==> |s| >= 2 && s[0] == '(' && s[|s| - 1] == ')'
    ensures e.Str? ==> s == e.text
  {
    match e
    case Binary(l, op, r) => "(" + Lexer.Repr(op.kind) + " " + ExprAst(l) + " " + ExprAst(r) + ")"
    case Logical(l, op, r) => "(" + Lexer.Repr(op.kind) + " " + ExprAst(l) + " " + ExprAst(r) + ")"
    case Grouping(x) => "(group " + ExprAst(x) + ")"
    case Unary(op, r) => "(" + Lexer.Repr(op.kind) + " " + ExprAst(r) + ")"
    case Variable(n) => "(var " + NameRepr(n) + ")"
    case Assign(n, v) => "(let " + NameRepr(n) + " " + ExprAst(v) + ")"
    case Str(v) => v
    case Num(v) => v
    case Bool(b) => if b then "true" else "false"
    case Nothing => "nil"
  }

  /** `joinToString(" ")`: the strings separated by single spaces. */
  function Join(ss: seq<string>): (s: string)
    ensures ss == [] ==> s == ""
    ensures |ss| == 1 ==> s == ss[0]
  {
    if ss == [] then "" else if |ss| == 1 then ss[0] else ss[0] + " " + Join(ss[1..])
  }

  /** `Stmt.ast()`. */
  function StmtAst(s: Stmt): (r: string)
    ensures s.Expression? ==> r == ExprAst(s.expr)
    ensures !s.Expression? ==> |r| >= 2 && r[0] == '(' && r[|r| - 1] == ')'
    decreases s
  {
    match s
    case Expression(e) => ExprAst(e)
    case Print(e) => "(print " + ExprAst(e) + ")"
    case Var(n, init) => "(decl " + NameRepr(n) + " " + ExprAst(init) + ")"
    case Block(ss) => "(block " + Asts(ss) + ")"
    case If(_, t, e) => "(if " + StmtAst(t) + (if e.Some? then " " + StmtAst(e.value) + ")" else ")")
  }

  /** The renderings of a block's statements, joined by single spaces. */
  function Asts(ss: seq<Stmt>): (r: string)
    ensures ss == [] ==> r == ""
    decreases ss
  {
    if ss == [] then "" else if |ss| == 1 then StmtAst(ss[0]) else StmtAst(ss[0]) + " " + Asts(ss[1..])
  }

  // ---------------------------------------------------------------------------
  // Properties of the renderings.

  /** A block renders its statements' renderings joined by single spaces. */
  lemma {:induction false} AstsIsJoin(ss: seq<Stmt>)
    ensures Asts(ss) == Join(seq(|ss|, k requires 0 <= k < |ss| => StmtAst(ss[k])))
    decreases |ss|
  {
    var rs := seq(|ss|, k requires 0 <= k < |ss| => StmtAst(ss[k]));
    if |ss| > 1 {
      AstsIsJoin(ss[1..]);
      assert rs[1..] == seq(|ss[1..]|, k requires 0 <= k < |ss[1..]| => StmtAst(ss[1..][k]));
    }
  }

  /** The empty block renders as `(block )`. */
  lemma EmptyBlock()
    ensures StmtAst(Block([])) == "(block )"
  {
  }

  /** An `if` is rendered without its condition: two `if`s that differ only
      in their conditions render alike. */
  lemma IfOmitsCondition(c1: Expr, c2: Expr, t: Stmt, e: Option<Stmt>)
    ensures StmtAst(If(c1, t, e)) == StmtAst(If(c2, t, e))
  {
  }

  /** String literals render raw, so the rendering does not determine the
      tree: a string literal can render like a grouping. */
  lemma StringsRenderRaw()
    ensures ExprAst(Str("(group nil)")) == ExprAst(Grouping(Nothing))
  {
  }

  /** Opening parentheses minus closing ones in `s`. */
  function Depth(s: string): int
  {
    if s == [] then 0
    else (if s[0] == '(' then 1 else if s[0] == ')' then -1 else 0) + Depth(s[1..])
  }

  predicate Balanced(s: string) { Depth(s) == 0 }

  lemma {:induction false} DepthCat(a: string, b: string)
    ensures Depth(a + b) == Depth(a) + Depth(b)
    decreases |a|
  {
    if a == [] {
      assert a + b == b;
    } else {
      assert (a + b)[1..] == a[1..] + b;
      DepthCat(a[1..], b);
    }
  }

  /** Every string a tree carries is itself balanced: its string literals,
      number lexemes, names and operator renderings. */
  predicate PlainExpr(e: Expr)
  {
    match e
    case Binary(l, op, r) => Balanced(Lexer.Repr(op.kind)) && PlainExpr(l) && PlainExpr(r)
    case Logical(l, op, r) => Balanced(Lexer.Repr(op.kind)) && PlainExpr(l) && PlainExpr(r)
    case Grouping(x) => PlainExpr(x)
    case Unary(op, r) => Balanced(Lexer.Repr(op.kind)) && PlainExpr(r)
    case Variable(n) => Balanced(n)
    case Assign(n, v) => Balanced(n) && PlainExpr(v)
    case Str(v) => Balanced(v)
    case Num(v) => Balanced(v)
    case Bool(_) => true
    case Nothing => true
  }

  /** A string without parentheses is balanced. */
  lemma {:induction false} NoParens(s: string)
    requires forall k :: 0 <= k < |s| ==> s[k] != '(' && s[k] != ')'
    ensures Balanced(s)
    decreases |s|
  {
    if s != [] {
      NoParens(s[1..]);
    }
  }

  lemma Cat(a: string, b: string)
    requires Balanced(a) && Balanced(b)
    ensures Balanced(a + b)
  {
    DepthCat(a, b);
  }

  /** An opening `(` followed by no parentheses. */
  lemma Opening(s: string)
    requires |s| >= 1 && s[0] == '('
    requires forall k :: 1 <= k < |s| ==> s[k] != '(' && s[k] != ')'
    ensures Depth(s) == 1
  {
    NoParens(s[1..]);
  }

  /** `open + a + ")"`, the shape of the renderings with one child. */
  lemma Wrapped(open: string, a: string)
    requires Depth(open) == 1 && Balanced(a)
    ensures Balanced(open + a + ")")
  {
    DepthCat(open, a);
    DepthCat(open + a, ")");
  }

  /** `open + a + " " + b + ")"`, the shape of the renderings with two children. */
  lemma Wrapped2(open: string, a: string, b: string)
    requires Depth(open) == 1 && Balanced(a) && Balanced(b)
    ensures Balanced(open + a + " " + b + ")")
  {
    DepthCat(open, a);
    DepthCat(open + a, " ");
    DepthCat(open + a + " ", b);
    DepthCat(open + a + " " + b, ")");
  }

  /** The opening `"(" + repr + " "` of an operator node. */
  lemma OperatorOpening(t: Lexer.TokenType)
    requires Balanced(Lexer.Repr(t))
    ensures Depth("(" + Lexer.Repr(t) + " ") == 1
  {
    DepthCat("(", Lexer.Repr(t));
    DepthCat("(" + Lexer.Repr(t), " ");
  }

  lemma NameReprBalanced(n: string)
    requires Balanced(n)
    ensures Balanced(NameRepr(n))
  {
    NoParens("IDENT `");
    NoParens("`");
    Cat("IDENT `", n);
    Cat("IDENT `" + n, "`");
  }

  /** The parentheses a rendering adds come in pairs: a tree whose strings
      are balanced renders balanced. */
  lemma {:induction false} ExprAstBalanced(e: Expr)
    requires PlainExpr(e)
    ensures Balanced(ExprAst(e))
  {
    match e
    case Binary(l, op, r) =>
      ExprAstBalanced(l); ExprAstBalanced(r);
      OperatorOpening(op.kind);
      Wrapped2("(" + Lexer.Repr(op.kind) + " ", ExprAst(l), ExprAst(r));
    case Logical(l, op, r) =>
      ExprAstBalanced(l); ExprAstBalanced(r);
      OperatorOpening(op.kind);
      Wrapped2("(" + Lexer.Repr(op.kind) + " ", ExprAst(l), ExprAst(r));
    case Grouping(x) =>
      ExprAstBalanced(x);
      Opening("(group ");
      Wrapped("(group ", ExprAst(x));
    case Unary(op, r) =>
      ExprAstBalanced(r);
      OperatorOpening(op.kind);
      Wrapped("(" + Lexer.Repr(op.kind) + " ", ExprAst(r));
    case Variable(n) =>
      NameReprBalanced(n);
      Opening("(var ");
      Wrapped("(var ", NameRepr(n));
    case Assign(n, v) =>
      NameReprBalanced(n); ExprAstBalanced(v);
      Opening("(let ");
      Wrapped2("(let ", NameRepr(n), ExprAst(v));
    case Str(_) =>
    case Num(_) =>
    case Bool(b) => NoParens(if b then "true" else "false");
    case Nothing => NoParens("nil");
  }

  predicate PlainStmt(s: Stmt)
    decreases s
  {
    match s
    case Expression(e) => PlainExpr(e)
    case Print(e) => PlainExpr(e)
    case Var(n, init) => Balanced(n) && PlainExpr(init)
    case Block(ss) => forall k :: 0 <= k < |ss| ==> PlainStmt(ss[k])
    case If(_, t, e) => PlainStmt(t) && (e.Some? ==> PlainStmt(e.value))
  }

  /** The same for statements; the condition of an `if` is not rendered, so
      it need not be plain. */
  lemma {:induction false} StmtAstBalanced(s: Stmt)
    requires PlainStmt(s)
    ensures Balanced(StmtAst(s))
    decreases s, 1
  {
    match s
    case Expression(e) => ExprAstBalanced(e);
    case Print(e) =>
      ExprAstBalanced(e);
      Opening("(print ");
      Wrapped("(print ", ExprAst(e));
    case Var(n, init) =>
      NameReprBalanced(n); ExprAstBalanced(init);
      Opening("(decl ");
      Wrapped2("(decl ", NameRepr(n), ExprAst(init));
    case Block(ss) =>
      AstsBalanced(ss);
      Opening("(block ");
      Wrapped("(block ", Asts(ss));
    case If(_, t, e) =>
      StmtAstBalanced(t);
      if e.Some? {
        StmtAstBalanced(e.value);
        IfBalanced(StmtAst(t), Some(StmtAst(e.value)));
      } else {
        IfBalanced(StmtAst(t), None);
      }
  }

  /** The rendering of an `if` from the renderings of its branches. */
  lemma IfBalanced(t: string, e: Option<string>)
    requires Balanced(t) && (e.Some? ==> Balanced(e.value))
    ensures Balanced("(if " + t + (if e.Some? then " " + e.value + ")" else ")"))
  {
    Opening("(if ");
    if e.Some? {
      Wrapped2("(if ", t, e.value);
      assert "(if " + t + (" " + e.value + ")") == "(if " + t + " " + e.value + ")";
    } else {
      Wrapped("(if ", t);
    }
  }

  lemma {:induction false} AstsBalanced(ss: seq<Stmt>)
    requires forall k :: 0 <= k < |ss| ==> PlainStmt(ss[k])
    ensures Balanced(Asts(ss))
    decreases ss, 0
  {
    if ss != [] {
      StmtAstBalanced(ss[0]);
      if |ss| > 1 {
        AstsBalanced(ss[1..]);
        Cat(StmtAst(ss[0]), " ");
        Cat(StmtAst(ss[0]) + " ", Asts(ss[1..]));
      }
    }
  }
}

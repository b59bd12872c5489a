/** The trees the parser builds. They extend those of `Expr.kt` and `Stmt.kt`
    with calls, `while` loops, function declarations and `return`, and name
    the empty literal `Nil`. */
module ParseTree {
  import opened Extensions
  import L = Lexer

  /** `Expr`; the last four constructors are the `Literal` subclasses, a
      number keeping its lexeme in place of its `Double` value. */
  datatype Expr =
    | Binary(left: Expr, op: L.Token, right: Expr)
    | Logical(left: Expr, op: L.Token, right: Expr)
    | Grouping(expr: Expr)
    | Unary(op: L.Token, right: Expr)
    | Variable(name: string)
    | Assign(name: string, value: Expr)
    | Call(callee: Expr, paren: L.Token, args: seq<Expr>)
    | Num(lexeme: string)
    | Str(text: string)
    | Bool(truth: bool)
    | Nil

  /** `Stmt`. */
  datatype Stmt =
    | Expression(expr: Expr)
    | Print(expr: Expr)
    | Var(name: string, init: Expr)
    | Block(stmts: seq<Stmt>)
    | If(cond: Expr, thenBranch: Stmt, elseBranch: Option<Stmt>)
    | While(cond: Expr, body: Stmt)
    | Function(name: string, params: seq<string>, body: Stmt)
    | Return(keyword: L.Token, value: Option<Expr>)

  /** The binary operators of each precedence level, loosest first:
      `or`, `and`, equality, comparison, term, factor. */
  function LevelOps(lvl: nat): (ops: set<L.TokenType>)
    ensures ops != {} <==> 2 <= lvl <= 7
  {
    if lvl == 2 then {L.Or}
    else if lvl == 3 then {L.And}
    else if lvl == 4 then {L.BangEqual, L.EqualEqual}
    else if lvl == 5 then {L.Greater, L.GreaterEqual, L.Less, L.LessEqual}
    else if lvl == 6 then {L.Minus, L.Plus}
    else if lvl == 7 then {L.Slash, L.Star}
    else {}
  }

  /** The level of a binary operator, 0 for a token that is none. */
  function OpLevel(t: L.TokenType): (lvl: nat)
    ensures lvl == 0 || 2 <= lvl <= 7
    ensures forall k :: 2 <= k <= 7 ==> (t in LevelOps(k) <==> lvl == k)
  {
    if t == L.Or then 2
    else if t == L.And then 3
    else if t in {L.BangEqual, L.EqualEqual} then 4
    else if t in {L.Greater, L.GreaterEqual, L.Less, L.LessEqual} then 5
    else if t in {L.Minus, L.Plus} then 6
    else if t in {L.Slash, L.Star} then 7
    else 0
  }

  /** How tightly the root of `e` binds: 1 for an assignment, 2 to 7 for the
      binary levels, 8 for a unary operator, 9 for a call and 10 for a
      primary expression; 0 for a binary node whose operator does not fit
      its node kind. */
  function Prec(e: Expr): (p: nat)
    ensures p <= 10
  {
    match e
    case Assign(_, _) => 1
    case Logical(_, op, _) => if OpLevel(op.kind) in {2, 3} then OpLevel(op.kind) else 0
    case Binary(_, op, _) => if OpLevel(op.kind) >= 4 then OpLevel(op.kind) else 0
    case Unary(_, _) => 8
    case Call(_, _, _) => 9
    case _ => 10
  }

  /** The trees the grammar can produce: every binary node is left
      associative (its left operand binds at least as tightly, its right one
      strictly more), a unary operator is `!` or `-` applied to a unary or
      tighter operand, a call has a call or primary callee, its closing
      parenthesis and at most 254 arguments. */
  predicate WellNested(e: Expr)
  {
    match e
    case Binary(l, op, r) => Prec(e) > 0 && Prec(l) >= Prec(e) && Prec(r) > Prec(e) && WellNested(l) && WellNested(r)
    case Logical(l, op, r) => Prec(e) > 0 && Prec(l) >= Prec(e) && Prec(r) > Prec(e) && WellNested(l) && WellNested(r)
    case Grouping(x) => WellNested(x)
    case Unary(op, r) => op.kind in {L.Bang, L.Minus} && Prec(r) >= 8 && WellNested(r)
    case Assign(_, v) => WellNested(v)
    case Call(c, paren, args) =>
      && Prec(c) >= 9 && paren.kind == L.RightParen && |args| <= 254
      && WellNested(c) && (forall k :: 0 <= k < |args| ==> WellNested(args[k]))
    case _ => true
  }

  /** The statements the grammar can produce: well-nested expressions, at most
      255 parameters, a block as function body and a `return` keyword token. */
  predicate WellFormed(s: Stmt)
  {
    match s
    case Expression(e) => WellNested(e)
    case Print(e) => WellNested(e)
    case Var(_, init) => WellNested(init)
    case Block(ss) => forall k :: 0 <= k < |ss| ==> WellFormed(ss[k])
    case If(c, t, e) => WellNested(c) && WellFormed(t) && (e.Some? ==> WellFormed(e.value))
    case While(c, b) => WellNested(c) && WellFormed(b)
    case Function(_, ps, b) => |ps| <= 255 && b.Block? && WellFormed(b)
    case Return(k, v) => k.kind == L.Return && (v.Some? ==> WellNested(v.value))
  }

  predicate AllWellFormed(ss: seq<Stmt>)
  {
    forall k :: 0 <= k < |ss| ==> WellFormed(ss[k])
  }

  lemma AllWellFormedCat(a: seq<Stmt>, b: seq<Stmt>)
    requires AllWellFormed(a) && AllWellFormed(b)
    ensures AllWellFormed(a + b)
  {
    forall k | 0 <= k < |a + b|
      ensures WellFormed((a + b)[k])
    {
      if k >= |a| {
        assert (a + b)[k] == b[k - |a|];
      }
    }
  }

  /** Subtraction nests to the left: `a - (b - c)` is not a tree the grammar
      builds without a grouping, while `(a - b) - c` is. */
  lemma SubtractionNestsLeft(a: Expr, b: Expr, c: Expr, minus: L.Token)
    requires minus.kind == L.Minus && Prec(a) == 10 && Prec(b) == 10 && Prec(c) == 10
    requires WellNested(a) && WellNested(b) && WellNested(c)
    ensures WellNested(Binary(Binary(a, minus, b), minus, c))
    ensures !WellNested(Binary(a, minus, Binary(b, minus, c)))
  {
  }

  /** A product binds tighter than a sum: `a + (b * c)` is a tree the grammar
      builds, `(a + b) * c` is not one it builds without a grouping. */
  lemma ProductBindsTighter(a: Expr, b: Expr, c: Expr, plus: L.Token, star: L.Token)
    requires plus.kind == L.Plus && star.kind == L.Star
    requires Prec(a) == 10 && Prec(b) == 10 && Prec(c) == 10
    requires WellNested(a) && WellNested(b) && WellNested(c)
    ensures WellNested(Binary(a, plus, Binary(b, star, c)))
    ensures !WellNested(Binary(Binary(a, plus, b), star, c))
  {
  }
}

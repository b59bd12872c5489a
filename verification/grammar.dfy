/** The recursive-descent grammar of `Parser.kt` as functions over the token
    sequence: each rule, started at index `i`, says what it returns or
    throws, where it leaves the cursor and which diagnostics it logs. */
module Grammar {
  import opened Extensions
  import opened Error
  import L = Lexer
  import T = ParseTree

  /** How a rule ends: with a value, with an exception, or in the endless
      loop of `block()` (see `BlockLoop`). */
  datatype Outcome<X> = Done(value: X) | Threw(failure: Failure) | Hang

  /** The outcome of a rule, the index of the first token it left unread and
      the diagnostics it logged, in order. */
  datatype Parsed<X> = Parsed(out: Outcome<X>, next: nat, log: seq<Diag>)

  /** A rule that did not return passes its ending on to its caller. */
  function Abrupt<X, Y>(o: Outcome<X>): (r: Outcome<Y>)
    requires !o.Done?
    ensures !r.Done? && r.Hang? == o.Hang? && (r.Threw? ==> r.failure == o.failure)
  {
    if o.Threw? then Threw(o.failure) else Hang
  }

  /** The caller's view of a part `p` that did not return, after earlier parts
      logged `log`. */
  function Stop<X, Y>(log: seq<Diag>, p: Parsed<X>): (r: Parsed<Y>)
    requires !p.out.Done?
    ensures !r.out.Done? && r.out.Hang? == p.out.Hang? && (r.out.Threw? ==> r.out.failure == p.out.failure)
    ensures r.next == p.next && r.log == log + p.log
  {
    Parsed(Abrupt(p.out), p.next, log + p.log)
  }

  /** `p`, after earlier parts logged `log`. */
  function After<X>(log: seq<Diag>, p: Parsed<X>): Parsed<X>
  {
    Parsed(p.out, p.next, log + p.log)
  }

  /** The facts every rule keeps: the cursor only moves forward and stays in
      the input, the endless loop only happens with `<EOF>` next, and a
      `ParseError` is never thrown before a diagnostic is logged. */
  predicate Sound<X>(ts: seq<L.Token>, i: nat, r: Parsed<X>)
  {
    && i <= r.next <= |ts|
    && (r.out.Hang? ==> r.next < |ts| && ts[r.next].kind == L.Eof)
    && (r.out.Threw? && r.out.failure.ParseError? ==> |r.log| > 0)
  }

  /** What the expression rules can throw; they never loop. */
  predicate ExprEnding<X>(r: Parsed<X>)
  {
    && !r.out.Hang?
    && (r.out.Threw? ==> r.out.failure.ParseError? || r.out.failure.AbruptEndError?)
  }

  /** An expression cannot start at `<EOF>`: the rule throws a `ParseError`
      there without consuming anything. */
  predicate FailsAtEof<X>(ts: seq<L.Token>, i: nat, r: Parsed<X>)
  {
    i < |ts| && ts[i].kind == L.Eof ==> r.out.Threw? && r.out.failure.ParseError? && r.next == i
  }

  // ---------------------------------------------------------------------------
  // Tokens.

  /** `match(k)`: the next token has kind `k` (false at the end of input). */
  predicate At(ts: seq<L.Token>, i: nat, k: L.TokenType)
  {
    i < |ts| && ts[i].kind == k
  }

  predicate AtAny(ts: seq<L.Token>, i: nat, ks: set<L.TokenType>)
  {
    i < |ts| && ts[i].kind in ks
  }

  /** How a message names a token kind. */
  function Named(k: L.TokenType): string
  {
    Backtick + L.Repr(k) + Backtick
  }

  /** The messages the rules pass to `consume`, each token kind spelled the
      way `Named` spells it (the one after `return` without backquotes). */
  const Backtick := "`"
  const ExpectedExpression := "Expected expression. Found "
  const InvalidTarget := "Invalid assignment target"
  const ParenAfterExpr := "Expected `)` after expression"
  const ParenAfterArgs := "Expected `)` after arguments"
  const SemiAfterStatement := "Expected `;` after statement"
  const SemiAfterReturn := "Expected ; after return"
  const ParenAfterParams := "Expected `)` after parameters"
  const ParenAfterFunName := "Expected `(` after FUNCTION name"
  const BraceBeforeBody := "Expected `{` before FUNCTION body"
  const SemiAfterLoopCond := "Expected `;` after loop condition"
  const ParenAfterClauses := "Expected `)` after the clauses"
  const ParenAfterFor := "Expected `(` after `for`"
  const WhileOpen := "Expected `(` after while"
  const WhileClose := "Expected `)` after condition"
  const IfOpen := "Expected `(` after condition"
  const IfClose := "Expected `)` after block"
  const BraceAfterBlock := "Expected `}` after block"

  /** `Log.errAndThrow`: a diagnostic at the next token, then a `ParseError`
      with the same message. */
  function Throw<X>(ts: seq<L.Token>, i: nat, msg: string): (r: Parsed<X>)
    requires i < |ts|
    ensures r.out == Threw(ParseError(msg)) && r.next == i && r.log == [Diag(Some(ts[i].pos), msg)]
  {
    Parsed(Threw(ParseError(msg)), i, [Diag(Some(ts[i].pos), msg)])
  }

  /** `consume(k, msg)`: the next token if it has kind `k`; otherwise a
      diagnostic at that token and a `ParseError`; `AbruptEndError` when the
      input is exhausted. */
  function Consume(ts: seq<L.Token>, i: nat, k: L.TokenType, msg: string): (r: Parsed<L.Token>)
    requires i <= |ts|
    ensures r.out.Done? <==> At(ts, i, k)
    ensures r.out.Done? ==> r.out.value == ts[i] && r.next == i + 1 && r.log == []
    ensures i == |ts| ==> r == Parsed(Threw(AbruptEndError), i, [])
    ensures i < |ts| && !r.out.Done? ==> r == Parsed(Threw(ParseError(msg)), i, [Diag(Some(ts[i].pos), msg)])
  {
    if i == |ts| then Parsed(Threw(AbruptEndError), i, [])
    else if ts[i].kind == k then Parsed(Done(ts[i]), i + 1, [])
    else Throw(ts, i, msg)
  }

  /** `consumeIdent(msg)`: the name of the next token if it is an identifier,
      with the same failures as `Consume`. */
  function ConsumeIdent(ts: seq<L.Token>, i: nat, msg: string): (r: Parsed<string>)
    requires i <= |ts|
    ensures r.out.Done? <==> i < |ts| && ts[i].kind.Identifier?
    ensures r.out.Done? ==> r.out.value == ts[i].kind.name && r.next == i + 1 && r.log == []
    ensures i == |ts| ==> r == Parsed(Threw(AbruptEndError), i, [])
    ensures i < |ts| && !r.out.Done? ==> r == Parsed(Threw(ParseError(msg)), i, [Diag(Some(ts[i].pos), msg)])
  {
    if i == |ts| then Parsed(Threw(AbruptEndError), i, [])
    else if ts[i].kind.Identifier? then Parsed(Done(ts[i].kind.name), i + 1, [])
    else Throw(ts, i, msg)
  }

  // ---------------------------------------------------------------------------
  // Expressions.

  /** `primary()`: a literal, a variable, or a parenthesised expression. */
  function Primary(ts: seq<L.Token>, i: nat): (r: Parsed<T.Expr>)
    requires i <= |ts|
    ensures Sound(ts, i, r) && ExprEnding(r) && FailsAtEof(ts, i, r)
    ensures r.out.Done? ==> r.next > i
    ensures i == |ts| ==> r.out == Threw(AbruptEndError)
    decreases |ts| - i, 1
  {
    if i == |ts| then Parsed(Threw(AbruptEndError), i, [])
    else
      var k := ts[i].kind;
      if k.Bool? then Parsed(Done(T.Bool(k.value)), i + 1, [])
      else if k == L.Nil then Parsed(Done(T.Nil), i + 1, [])
      else if k.Number? then Parsed(Done(T.Num(k.lexeme)), i + 1, [])
      else if k.Str? then Parsed(Done(T.Str(k.text)), i + 1, [])
      else if k.Identifier? then Parsed(Done(T.Variable(k.name)), i + 1, [])
      else if k == L.LeftParen then Grouped(ts, i + 1)
      else Throw(ts, i, ExpectedExpression + Named(k))
  }

  /** The rest of `primary()` after `(`. */
  function Grouped(ts: seq<L.Token>, i: nat): (r: Parsed<T.Expr>)
    requires 0 < i <= |ts|
    ensures Sound(ts, i, r) && ExprEnding(r)
    ensures r.out.Done? ==> r.next > i && r.out.value.Grouping?
    decreases |ts| - i, 22
  {
    var e := Expression(ts, i);
    if !e.out.Done? then e
    else
      var c := Consume(ts, e.next, L.RightParen, ParenAfterExpr);
      if !c.out.Done? then Stop(e.log, c)
      else Parsed(Done(T.Grouping(e.out.value)), c.next, e.log)
  }

  /** `unary()`: `!` or `-` before a unary expression, or a call. */
  function Unary(ts: seq<L.Token>, i: nat): (r: Parsed<T.Expr>)
    requires i <= |ts|
    ensures Sound(ts, i, r) && ExprEnding(r) && FailsAtEof(ts, i, r)
    ensures r.out.Done? ==> r.next > i
    decreases |ts| - i, 4
  {
    if AtAny(ts, i, {L.Bang, L.Minus}) then
      var u := Unary(ts, i + 1);
      if !u.out.Done? then u
      else Parsed(Done(T.Unary(ts[i], u.out.value)), u.next, u.log)
    else Call(ts, i)
  }

  /** `call()`: a primary expression followed by any number of argument lists. */
  function Call(ts: seq<L.Token>, i: nat): (r: Parsed<T.Expr>)
    requires i <= |ts|
    ensures Sound(ts, i, r) && ExprEnding(r) && FailsAtEof(ts, i, r)
    ensures r.out.Done? ==> r.next > i
    decreases |ts| - i, 3
  {
    var p := Primary(ts, i);
    if !p.out.Done? then p
    else After(p.log, CallRest(ts, p.next, p.out.value))
  }

  /** The loop of `call()` from index `j`, with the callee built so far. */
  function CallRest(ts: seq<L.Token>, j: nat, callee: T.Expr): (r: Parsed<T.Expr>)
    requires j <= |ts|
    ensures Sound(ts, j, r) && ExprEnding(r)
    ensures !At(ts, j, L.LeftParen) ==> r == Parsed(Done(callee), j, [])
    decreases |ts| - j, 2
  {
    if At(ts, j, L.LeftParen) then
      var f := FinishCall(ts, j + 1, callee);
      if !f.out.Done? then f
      else After(f.log, CallRest(ts, f.next, f.out.value))
    else Parsed(Done(callee), j, [])
  }

  /** `finishCall(callee)` after `(`: the arguments, then `)`. */
  function FinishCall(ts: seq<L.Token>, i: nat, callee: T.Expr): (r: Parsed<T.Expr>)
    requires i <= |ts|
    ensures Sound(ts, i, r) && ExprEnding(r)
    ensures r.out.Done? ==> r.out.value.Call? && r.out.value.callee == callee
    ensures r.out.Done? ==> r.next > i && ts[r.next - 1] == r.out.value.paren
    decreases |ts| - i, 21
  {
    var a := if At(ts, i, L.RightParen) then Parsed(Done([]), i, []) else Arguments(ts, i, 0);
    if !a.out.Done? then Stop([], a)
    else
      var c := Consume(ts, a.next, L.RightParen, ParenAfterArgs);
      if !c.out.Done? then Stop(a.log, c)
      else Parsed(Done(T.Call(callee, c.out.value, a.out.value)), c.next, a.log)
  }

  /** The `do`-`while` loop of `finishCall` once `count` arguments are read:
      reading one more when 254 are read already logs a diagnostic with no
      position and throws. */
  function Arguments(ts: seq<L.Token>, i: nat, count: nat): (r: Parsed<seq<T.Expr>>)
    requires i <= |ts|
    ensures Sound(ts, i, r) && ExprEnding(r)
    ensures r.out.Done? ==> 1 <= |r.out.value| <= 254 - count
    ensures count >= 254 ==> r == Parsed(Threw(ParseError(ArgLimit)), i, [Diag(None, ArgLimit)])
    decreases |ts| - i, 20
  {
    if count + 1 >= 255 then Parsed(Threw(ParseError(ArgLimit)), i, [Diag(None, ArgLimit)])
    else
      var e := Expression(ts, i);
      if !e.out.Done? then Stop([], e)
      else if At(ts, e.next, L.Comma) then
        var rest := Arguments(ts, e.next + 1, count + 1);
        if !rest.out.Done? then Stop(e.log, rest)
        else Parsed(Done([e.out.value] + rest.out.value), rest.next, e.log + rest.log)
      else Parsed(Done([e.out.value]), e.next, e.log)
  }

  const ArgLimit := "Cannot have more than 255 arguments"

  /** The operand of a binary level: the next level, or `unary()` under the
      factor level. */
  function Operand(ts: seq<L.Token>, i: nat, lvl: nat): (r: Parsed<T.Expr>)
    requires i <= |ts| && 2 <= lvl <= 7
    ensures Sound(ts, i, r) && ExprEnding(r) && FailsAtEof(ts, i, r)
    ensures r.out.Done? ==> r.next > i
    decreases |ts| - i, 2 * (8 - lvl) + 4
  {
    if lvl == 7 then Unary(ts, i) else Level(ts, i, lvl + 1)
  }

  /** One binary level (`logicalOr` at 2, `logicalAnd` at 3, `equality` at 4,
      `comparison` at 5, `term` at 6, `factor` at 7): operands joined left
      to right by the operators of `LevelOps(lvl)`. */
  function Level(ts: seq<L.Token>, i: nat, lvl: nat): (r: Parsed<T.Expr>)
    requires i <= |ts| && 2 <= lvl <= 7
    ensures Sound(ts, i, r) && ExprEnding(r) && FailsAtEof(ts, i, r)
    ensures r.out.Done? ==> r.next > i
    decreases |ts| - i, 2 * (8 - lvl) + 5
  {
    var o := Operand(ts, i, lvl);
    if !o.out.Done? then o
    else After(o.log, LevelRest(ts, o.next, lvl, o.out.value))
  }

  /** The node a level builds: `Logical` for `or` and `and`, else `Binary`. */
  function Node(lvl: nat, left: T.Expr, op: L.Token, right: T.Expr): (e: T.Expr)
    requires 2 <= lvl <= 7 && op.kind in T.LevelOps(lvl)
    ensures (e.Binary? || e.Logical?) && e.left == left && e.op == op && e.right == right
  {
    if lvl <= 3 then T.Logical(left, op, right) else T.Binary(left, op, right)
  }

  /** The loop of a binary level from index `j`, with the left operand built
      so far. */
  function LevelRest(ts: seq<L.Token>, j: nat, lvl: nat, left: T.Expr): (r: Parsed<T.Expr>)
    requires j <= |ts| && 2 <= lvl <= 7
    ensures Sound(ts, j, r) && ExprEnding(r)
    ensures !AtAny(ts, j, T.LevelOps(lvl)) ==> r == Parsed(Done(left), j, [])
    decreases |ts| - j, 2 * (8 - lvl) + 4
  {
    if AtAny(ts, j, T.LevelOps(lvl)) then
      var o := Operand(ts, j + 1, lvl);
      if !o.out.Done? then o
      else After(o.log, LevelRest(ts, o.next, lvl, Node(lvl, left, ts[j], o.out.value)))
    else Parsed(Done(left), j, [])
  }

  /** `assignment()`: a binary expression, and when `=` follows, the rest of
      the assignment. */
  function Assignment(ts: seq<L.Token>, i: nat): (r: Parsed<T.Expr>)
    requires i <= |ts|
    ensures Sound(ts, i, r) && ExprEnding(r) && FailsAtEof(ts, i, r)
    ensures r.out.Done? ==> r.next > i
    decreases |ts| - i, 18
  {
    var l := Level(ts, i, 2);
    if !l.out.Done? || !At(ts, l.next, L.Equal) then l
    else After(l.log, AssignValue(ts, l.next, l.out.value))
  }

  /** The rest of `assignment()` from the `=` at index `j`: a variable target
      yields an assignment; any other target logs a diagnostic at the `=`
      and yields the target itself. */
  function AssignValue(ts: seq<L.Token>, j: nat, target: T.Expr): (r: Parsed<T.Expr>)
    requires At(ts, j, L.Equal)
    ensures Sound(ts, j, r) && ExprEnding(r)
    ensures r.out.Done? ==> r.next > j + 1
    ensures r.out.Done? && target.Variable? ==> r.out.value.Assign? && r.out.value.name == target.name
    ensures r.out.Done? && !target.Variable? ==> r.out.value == target && |r.log| > 0 && r.log[|r.log| - 1] == Diag(Some(ts[j].pos), InvalidTarget)
    decreases |ts| - j, 17
  {
    var v := Assignment(ts, j + 1);
    if !v.out.Done? then v
    else if target.Variable? then Parsed(Done(T.Assign(target.name, v.out.value)), v.next, v.log)
    else Parsed(Done(target), v.next, v.log + [Diag(Some(ts[j].pos), InvalidTarget)])
  }

  /** The value of an assignment is the whole `assignment()` that follows its
      `=`: the rule returns exactly when that one does, ends where it ends
      and keeps its diagnostics; a variable target is assigned that value,
      any other target is returned as it is. */
  lemma AssignValueResult(ts: seq<L.Token>, j: nat, target: T.Expr)
    requires At(ts, j, L.Equal)
    ensures var r := AssignValue(ts, j, target); var v := Assignment(ts, j + 1);
      && (r.out.Done? <==> v.out.Done?)
      && (!r.out.Done? ==> r == v)
      && (r.out.Done? ==> r.next == v.next && r.log[..|v.log|] == v.log)
      && (r.out.Done? && target.Variable? ==> r.out.value == T.Assign(target.name, v.out.value))
      && (r.out.Done? && !target.Variable? ==> r.out.value == target)
  {
    hide Assignment;
    var v := Assignment(ts, j + 1);
    if v.out.Done? && !target.Variable? {
      assert (v.log + [Diag(Some(ts[j].pos), InvalidTarget)])[..|v.log|] == v.log;
    }
  }

  /** `expression()`. */
  function Expression(ts: seq<L.Token>, i: nat): (r: Parsed<T.Expr>)
    requires i <= |ts|
    ensures Sound(ts, i, r) && ExprEnding(r) && FailsAtEof(ts, i, r)
    ensures r.out.Done? ==> r.next > i
    decreases |ts| - i, 19
  {
    Assignment(ts, i)
  }
}

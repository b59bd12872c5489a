/** The statement and declaration rules of `Parser.kt`, and `parse()`, as
    functions over the token sequence in the manner of `Grammar`. */
module Statements {
  import opened Extensions
  import opened Error
  import opened Grammar
  import L = Lexer
  import T = ParseTree

  /** The statement a declaration that did not fail contributes. */
  function Opt(s: Option<T.Stmt>): (ss: seq<T.Stmt>)
    ensures s.None? ==> ss == []
    ensures s.Some? ==> ss == [s.value]
  {
    if s.Some? then [s.value] else []
  }

  // ---------------------------------------------------------------------------
  // Simple statements.

  /** `exprStatement()`: an expression, then `;`. */
  function ExprStatement(ts: seq<L.Token>, i: nat): (r: Parsed<T.Stmt>)
    requires i <= |ts|
    ensures Sound(ts, i, r) && ExprEnding(r) && FailsAtEof(ts, i, r)
    ensures r.out.Done? ==> r.next > i + 1 && r.out.value.Expression?
    ensures r.out.Done? ==> ts[r.next - 1].kind == L.Semicolon
  {
    var e := Expression(ts, i);
    if !e.out.Done? then Stop([], e)
    else
      var c := Consume(ts, e.next, L.Semicolon, SemiAfterStatement);
      if !c.out.Done? then Stop(e.log, c)
      else Parsed(Done(T.Expression(e.out.value)), c.next, e.log)
  }

  /** The optional value of a `return` statement: none when `;` follows. */
  function ReturnValue(ts: seq<L.Token>, i: nat): (r: Parsed<Option<T.Expr>>)
    requires i <= |ts|
    ensures Sound(ts, i, r) && ExprEnding(r)
    ensures r.out.Done? ==> (r.out.value.None? <==> At(ts, i, L.Semicolon))
  {
    if At(ts, i, L.Semicolon) then Parsed(Done(None), i, [])
    else
      var e := Expression(ts, i);
      if !e.out.Done? then Stop([], e) else Parsed(Done(Some(e.out.value)), e.next, e.log)
  }

  /** The `return` branch of `statement()` after the keyword token `keyword`. */
  function ReturnStatement(ts: seq<L.Token>, i: nat, keyword: L.Token): (r: Parsed<T.Stmt>)
    requires i <= |ts|
    ensures Sound(ts, i, r) && ExprEnding(r)
    ensures r.out.Done? ==> r.next > i && r.out.value.Return? && r.out.value.keyword == keyword
    ensures r.out.Done? ==> (r.out.value.value.None? <==> At(ts, i, L.Semicolon))
  {
    var v := ReturnValue(ts, i);
    if !v.out.Done? then Stop([], v)
    else
      var c := Consume(ts, v.next, L.Semicolon, SemiAfterReturn);
      if !c.out.Done? then Stop(v.log, c)
      else Parsed(Done(T.Return(keyword, v.out.value)), c.next, v.log)
  }

  /** `(`, an expression, `)`: the head of `while` and `if`, with the messages
      each of them uses. */
  function Condition(ts: seq<L.Token>, i: nat, openMsg: string, closeMsg: string): (r: Parsed<T.Expr>)
    requires i <= |ts|
    ensures Sound(ts, i, r) && ExprEnding(r)
    ensures r.out.Done? ==> r.next > i + 2
  {
    var o := Consume(ts, i, L.LeftParen, openMsg);
    if !o.out.Done? then Stop([], o)
    else
      var e := Expression(ts, o.next);
      if !e.out.Done? then e
      else
        var c := Consume(ts, e.next, L.RightParen, closeMsg);
        if !c.out.Done? then Stop(e.log, c)
        else Parsed(Done(e.out.value), c.next, e.log)
  }

  /** The initialiser of `varDecl()`: `= expression`, or `nil` when no `=`
      follows the name. */
  function VarInit(ts: seq<L.Token>, i: nat): (r: Parsed<T.Expr>)
    requires i <= |ts|
    ensures Sound(ts, i, r) && ExprEnding(r)
    ensures r.out.Done? ==> (r.out.value == T.Nil && r.next == i) || At(ts, i, L.Equal)
    ensures !At(ts, i, L.Equal) ==> r.out.Done?
  {
    if At(ts, i, L.Equal) then Expression(ts, i + 1)
    else Parsed(Done(T.Nil), i, [])
  }

  const IdentHead := "IDENTIFIER(value="
  const IdentTail := ")"
  const VarSemiHead := "Expected `;` after variable `"
  const VarSemiTail := "` declaration"
  const VariableName := "Expected a variable"
  const ParameterName := "Expected parameter name"
  const FunctionName := "Expected FUNCTION name"
  const NoEof := "No EOF"

  /** How an identifier token prints: `IDENT` is the data class `IDENTIFIER`,
      so its `toString` is the class name and the `value` property. */
  function IdentString(name: string): string
  {
    IdentHead + name + IdentTail
  }

  /** The message of a missing `;` after the declaration of `name`. */
  function SemiAfterVar(name: string): string
  {
    VarSemiHead + IdentString(name) + VarSemiTail
  }

  /** `varDecl()` after `var`: a name, an optional initialiser, then `;`. */
  function VarDecl(ts: seq<L.Token>, i: nat): (r: Parsed<T.Stmt>)
    requires i <= |ts|
    ensures Sound(ts, i, r) && ExprEnding(r)
    ensures r.out.Done? ==> r.next > i + 1 && ts[r.next - 1].kind == L.Semicolon
    ensures r.out.Done? ==>
      && r.out.value.Var? && ts[i].kind == L.Identifier(r.out.value.name)
    ensures r.out.Done? && !At(ts, i + 1, L.Equal) ==> r.out.value == T.Var(ts[i].kind.name, T.Nil)
  {
    var n := ConsumeIdent(ts, i, VariableName);
    if !n.out.Done? then Stop([], n)
    else VarRest(ts, n.next, n.out.value)
  }

  /** `varDecl()` after the name `name`. */
  function VarRest(ts: seq<L.Token>, i: nat, name: string): (r: Parsed<T.Stmt>)
    requires i <= |ts|
    ensures Sound(ts, i, r) && ExprEnding(r)
    ensures r.out.Done? ==> r.next > i && ts[r.next - 1].kind == L.Semicolon
    ensures r.out.Done? ==>
      && r.out.value.Var? && r.out.value.name == name
    ensures r.out.Done? && !At(ts, i, L.Equal) ==> r.out.value == T.Var(name, T.Nil)
  {
    var v := VarInit(ts, i);
    if !v.out.Done? then Stop([], v)
    else
      var c := Consume(ts, v.next, L.Semicolon, SemiAfterVar(name));
      if !c.out.Done? then Stop(v.log, c)
      else Parsed(Done(T.Var(name, v.out.value)), c.next, v.log)
  }

  // ---------------------------------------------------------------------------
  // Functions.

  const ParamLimit := "Can't have more than 255 parameters"

  /** The `do`-`while` loop of `funcDecl` once `count` parameters are read:
      reading one more when 255 are read already is an error at the next
      token. */
  function Params(ts: seq<L.Token>, i: nat, count: nat): (r: Parsed<seq<string>>)
    requires i <= |ts|
    ensures Sound(ts, i, r) && ExprEnding(r)
    ensures r.out.Done? ==> 1 <= |r.out.value| <= 255 - count && r.next > i
    ensures count >= 255 && i < |ts| ==> r == Parsed(Threw(ParseError(ParamLimit)), i, [Diag(Some(ts[i].pos), ParamLimit)])
    ensures count >= 255 && i == |ts| ==> r == Parsed(Threw(AbruptEndError), i, [])
    decreases |ts| - i
  {
    if count >= 255 then
      if i == |ts| then Parsed(Threw(AbruptEndError), i, []) else Throw(ts, i, ParamLimit)
    else
      var p := ConsumeIdent(ts, i, ParameterName);
      if !p.out.Done? then Stop([], p)
      else if At(ts, p.next, L.Comma) then
        var rest := Params(ts, p.next + 1, count + 1);
        if !rest.out.Done? then rest
        else Parsed(Done([p.out.value] + rest.out.value), rest.next, rest.log)
      else Parsed(Done([p.out.value]), p.next, [])
  }

  /** The parameter list of `funcDecl` after `(`, through `)`. */
  function ParamList(ts: seq<L.Token>, i: nat): (r: Parsed<seq<string>>)
    requires i <= |ts|
    ensures Sound(ts, i, r) && ExprEnding(r)
    ensures r.out.Done? ==> |r.out.value| <= 255 && r.next > i
    ensures r.out.Done? ==> (r.out.value == [] <==> At(ts, i, L.RightParen))
  {
    var ps := if At(ts, i, L.RightParen) then Parsed(Done([]), i, []) else Params(ts, i, 0);
    if !ps.out.Done? then ps
    else
      var c := Consume(ts, ps.next, L.RightParen, ParenAfterParams);
      if !c.out.Done? then Stop(ps.log, c)
      else Parsed(Done(ps.out.value), c.next, ps.log)
  }

  /** `funcDecl(FUNCTION)` up to the `)` of the parameters: the name and
      the parameters. */
  function FuncHead(ts: seq<L.Token>, i: nat): (r: Parsed<(string, seq<string>)>)
    requires i <= |ts|
    ensures Sound(ts, i, r) && ExprEnding(r)
    ensures r.out.Done? ==> |r.out.value.1| <= 255 && r.next > i + 2 && ts[i].kind == L.Identifier(r.out.value.0)
  {
    var n := ConsumeIdent(ts, i, FunctionName);
    if !n.out.Done? then Stop([], n)
    else
      var o := Consume(ts, n.next, L.LeftParen, ParenAfterFunName);
      if !o.out.Done? then Stop([], o)
      else
        var ps := ParamList(ts, o.next);
        if !ps.out.Done? then Stop([], ps)
        else Parsed(Done((n.out.value, ps.out.value)), ps.next, ps.log)
  }

  // ---------------------------------------------------------------------------
  // `for`.

  /** The initialiser clause of `forStatement()`: none after `;`, else a
      variable declaration or an expression statement. */
  function ForInit(ts: seq<L.Token>, i: nat): (r: Parsed<Option<T.Stmt>>)
    requires i <= |ts|
    ensures Sound(ts, i, r) && ExprEnding(r)
    ensures r.out.Done? ==> r.next > i && (r.out.value.None? <==> At(ts, i, L.Semicolon))
    ensures r.out.Done? && r.out.value.Some? ==> (r.out.value.value.Var? <==> At(ts, i, L.Var))
  {
    if At(ts, i, L.Semicolon) then Parsed(Done(None), i + 1, [])
    else
      var s := if At(ts, i, L.Var) then VarDecl(ts, i + 1) else ExprStatement(ts, i);
      if !s.out.Done? then Stop([], s) else Parsed(Done(Some(s.out.value)), s.next, s.log)
  }

  /** The condition clause: `true` when it is empty, then `;`. */
  function ForCond(ts: seq<L.Token>, i: nat): (r: Parsed<T.Expr>)
    requires i <= |ts|
    ensures Sound(ts, i, r) && ExprEnding(r)
    ensures r.out.Done? ==> r.next > i
    ensures r.out.Done? && At(ts, i, L.Semicolon) ==> r.out.value == T.Bool(true)
  {
    var e := if !At(ts, i, L.Semicolon) then Expression(ts, i) else Parsed(Done(T.Bool(true)), i, []);
    if !e.out.Done? then e
    else
      var c := Consume(ts, e.next, L.Semicolon, SemiAfterLoopCond);
      if !c.out.Done? then Stop(e.log, c)
      else Parsed(Done(e.out.value), c.next, e.log)
  }

  /** The increment clause: none when it is empty, then `)`. */
  function ForPost(ts: seq<L.Token>, i: nat): (r: Parsed<Option<T.Expr>>)
    requires i <= |ts|
    ensures Sound(ts, i, r) && ExprEnding(r)
    ensures r.out.Done? ==> r.next > i && (r.out.value.None? <==> At(ts, i, L.RightParen))
  {
    var e := if !At(ts, i, L.RightParen) then Expression(ts, i) else Parsed(Done(T.Nil), i, []);
    if !e.out.Done? then Stop([], e)
    else
      var c := Consume(ts, e.next, L.RightParen, ParenAfterClauses);
      if !c.out.Done? then Stop(e.log, c)
      else Parsed(Done(if At(ts, i, L.RightParen) then None else Some(e.out.value)), c.next, e.log)
  }

  /** The three clauses of a `for` loop after its `(`. */
  function ForClauses(ts: seq<L.Token>, i: nat): (r: Parsed<(Option<T.Stmt>, T.Expr, Option<T.Expr>)>)
    requires i <= |ts|
    ensures Sound(ts, i, r) && ExprEnding(r)
    ensures r.out.Done? ==> r.next > i
  {
    var init := ForInit(ts, i);
    if !init.out.Done? then Stop([], init)
    else
      var cond := ForCond(ts, init.next);
      if !cond.out.Done? then Stop(init.log, cond)
      else
        var post := ForPost(ts, cond.next);
        if !post.out.Done? then Stop(init.log + cond.log, post)
        else Parsed(Done((init.out.value, cond.out.value, post.out.value)), post.next, init.log + cond.log + post.log)
  }

  /** The statement a `for` loop stands for: the initialiser, then a `while`
      loop on the condition whose body runs the loop body and then the
      increment. */
  function Desugar(init: Option<T.Stmt>, cond: T.Expr, post: Option<T.Expr>, body: T.Stmt): (s: T.Stmt)
    ensures init.None? ==> s.While? && s.cond == cond
    ensures init.Some? ==>
      s.Block? && |s.stmts| == 2 && s.stmts[0] == init.value && s.stmts[1].While? && s.stmts[1].cond == cond
    ensures var loop := if init.Some? then s.stmts[1] else s;
      loop.While? && loop.body == if post.Some? then T.Block([body, T.Expression(post.value)]) else body
  {
    var loop := T.While(cond, if post.Some? then T.Block([body, T.Expression(post.value)]) else body);
    if init.Some? then T.Block([init.value, loop]) else loop
  }

  // ---------------------------------------------------------------------------
  // Statements, blocks and declarations.

  /** The failures that can end a declaration: a `ParseError` is caught and
      only the one `sync()` throws gets out. */
  predicate DeclFailure(f: Failure)
  {
    f == AbruptEndError || f == NoSuchElement || f == ParseError(NoEof)
  }

  /** What the statement rules can throw. */
  predicate StmtEnding<X>(r: Parsed<X>)
  {
    r.out.Threw? ==> r.out.failure.ParseError? || DeclFailure(r.out.failure)
  }

  /** `statement()`: chosen by its first token; anything that starts no other
      statement is an expression statement. */
  function Statement(ts: seq<L.Token>, i: nat): (r: Parsed<T.Stmt>)
    requires i <= |ts|
    ensures Sound(ts, i, r) && StmtEnding(r) && FailsAtEof(ts, i, r)
    ensures r.out.Done? ==> r.next > i
    ensures i == |ts| ==> r.out == Threw(AbruptEndError)
    decreases |ts| - i, 1
  {
    if i == |ts| then Parsed(Threw(AbruptEndError), i, [])
    else
      var k := ts[i].kind;
      if k == L.Print then PrintStatement(ts, i + 1)
      else if k == L.Return then ReturnStatement(ts, i + 1, ts[i])
      else if k == L.While then WhileStatement(ts, i + 1)
      else if k == L.For then ForStatement(ts, i + 1)
      else if k == L.If then IfStatement(ts, i + 1)
      else if k == L.LeftBrace then BlockStatement(ts, i + 1)
      else ExprStatement(ts, i)
  }

  /** The `PRINT` branch of `statement()` after the keyword: an expression
      and `;`, read as `exprStatement()` reads them. */
  function PrintStatement(ts: seq<L.Token>, i: nat): (r: Parsed<T.Stmt>)
    requires i <= |ts|
    ensures Sound(ts, i, r) && ExprEnding(r)
    ensures r.out.Done? ==> r.next > i && r.out.value.Print?
  {
    var p := ExprStatement(ts, i);
    if !p.out.Done? then p else Parsed(Done(T.Print(p.out.value.expr)), p.next, p.log)
  }

  /** The `LEFT_BRACE` branch of `statement()` after the `{`. */
  function BlockStatement(ts: seq<L.Token>, i: nat): (r: Parsed<T.Stmt>)
    requires i <= |ts|
    ensures Sound(ts, i, r) && StmtEnding(r)
    ensures r.out.Done? ==> r.next > i && r.out.value.Block?
    decreases |ts| - i, 6
  {
    var b := Block(ts, i);
    if !b.out.Done? then Stop([], b) else Parsed(Done(T.Block(b.out.value)), b.next, b.log)
  }

  /** The `while` branch of `statement()` after the keyword. */
  function WhileStatement(ts: seq<L.Token>, i: nat): (r: Parsed<T.Stmt>)
    requires i <= |ts|
    ensures Sound(ts, i, r) && StmtEnding(r)
    ensures r.out.Done? ==> r.next > i && r.out.value.While?
    decreases |ts| - i, 0
  {
    var c := Condition(ts, i, WhileOpen, WhileClose);
    if !c.out.Done? then Stop([], c)
    else
      var b := Statement(ts, c.next);
      if !b.out.Done? then Stop(c.log, b)
      else Parsed(Done(T.While(c.out.value, b.out.value)), b.next, c.log + b.log)
  }

  /** `forStatement()` after the keyword: the clauses, the body, and the loop
      they stand for. */
  function ForStatement(ts: seq<L.Token>, i: nat): (r: Parsed<T.Stmt>)
    requires i <= |ts|
    ensures Sound(ts, i, r) && StmtEnding(r)
    ensures r.out.Done? ==> r.next > i
    ensures r.out.Done? ==> r.out.value.While? || (r.out.value.Block? && |r.out.value.stmts| == 2 && r.out.value.stmts[1].While?)
    decreases |ts| - i, 0
  {
    var o := Consume(ts, i, L.LeftParen, ParenAfterFor);
    if !o.out.Done? then Stop([], o)
    else
      var cl := ForClauses(ts, o.next);
      if !cl.out.Done? then Stop([], cl)
      else
        var b := Statement(ts, cl.next);
        if !b.out.Done? then Stop(cl.log, b)
        else
          var (init, cond, post) := cl.out.value;
          Parsed(Done(Desugar(init, cond, post, b.out.value)), b.next, cl.log + b.log)
  }

  /** `ifStatement()` after the keyword: the condition, then the branches. */
  function IfStatement(ts: seq<L.Token>, i: nat): (r: Parsed<T.Stmt>)
    requires i <= |ts|
    ensures Sound(ts, i, r) && StmtEnding(r)
    ensures r.out.Done? ==> r.next > i && r.out.value.If?
    decreases |ts| - i, 0
  {
    var c := Condition(ts, i, IfOpen, IfClose);
    if !c.out.Done? then Stop([], c)
    else After(c.log, Branches(ts, c.next, c.out.value))
  }

  /** The branch of an `if` statement, and a second branch after `else`. */
  function Branches(ts: seq<L.Token>, i: nat, cond: T.Expr): (r: Parsed<T.Stmt>)
    requires i <= |ts|
    ensures Sound(ts, i, r) && StmtEnding(r)
    ensures r.out.Done? ==> r.next > i && r.out.value.If? && r.out.value.cond == cond
    decreases |ts| - i, 2
  {
    var t := Statement(ts, i);
    if !t.out.Done? then t
    else
      var e := ElseBranch(ts, t.next);
      if !e.out.Done? then Stop(t.log, e)
      else Parsed(Done(T.If(cond, t.out.value, e.out.value)), e.next, t.log + e.log)
  }

  /** `if (matchAndConsume(ELSE)) statement() else null`. */
  function ElseBranch(ts: seq<L.Token>, i: nat): (r: Parsed<Option<T.Stmt>>)
    requires i <= |ts|
    ensures Sound(ts, i, r) && StmtEnding(r)
    ensures r.out.Done? ==> (r.out.value.None? <==> !At(ts, i, L.Else))
    ensures !At(ts, i, L.Else) ==> r == Parsed(Done(None), i, [])
    decreases |ts| - i, 0
  {
    if At(ts, i, L.Else) then
      var e := Statement(ts, i + 1);
      if !e.out.Done? then Stop([], e) else Parsed(Done(Some(e.out.value)), e.next, e.log)
    else Parsed(Done(None), i, [])
  }

  /** `block()` after `{`: the declarations up to `}`, then the `}`. */
  function Block(ts: seq<L.Token>, i: nat): (r: Parsed<seq<T.Stmt>>)
    requires i <= |ts|
    ensures Sound(ts, i, r) && StmtEnding(r)
    ensures r.out.Done? ==> r.next > i && ts[r.next - 1].kind == L.RightBrace
    decreases |ts| - i, 5
  {
    var b := BlockLoop(ts, i);
    if !b.out.Done? then b
    else
      // The loop stops only before `}`, so the `consume` that follows it
      // cannot fail.
      Parsed(Done(b.out.value), b.next + 1, b.log)
  }

  /** The loop of `block()`: declarations until the next token is `}`. A
      declaration that fails and leaves the cursor where it was, which only
      happens at `<EOF>`, is tried again and again without end. */
  function BlockLoop(ts: seq<L.Token>, i: nat): (r: Parsed<seq<T.Stmt>>)
    requires i <= |ts|
    ensures Sound(ts, i, r) && StmtEnding(r)
    ensures r.out.Done? ==> At(ts, r.next, L.RightBrace)
    decreases |ts| - i, 4
  {
    if i == |ts| then Parsed(Threw(AbruptEndError), i, [])
    else if ts[i].kind == L.RightBrace then Parsed(Done([]), i, [])
    else
      var d := Declaration(ts, i);
      if !d.out.Done? then Stop([], d)
      else if d.next == i then Parsed(Hang, i, d.log)
      else
        var rest := BlockLoop(ts, d.next);
        if !rest.out.Done? then Stop(d.log, rest)
        else Parsed(Done(Opt(d.out.value) + rest.out.value), rest.next, d.log + rest.log)
  }

  const SyncStarts: set<L.TokenType> := {L.Class, L.Fun, L.Var, L.For, L.If, L.While, L.Print, L.Return}

  /** `sync()`: skips tokens after a `ParseError`, two per round, stopping at
      `<EOF>`, after a `;` read as the first of the two, or before a keyword
      that starts a declaration or a statement. It throws when the input ends
      without `<EOF>`. */
  function Sync(ts: seq<L.Token>, i: nat): (r: Parsed<()>)
    requires i <= |ts|
    ensures i <= r.next <= |ts| && r.log == [] && !r.out.Hang?
    ensures r.out.Done? ==>
      || (r.next == i && At(ts, i, L.Eof))
      || (r.next > i && (At(ts, r.next, L.Eof) || ts[r.next - 1].kind == L.Semicolon || AtAny(ts, r.next, SyncStarts)))
    ensures r.out.Threw? ==> r.out.failure == ParseError(NoEof) || (r.out.failure == NoSuchElement && r.next == |ts|)
    decreases |ts| - i
  {
    if i == |ts| then Parsed(Threw(ParseError(NoEof)), i, [])
    else if ts[i].kind == L.Eof then Parsed(Done(()), i, [])
    else if ts[i].kind == L.Semicolon || AtAny(ts, i + 1, SyncStarts) then Parsed(Done(()), i + 1, [])
    else if i + 1 == |ts| then Parsed(Threw(NoSuchElement), i + 1, [])
    else Sync(ts, i + 2)
  }


  /** `declaration()`: a variable or function declaration, or a statement;
      on a `ParseError` it synchronises and yields nothing. */
  function Declaration(ts: seq<L.Token>, i: nat): (r: Parsed<Option<T.Stmt>>)
    requires i <= |ts|
    ensures Sound(ts, i, r)
    ensures r.out.Done? && r.out.value.Some? ==> r.next > i
    ensures r.out.Done? && r.out.value.None? ==> |r.log| > 0
    ensures r.out.Done? && i < |ts| && ts[i].kind != L.Eof ==> r.next > i
    ensures r.out.Threw? ==> DeclFailure(r.out.failure)
    ensures At(ts, i, L.Eof) ==> r.out == Done(None) && r.next == i
    decreases |ts| - i, 3
  {
    if i == |ts| then Parsed(Threw(AbruptEndError), i, [])
    else Recover(ts, i, DeclarationRule(ts, i))
  }

  /** The `when` inside the `try` of `declaration()`: a variable, a function
      or a statement, chosen by the token at `i`. */
  function DeclarationRule(ts: seq<L.Token>, i: nat): (r: Parsed<T.Stmt>)
    requires i < |ts|
    ensures Sound(ts, i, r) && StmtEnding(r) && FailsAtEof(ts, i, r)
    ensures r.out.Done? ==> r.next > i
    decreases |ts| - i, 2
  {
    if ts[i].kind == L.Var then VarDecl(ts, i + 1)
    else if ts[i].kind == L.Fun then FuncDecl(ts, i + 1)
    else Statement(ts, i)
  }

  /** The `try`-`catch` of `declaration()` around the outcome `s` of the
      declaration started at `i`. */
  function Recover(ts: seq<L.Token>, i: nat, s: Parsed<T.Stmt>): (r: Parsed<Option<T.Stmt>>)
    requires i < |ts| && Sound(ts, i, s) && StmtEnding(s)
    requires s.out.Done? ==> s.next > i
    ensures Sound(ts, i, r)
    ensures r.out.Done? && r.out.value.Some? ==> r.next > i && s.out == Done(r.out.value.value)
    ensures r.out.Done? && r.out.value.None? ==> |r.log| > 0
    ensures r.out.Done? && ts[i].kind != L.Eof ==> r.next > i
    ensures r.out.Threw? ==> DeclFailure(r.out.failure)
    ensures FailsAtEof(ts, i, s) && ts[i].kind == L.Eof ==> r.out == Done(None) && r.next == i
  {
    if s.out.Done? then Parsed(Done(Some(s.out.value)), s.next, s.log)
    else if s.out.Threw? && s.out.failure.ParseError? then
      var y := Sync(ts, s.next);
      if y.out.Done? then Parsed(Done(None), y.next, s.log) else Stop(s.log, y)
    else Stop([], s)
  }

  /** `funcDecl(FUNCTION)` after `fun`. */
  function FuncDecl(ts: seq<L.Token>, i: nat): (r: Parsed<T.Stmt>)
    requires i <= |ts|
    ensures Sound(ts, i, r) && StmtEnding(r)
    ensures r.out.Done? ==> r.next > i && r.out.value.Function?
    ensures r.out.Done? ==> ts[i].kind == L.Identifier(r.out.value.name)
    decreases |ts| - i, 0
  {
    var h := FuncHead(ts, i);
    if !h.out.Done? then Stop([], h)
    else After(h.log, FuncBody(ts, h.next, h.out.value.0, h.out.value.1))
  }

  /** The body of `funcDecl`, from its `{`, and the declaration it
      completes. */
  function FuncBody(ts: seq<L.Token>, i: nat, name: string, params: seq<string>): (r: Parsed<T.Stmt>)
    requires i <= |ts|
    ensures Sound(ts, i, r) && StmtEnding(r)
    ensures r.out.Done? ==> r.next > i + 1 && ts[i].kind == L.LeftBrace
    ensures r.out.Done? ==> r.out.value.Function? && r.out.value.name == name && r.out.value.params == params
    decreases |ts| - i, 6
  {
    var c := Consume(ts, i, L.LeftBrace, BraceBeforeBody);
    if !c.out.Done? then Stop([], c)
    else
      var b := Block(ts, c.next);
      if !b.out.Done? then Stop([], b)
      else Parsed(Done(T.Function(name, params, T.Block(b.out.value))), b.next, b.log)
  }

  // ---------------------------------------------------------------------------
  // `parse()`.

  /** What iterating `parse()` to its end delivers: the statements it
      yielded, then how it stopped (normally at `<EOF>`, with an exception,
      or in the endless loop), where, and the diagnostics logged on the way. */
  datatype Program = Program(stmts: seq<T.Stmt>, stop: Outcome<()>, next: nat, log: seq<Diag>)

  /** The loop of `parse()` from index `i`. */
  function ParseFrom(ts: seq<L.Token>, i: nat): (r: Program)
    requires i <= |ts|
    ensures i <= r.next <= |ts|
    ensures r.stop.Done? ==> At(ts, r.next, L.Eof)
    ensures r.stop.Hang? ==> At(ts, r.next, L.Eof)
    ensures r.stop.Threw? ==> DeclFailure(r.stop.failure)
    decreases |ts| - i
  {
    if i == |ts| then Program([], Threw(ParseError(NoEof)), i, [])
    else if ts[i].kind == L.Eof then Program([], Done(()), i, [])
    else
      var d := Declaration(ts, i);
      if !d.out.Done? then Program([], Abrupt(d.out), d.next, d.log)
      else
        var rest := ParseFrom(ts, d.next);
        Program(Opt(d.out.value) + rest.stmts, rest.stop, rest.next, d.log + rest.log)
  }

  /** `parse()`. */
  function Parse(ts: seq<L.Token>): (r: Program)
    ensures r.next <= |ts|
    ensures r.stop.Done? || r.stop.Hang? ==> At(ts, r.next, L.Eof)
    ensures r.stop.Threw? ==> DeclFailure(r.stop.failure)
  {
    ParseFrom(ts, 0)
  }
}

/** The shape of the trees the rules of `Grammar` and `Statements` build:
    every expression rule yields a well-nested tree that binds at least as
    tightly as its level, and every statement rule a well-formed statement.
    The lemmas follow the rules' own mutual recursion. */
module Nesting {
  import opened Extensions
  import opened Grammar
  import opened Statements
  import L = Lexer
  import T = ParseTree

  // ---------------------------------------------------------------------------
  // Expressions.

  /** The node a level builds has the precedence of the level, and is well
      nested when its operands bind as a left-associative level demands. */
  lemma NodeShape(lvl: nat, left: T.Expr, op: L.Token, right: T.Expr)
    requires 2 <= lvl <= 7 && op.kind in T.LevelOps(lvl)
    ensures T.Prec(Node(lvl, left, op, right)) == lvl
    ensures T.Prec(left) >= lvl && T.Prec(right) > lvl && T.WellNested(left) && T.WellNested(right)
         ==> T.WellNested(Node(lvl, left, op, right))
  {
  }

  lemma {:induction false} PrimaryShape(ts: seq<L.Token>, i: nat)
    requires i <= |ts|
    ensures var r := Primary(ts, i);
      r.out.Done? ==> T.Prec(r.out.value) == 10 && T.WellNested(r.out.value)
    decreases |ts| - i, 1
  {
    hide Grouped, Named;
    if i < |ts| && ts[i].kind == L.LeftParen {
      GroupedShape(ts, i + 1);
    }
  }

  lemma {:induction false} GroupedShape(ts: seq<L.Token>, i: nat)
    requires 0 < i <= |ts|
    ensures var r := Grouped(ts, i);
      r.out.Done? ==> T.Prec(r.out.value) == 10 && T.WellNested(r.out.value)
    decreases |ts| - i, 22
  {
    hide Expression;
    ExpressionShape(ts, i);
  }

  lemma {:induction false} UnaryShape(ts: seq<L.Token>, i: nat)
    requires i <= |ts|
    ensures var r := Unary(ts, i);
      r.out.Done? ==> T.Prec(r.out.value) >= 8 && T.WellNested(r.out.value)
    decreases |ts| - i, 4
  {
    hide Call;
    if AtAny(ts, i, {L.Bang, L.Minus}) {
      UnaryShape(ts, i + 1);
    } else {
      CallShape(ts, i);
    }
  }

  lemma {:induction false} CallShape(ts: seq<L.Token>, i: nat)
    requires i <= |ts|
    ensures var r := Call(ts, i);
      r.out.Done? ==> T.Prec(r.out.value) >= 9 && T.WellNested(r.out.value)
    decreases |ts| - i, 3
  {
    hide Primary, CallRest;
    PrimaryShape(ts, i);
    var p := Primary(ts, i);
    if p.out.Done? {
      CallRestShape(ts, p.next, p.out.value);
    }
  }

  lemma {:induction false} CallRestShape(ts: seq<L.Token>, j: nat, callee: T.Expr)
    requires j <= |ts| && T.Prec(callee) >= 9 && T.WellNested(callee)
    ensures var r := CallRest(ts, j, callee);
      r.out.Done? ==> T.Prec(r.out.value) >= 9 && T.WellNested(r.out.value)
    decreases |ts| - j, 2
  {
    hide FinishCall;
    if At(ts, j, L.LeftParen) {
      FinishCallShape(ts, j + 1, callee);
      var f := FinishCall(ts, j + 1, callee);
      if f.out.Done? {
        CallRestShape(ts, f.next, f.out.value);
      }
    }
  }

  lemma {:induction false} FinishCallShape(ts: seq<L.Token>, i: nat, callee: T.Expr)
    requires i <= |ts| && T.Prec(callee) >= 9 && T.WellNested(callee)
    ensures var r := FinishCall(ts, i, callee);
      r.out.Done? ==> T.Prec(r.out.value) == 9 && T.WellNested(r.out.value)
    decreases |ts| - i, 21
  {
    hide Arguments, Expression;
    var a := if At(ts, i, L.RightParen) then Parsed(Done([]), i, []) else Arguments(ts, i, 0);
    if !At(ts, i, L.RightParen) {
      ArgumentsShape(ts, i, 0);
    }
    if a.out.Done? {
      var c := Consume(ts, a.next, L.RightParen, ParenAfterArgs);
      if c.out.Done? {
        assert c.out.value.kind == L.RightParen;
        assert |a.out.value| <= 254;
        assert AllNested(a.out.value);
        assert T.WellNested(T.Call(callee, c.out.value, a.out.value));
      }
    }
  }

  /** Every expression of `xs` is well nested. */
  predicate AllNested(xs: seq<T.Expr>)
  {
    forall k :: 0 <= k < |xs| ==> T.WellNested(xs[k])
  }

  /** Prepending a well-nested expression keeps a list well nested. */
  lemma AllNestedCons(x: T.Expr, xs: seq<T.Expr>)
    requires T.WellNested(x) && AllNested(xs)
    ensures AllNested([x] + xs)
  {
    forall k | 0 <= k < |[x] + xs|
      ensures T.WellNested(([x] + xs)[k])
    {
      if k > 0 {
        assert ([x] + xs)[k] == xs[k - 1];
      }
    }
  }

  /** A list of arguments is its first expression, then the rest of the
      list after a `,`. */
  lemma ArgumentsStep(ts: seq<L.Token>, i: nat, count: nat)
    requires i <= |ts|
    ensures var r := Arguments(ts, i, count);
      r.out.Done? ==> count + 1 < 255 && Expression(ts, i).out.Done?
    ensures var r, e := Arguments(ts, i, count), Expression(ts, i);
      r.out.Done? && At(ts, e.next, L.Comma) ==>
        && Arguments(ts, e.next + 1, count + 1).out.Done?
        && r.out.value == [e.out.value] + Arguments(ts, e.next + 1, count + 1).out.value
    ensures var r, e := Arguments(ts, i, count), Expression(ts, i);
      r.out.Done? && !At(ts, e.next, L.Comma) ==> r.out.value == [e.out.value]
  {
    hide Expression;
  }

  lemma {:induction false} ArgumentsShape(ts: seq<L.Token>, i: nat, count: nat)
    requires i <= |ts|
    ensures var r := Arguments(ts, i, count);
      r.out.Done? ==> AllNested(r.out.value)
    decreases |ts| - i, 20
  {
    hide Arguments, Expression, AllNested, T.WellNested;
    ArgumentsStep(ts, i, count);
    if count + 1 < 255 {
      ExpressionShape(ts, i);
      var e := Expression(ts, i);
      if e.out.Done? {
        if At(ts, e.next, L.Comma) {
          ArgumentsShape(ts, e.next + 1, count + 1);
          var rest := Arguments(ts, e.next + 1, count + 1);
          if rest.out.Done? {
            AllNestedCons(e.out.value, rest.out.value);
          }
        } else {
          AllNestedCons(e.out.value, []);
          assert [e.out.value] + [] == [e.out.value];
        }
      }
    }
  }

  lemma {:induction false} OperandShape(ts: seq<L.Token>, i: nat, lvl: nat)
    requires i <= |ts| && 2 <= lvl <= 7
    ensures var r := Operand(ts, i, lvl);
      r.out.Done? ==> T.Prec(r.out.value) > lvl && T.WellNested(r.out.value)
    decreases |ts| - i, 2 * (8 - lvl) + 4
  {
    hide Unary, Level;
    if lvl == 7 {
      UnaryShape(ts, i);
    } else {
      LevelShape(ts, i, lvl + 1);
    }
  }

  lemma {:induction false} LevelShape(ts: seq<L.Token>, i: nat, lvl: nat)
    requires i <= |ts| && 2 <= lvl <= 7
    ensures var r := Level(ts, i, lvl);
      r.out.Done? ==> T.Prec(r.out.value) >= lvl && T.WellNested(r.out.value)
    decreases |ts| - i, 2 * (8 - lvl) + 5
  {
    hide Operand, LevelRest;
    OperandShape(ts, i, lvl);
    var o := Operand(ts, i, lvl);
    if o.out.Done? {
      LevelRestShape(ts, o.next, lvl, o.out.value);
    }
  }

  lemma {:induction false} LevelRestShape(ts: seq<L.Token>, j: nat, lvl: nat, left: T.Expr)
    requires j <= |ts| && 2 <= lvl <= 7 && T.Prec(left) >= lvl && T.WellNested(left)
    ensures var r := LevelRest(ts, j, lvl, left);
      r.out.Done? ==> T.Prec(r.out.value) >= lvl && T.WellNested(r.out.value)
    decreases |ts| - j, 2 * (8 - lvl) + 4
  {
    hide Operand;
    if AtAny(ts, j, T.LevelOps(lvl)) {
      OperandShape(ts, j + 1, lvl);
      var o := Operand(ts, j + 1, lvl);
      if o.out.Done? {
        NodeShape(lvl, left, ts[j], o.out.value);
        LevelRestShape(ts, o.next, lvl, Node(lvl, left, ts[j], o.out.value));
      }
    }
  }

  lemma {:induction false} AssignmentShape(ts: seq<L.Token>, i: nat)
    requires i <= |ts|
    ensures var r := Assignment(ts, i);
      r.out.Done? ==> T.WellNested(r.out.value)
    decreases |ts| - i, 18
  {
    hide Level, AssignValue;
    LevelShape(ts, i, 2);
    var l := Level(ts, i, 2);
    if l.out.Done? && At(ts, l.next, L.Equal) {
      AssignValueShape(ts, l.next, l.out.value);
    }
  }

  lemma {:induction false} AssignValueShape(ts: seq<L.Token>, j: nat, target: T.Expr)
    requires At(ts, j, L.Equal) && T.WellNested(target)
    ensures var r := AssignValue(ts, j, target);
      r.out.Done? ==> T.WellNested(r.out.value)
    decreases |ts| - j, 17
  {
    hide Assignment;
    AssignmentShape(ts, j + 1);
  }

  lemma {:induction false} ExpressionShape(ts: seq<L.Token>, i: nat)
    requires i <= |ts|
    ensures var r := Expression(ts, i);
      r.out.Done? ==> T.WellNested(r.out.value)
    decreases |ts| - i, 19
  {
    hide Assignment;
    AssignmentShape(ts, i);
  }

  // ---------------------------------------------------------------------------
  // Assignment nests to the right.

  /** A name followed by `=` is, at every binary level, just that variable:
      no operator follows it, so the level returns after one token. */
  lemma {:induction false} NameAtLevel(ts: seq<L.Token>, i: nat, lvl: nat)
    requires i + 1 < |ts| && ts[i].kind.Identifier? && ts[i + 1].kind == L.Equal && 2 <= lvl <= 7
    ensures Level(ts, i, lvl) == Parsed(Done(T.Variable(ts[i].kind.name)), i + 1, [])
    decreases 8 - lvl
  {
    var x := Parsed(Done(T.Variable(ts[i].kind.name)), i + 1, []);
    if lvl == 7 {
      assert Primary(ts, i) == x;
      assert Call(ts, i) == x;
    } else {
      NameAtLevel(ts, i, lvl + 1);
    }
    assert Operand(ts, i, lvl) == x;
    assert !AtAny(ts, i + 1, T.LevelOps(lvl));
  }

  /** `x = …` assigns to `x` the whole assignment to the right of the `=`,
      and fails exactly when that assignment fails. */
  lemma AssignToName(ts: seq<L.Token>, i: nat)
    requires i + 1 < |ts| && ts[i].kind.Identifier? && ts[i + 1].kind == L.Equal
    ensures var r := Assignment(ts, i); var v := Assignment(ts, i + 2);
      && (r.out.Done? <==> v.out.Done?)
      && (!v.out.Done? ==> r == v)
      && (v.out.Done? ==> r == Parsed(Done(T.Assign(ts[i].kind.name, v.out.value)), v.next, v.log))
  {
    NameAtLevel(ts, i, 2);
    hide Level;
    assert [] + Assignment(ts, i + 2).log == Assignment(ts, i + 2).log;
  }

  /** Assignment nests to the right: `x = y = e` assigns to `x` the
      assignment of `e` to `y`. */
  lemma AssignNestsRight(ts: seq<L.Token>, i: nat)
    requires i + 3 < |ts|
    requires ts[i].kind.Identifier? && ts[i + 1].kind == L.Equal
    requires ts[i + 2].kind.Identifier? && ts[i + 3].kind == L.Equal
    ensures var e := Assignment(ts, i + 4);
      && (Assignment(ts, i).out.Done? <==> e.out.Done?)
      && (e.out.Done? ==>
            Assignment(ts, i) == Parsed(Done(T.Assign(ts[i].kind.name, T.Assign(ts[i + 2].kind.name, e.out.value))), e.next, e.log))
  {
    AssignToName(ts, i + 2);
    AssignToName(ts, i);
  }

  // ---------------------------------------------------------------------------
  // Simple statements.

  lemma ExprStatementShape(ts: seq<L.Token>, i: nat)
    requires i <= |ts|
    ensures var r := ExprStatement(ts, i);
      r.out.Done? ==> T.WellFormed(r.out.value)
  {
    hide Expression;
    ExpressionShape(ts, i);
  }

  lemma ReturnStatementShape(ts: seq<L.Token>, i: nat, keyword: L.Token)
    requires i <= |ts| && keyword.kind == L.Return
    ensures var r := ReturnStatement(ts, i, keyword);
      r.out.Done? ==> T.WellFormed(r.out.value)
  {
    hide Expression;
    if !At(ts, i, L.Semicolon) {
      ExpressionShape(ts, i);
    }
  }

  lemma ConditionShape(ts: seq<L.Token>, i: nat, openMsg: string, closeMsg: string)
    requires i <= |ts|
    ensures var r := Condition(ts, i, openMsg, closeMsg);
      r.out.Done? ==> T.WellNested(r.out.value)
  {
    hide Expression;
    var o := Consume(ts, i, L.LeftParen, openMsg);
    if o.out.Done? {
      ExpressionShape(ts, o.next);
    }
  }

  lemma VarDeclShape(ts: seq<L.Token>, i: nat)
    requires i <= |ts|
    ensures var r := VarDecl(ts, i);
      r.out.Done? ==> T.WellFormed(r.out.value)
  {
    hide VarRest, ConsumeIdent;
    var n := ConsumeIdent(ts, i, VariableName);
    if n.out.Done? {
      VarRestShape(ts, n.next, n.out.value);
    }
  }

  lemma VarRestShape(ts: seq<L.Token>, i: nat, name: string)
    requires i <= |ts|
    ensures var r := VarRest(ts, i, name);
      r.out.Done? ==> T.WellFormed(r.out.value)
  {
    hide Expression, Consume, SemiAfterVar;
    if At(ts, i, L.Equal) {
      ExpressionShape(ts, i + 1);
    }
    var v := VarInit(ts, i);
    if v.out.Done? {
      assert T.WellNested(v.out.value);
      var c := Consume(ts, v.next, L.Semicolon, SemiAfterVar(name));
      if c.out.Done? {
        assert VarRest(ts, i, name).out.value == T.Var(name, v.out.value);
      }
    }
  }

  lemma ForInitShape(ts: seq<L.Token>, i: nat)
    requires i <= |ts|
    ensures var r := ForInit(ts, i);
      r.out.Done? && r.out.value.Some? ==> T.WellFormed(r.out.value.value)
  {
    hide VarDecl, ExprStatement;
    if At(ts, i, L.Var) {
      VarDeclShape(ts, i + 1);
    } else if !At(ts, i, L.Semicolon) {
      ExprStatementShape(ts, i);
    }
  }

  lemma ForCondShape(ts: seq<L.Token>, i: nat)
    requires i <= |ts|
    ensures var r := ForCond(ts, i);
      r.out.Done? ==> T.WellNested(r.out.value)
  {
    hide Expression;
    if !At(ts, i, L.Semicolon) {
      ExpressionShape(ts, i);
    }
  }

  lemma ForPostShape(ts: seq<L.Token>, i: nat)
    requires i <= |ts|
    ensures var r := ForPost(ts, i);
      r.out.Done? && r.out.value.Some? ==> T.WellNested(r.out.value.value)
  {
    hide Expression;
    if !At(ts, i, L.RightParen) {
      ExpressionShape(ts, i);
    }
  }

  lemma ForClausesShape(ts: seq<L.Token>, i: nat)
    requires i <= |ts|
    ensures var r := ForClauses(ts, i);
      r.out.Done? ==>
        && (r.out.value.0.Some? ==> T.WellFormed(r.out.value.0.value))
        && T.WellNested(r.out.value.1)
        && (r.out.value.2.Some? ==> T.WellNested(r.out.value.2.value))
  {
    hide T.WellFormed, T.WellNested, ForInit, ForCond, ForPost;
    ForInitShape(ts, i);
    var init := ForInit(ts, i);
    if init.out.Done? {
      ForCondShape(ts, init.next);
      var cond := ForCond(ts, init.next);
      if cond.out.Done? {
        ForPostShape(ts, cond.next);
      }
    }
  }

  /** The loop a `for` statement stands for is well formed when its parts
      are. */
  lemma DesugarShape(init: Option<T.Stmt>, cond: T.Expr, post: Option<T.Expr>, body: T.Stmt)
    requires init.Some? ==> T.WellFormed(init.value)
    requires T.WellNested(cond) && T.WellFormed(body)
    requires post.Some? ==> T.WellNested(post.value)
    ensures T.WellFormed(Desugar(init, cond, post, body))
  {
    var loop := T.While(cond, if post.Some? then T.Block([body, T.Expression(post.value)]) else body);
    assert T.WellFormed(loop);
  }

  /** A declaration that fails with a `ParseError` yields nothing, so
      `declaration()` yields only what the rule it ran built. */
  lemma RecoverShape(ts: seq<L.Token>, i: nat, s: Parsed<T.Stmt>)
    requires i < |ts| && Sound(ts, i, s) && StmtEnding(s)
    requires s.out.Done? ==> s.next > i && T.WellFormed(s.out.value)
    ensures var r := Recover(ts, i, s);
      r.out.Done? && r.out.value.Some? ==> T.WellFormed(r.out.value.value)
  {
  }

  // ---------------------------------------------------------------------------
  // Statements, blocks and declarations, following the rules' recursion.

  lemma {:induction false} StatementShape(ts: seq<L.Token>, i: nat)
    requires i <= |ts|
    ensures var r := Statement(ts, i);
      r.out.Done? ==> T.WellFormed(r.out.value)
    decreases |ts| - i, 1
  {
    hide ExprStatement, ReturnStatement, WhileStatement, ForStatement, IfStatement, Block;
    if i < |ts| {
      var k := ts[i].kind;
      if k == L.Print {
        ExprStatementShape(ts, i + 1);
        assert PrintStatement(ts, i + 1).out.Done? ==> T.WellFormed(PrintStatement(ts, i + 1).out.value);
      } else if k == L.Return {
        ReturnStatementShape(ts, i + 1, ts[i]);
      } else if k == L.While {
        WhileShape(ts, i + 1);
      } else if k == L.For {
        ForShape(ts, i + 1);
      } else if k == L.If {
        IfShape(ts, i + 1);
      } else if k == L.LeftBrace {
        BlockShape(ts, i + 1);
      } else {
        ExprStatementShape(ts, i);
      }
    }
  }

  lemma {:induction false} WhileShape(ts: seq<L.Token>, i: nat)
    requires i <= |ts|
    ensures var r := WhileStatement(ts, i);
      r.out.Done? ==> T.WellFormed(r.out.value)
    decreases |ts| - i, 0
  {
    hide Statement, Condition, T.WellNested;
    ConditionShape(ts, i, WhileOpen, WhileClose);
    var c := Condition(ts, i, WhileOpen, WhileClose);
    if c.out.Done? {
      StatementShape(ts, c.next);
    }
  }

  lemma {:induction false} ForShape(ts: seq<L.Token>, i: nat)
    requires i <= |ts|
    ensures var r := ForStatement(ts, i);
      r.out.Done? ==> T.WellFormed(r.out.value)
    decreases |ts| - i, 0
  {
    hide Statement, ForClauses, Desugar, T.WellNested;
    var o := Consume(ts, i, L.LeftParen, ParenAfterFor);
    if o.out.Done? {
      ForClausesShape(ts, o.next);
      var cl := ForClauses(ts, o.next);
      if cl.out.Done? {
        StatementShape(ts, cl.next);
        var b := Statement(ts, cl.next);
        if b.out.Done? {
          var (init, cond, post) := cl.out.value;
          DesugarShape(init, cond, post, b.out.value);
        }
      }
    }
  }

  lemma {:induction false} IfShape(ts: seq<L.Token>, i: nat)
    requires i <= |ts|
    ensures var r := IfStatement(ts, i);
      r.out.Done? ==> T.WellFormed(r.out.value)
    decreases |ts| - i, 0
  {
    ConditionShape(ts, i, IfOpen, IfClose);
    var c := Condition(ts, i, IfOpen, IfClose);
    if c.out.Done? {
      BranchesShape(ts, c.next, c.out.value);
    }
  }

  lemma {:induction false} BranchesShape(ts: seq<L.Token>, i: nat, cond: T.Expr)
    requires i <= |ts| && T.WellNested(cond)
    ensures var r := Branches(ts, i, cond);
      r.out.Done? ==> T.WellFormed(r.out.value)
    decreases |ts| - i, 2
  {
    hide Statement, ElseBranch, T.WellNested;
    StatementShape(ts, i);
    var t := Statement(ts, i);
    if t.out.Done? {
      ElseBranchShape(ts, t.next);
    }
  }

  lemma {:induction false} ElseBranchShape(ts: seq<L.Token>, i: nat)
    requires i <= |ts|
    ensures var r := ElseBranch(ts, i);
      r.out.Done? && r.out.value.Some? ==> T.WellFormed(r.out.value.value)
    decreases |ts| - i, 0
  {
    hide Statement, T.WellNested;
    if At(ts, i, L.Else) {
      StatementShape(ts, i + 1);
    }
  }

  lemma {:induction false} BlockShape(ts: seq<L.Token>, i: nat)
    requires i <= |ts|
    ensures var r := Block(ts, i);
      r.out.Done? ==> T.AllWellFormed(r.out.value)
    decreases |ts| - i, 5
  {
    BlockLoopShape(ts, i);
  }

  lemma {:induction false} BlockLoopShape(ts: seq<L.Token>, i: nat)
    requires i <= |ts|
    ensures var r := BlockLoop(ts, i);
      r.out.Done? ==> T.AllWellFormed(r.out.value)
    decreases |ts| - i, 4
  {
    hide Declaration, T.WellFormed;
    if i < |ts| && ts[i].kind != L.RightBrace {
      DeclarationShape(ts, i);
      var d := Declaration(ts, i);
      if d.out.Done? && d.next != i {
        BlockLoopShape(ts, d.next);
        var rest := BlockLoop(ts, d.next);
        if rest.out.Done? {
          T.AllWellFormedCat(Opt(d.out.value), rest.out.value);
        }
      }
    }
  }

  lemma {:induction false} DeclarationShape(ts: seq<L.Token>, i: nat)
    requires i <= |ts|
    ensures var r := Declaration(ts, i);
      r.out.Done? && r.out.value.Some? ==> T.WellFormed(r.out.value.value)
    decreases |ts| - i, 3
  {
    hide DeclarationRule, Recover, T.WellFormed;
    if i < |ts| {
      DeclarationRuleShape(ts, i);
      RecoverShape(ts, i, DeclarationRule(ts, i));
    }
  }

  lemma {:induction false} DeclarationRuleShape(ts: seq<L.Token>, i: nat)
    requires i < |ts|
    ensures var r := DeclarationRule(ts, i);
      r.out.Done? ==> T.WellFormed(r.out.value)
    decreases |ts| - i, 2
  {
    hide VarDecl, FuncDecl, Statement, T.WellFormed;
    if ts[i].kind == L.Var {
      VarDeclShape(ts, i + 1);
    } else if ts[i].kind == L.Fun {
      FuncDeclShape(ts, i + 1);
    } else {
      StatementShape(ts, i);
    }
  }

  lemma {:induction false} FuncDeclShape(ts: seq<L.Token>, i: nat)
    requires i <= |ts|
    ensures var r := FuncDecl(ts, i);
      r.out.Done? ==> T.WellFormed(r.out.value)
    decreases |ts| - i, 0
  {
    var h := FuncHead(ts, i);
    if h.out.Done? {
      FuncBodyShape(ts, h.next, h.out.value.0, h.out.value.1);
    }
  }

  lemma {:induction false} FuncBodyShape(ts: seq<L.Token>, i: nat, name: string, params: seq<string>)
    requires i <= |ts| && |params| <= 255
    ensures var r := FuncBody(ts, i, name, params);
      r.out.Done? ==> T.WellFormed(r.out.value)
    decreases |ts| - i, 6
  {
    hide Block, Consume, T.WellFormed, T.AllWellFormed;
    var c := Consume(ts, i, L.LeftBrace, BraceBeforeBody);
    if c.out.Done? {
      BlockShape(ts, c.next);
      var b := Block(ts, c.next);
      if b.out.Done? {
        FunctionShape(name, params, b.out.value);
        assert FuncBody(ts, i, name, params).out.value == T.Function(name, params, T.Block(b.out.value));
      }
    }
  }

  /** A function declaration is well formed when its body is. */
  lemma FunctionShape(name: string, params: seq<string>, body: seq<T.Stmt>)
    requires |params| <= 255 && T.AllWellFormed(body)
    ensures T.WellFormed(T.Function(name, params, T.Block(body)))
  {
  }

  // ---------------------------------------------------------------------------
  // `parse()`.

  lemma {:induction false} ParseFromShape(ts: seq<L.Token>, i: nat)
    requires i <= |ts|
    ensures T.AllWellFormed(ParseFrom(ts, i).stmts)
    decreases |ts| - i
  {
    hide Declaration, T.WellFormed;
    if i < |ts| && ts[i].kind != L.Eof {
      DeclarationShape(ts, i);
      var d := Declaration(ts, i);
      if d.out.Done? {
        ParseFromShape(ts, d.next);
        T.AllWellFormedCat(Opt(d.out.value), ParseFrom(ts, d.next).stmts);
      }
    }
  }

  /** Every statement `parse()` yields is well formed. */
  lemma ParseShape(ts: seq<L.Token>)
    ensures T.AllWellFormed(Parse(ts).stmts)
  {
    ParseFromShape(ts, 0);
  }
}

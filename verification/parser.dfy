/** `Parser`: a recursive-descent parser that reads the tokens of a
    `PeekableIterator` one at a time. Every method is proved to return,
    consume and log exactly what the rule of the same name in `Grammar` or
    `Statements` says. */
module Parsing {
  import opened Extensions
  import opened Error
  import opened Grammar
  import opened Statements
  import L = Lexer
  import T = ParseTree

  /** The outcome `p` of a loop whose rounds so far produced `xs` and logged
      `acc`, when the remaining rounds end as `p`. */
  function Prefix<X>(xs: seq<X>, acc: seq<Diag>, p: Parsed<seq<X>>): Parsed<seq<X>>
  {
    Parsed(if p.out.Done? then Done(xs + p.out.value) else p.out, p.next, acc + p.log)
  }

  lemma PrefixStep<X>(xs: seq<X>, acc: seq<Diag>, x: seq<X>, log: seq<Diag>, p: Parsed<seq<X>>)
    ensures Prefix(xs, acc, Parsed(if p.out.Done? then Done(x + p.out.value) else p.out, p.next, log + p.log))
         == Prefix(xs + x, acc + log, p)
  {
    assert acc + (log + p.log) == acc + log + p.log;
    if p.out.Done? {
      assert xs + (x + p.out.value) == xs + x + p.out.value;
    }
  }

  lemma PrefixEmpty<X>(p: Parsed<seq<X>>)
    ensures Prefix([], [], p) == p
  {
    assert [] + p.log == p.log;
    if p.out.Done? {
      assert [] + p.out.value == p.out.value;
    }
  }

  lemma AfterAfter<X>(acc: seq<Diag>, log: seq<Diag>, p: Parsed<X>)
    ensures After(acc, After(log, p)) == After(acc + log, p)
  {
    assert acc + (log + p.log) == acc + log + p.log;
  }

  lemma Assoc(a: seq<Diag>, b: seq<Diag>, c: seq<Diag>)
    ensures a + b + c == a + (b + c)
  {
  }

  /** The rule a binary level reads its operands with. */
  function Sub(ts: seq<L.Token>, i: nat, lvl: nat): (r: Parsed<T.Expr>)
    requires i <= |ts| && 2 <= lvl <= 7
    ensures r == Grammar.Operand(ts, i, lvl)
  {
    if lvl == 7 then Grammar.Unary(ts, i) else Grammar.Level(ts, i, lvl + 1)
  }

  /** The loop of the binary level `lvl` is under way at index `j` with the
      operand `expr` built so far and `acc` logged: the whole level ends as
      `goal`. */
  ghost predicate Looping(ts: seq<L.Token>, lvl: nat, goal: Parsed<T.Expr>, acc: seq<Diag>, j: nat, expr: T.Expr)
  {
    j <= |ts| && 2 <= lvl <= 7 && goal == After(acc, LevelRest(ts, j, lvl, expr))
  }

  /** A binary level starts with its first operand `o`. */
  lemma LevelBegin(ts: seq<L.Token>, i: nat, lvl: nat) returns (o: Parsed<T.Expr>)
    requires i <= |ts| && 2 <= lvl <= 7
    ensures o == Sub(ts, i, lvl)
    ensures !o.out.Done? ==> Grammar.Level(ts, i, lvl) == o
    ensures o.out.Done? ==> Looping(ts, lvl, Grammar.Level(ts, i, lvl), o.log, o.next, o.out.value)
  {
    o := Sub(ts, i, lvl);
    if o.out.Done? {
      assert o.log + LevelRest(ts, o.next, lvl, o.out.value).log == o.log + LevelRest(ts, o.next, lvl, o.out.value).log;
    }
  }

  /** One round of the loop: the operand `o` after the operator at `j`. */
  lemma LevelRound(ts: seq<L.Token>, lvl: nat, goal: Parsed<T.Expr>, acc: seq<Diag>, j: nat, expr: T.Expr, log0: seq<Diag>)
    returns (o: Parsed<T.Expr>)
    requires Looping(ts, lvl, goal, acc, j, expr) && AtAny(ts, j, T.LevelOps(lvl))
    ensures o == Sub(ts, j + 1, lvl) && log0 + acc + o.log == log0 + (acc + o.log)
    ensures !o.out.Done? ==> goal == Parsed(o.out, o.next, acc + o.log)
    ensures o.out.Done? ==> Looping(ts, lvl, goal, acc + o.log, o.next, Node(lvl, expr, ts[j], o.out.value))
  {
    o := Sub(ts, j + 1, lvl);
    if o.out.Done? {
      AfterAfter(acc, o.log, LevelRest(ts, o.next, lvl, Node(lvl, expr, ts[j], o.out.value)));
    }
  }

  /** The loop ends when no operator of the level follows. */
  lemma LevelEnd(ts: seq<L.Token>, lvl: nat, goal: Parsed<T.Expr>, acc: seq<Diag>, j: nat, expr: T.Expr)
    requires Looping(ts, lvl, goal, acc, j, expr) && !AtAny(ts, j, T.LevelOps(lvl))
    ensures goal == Parsed(Done(expr), j, acc)
  {
    assert acc + [] == acc;
  }

  /** One round of the loop of `call()`, in terms of `CallRest`. */
  lemma CallRestStep(ts: seq<L.Token>, j: nat, callee: T.Expr, acc: seq<Diag>, goal: Parsed<T.Expr>)
    requires At(ts, j, L.LeftParen) && goal == After(acc, CallRest(ts, j, callee))
    ensures var f := Grammar.FinishCall(ts, j + 1, callee);
      && (!f.out.Done? ==> goal == Parsed(f.out, f.next, acc + f.log))
      && (f.out.Done? ==> goal == After(acc + f.log, CallRest(ts, f.next, f.out.value)))
  {
    var f := Grammar.FinishCall(ts, j + 1, callee);
    if f.out.Done? {
      AfterAfter(acc, f.log, CallRest(ts, f.next, f.out.value));
    }
  }

  /** The loop of `call()` ends when no `(` follows. */
  lemma CallRestStop(ts: seq<L.Token>, j: nat, callee: T.Expr, acc: seq<Diag>, goal: Parsed<T.Expr>)
    requires j <= |ts| && !At(ts, j, L.LeftParen) && goal == After(acc, CallRest(ts, j, callee))
    ensures goal == Parsed(Done(callee), j, acc)
  {
    assert acc + [] == acc;
  }

  /** One round of the argument loop of `finishCall`, read off
      `Grammar.Arguments`: an expression, then more arguments after a comma. */
  lemma ArgumentsRound(ts: seq<L.Token>, j: nat, count: nat) returns (e: Parsed<T.Expr>)
    requires j <= |ts| && count + 1 < 255
    ensures e == Grammar.Expression(ts, j)
    ensures !e.out.Done? ==> Grammar.Arguments(ts, j, count) == Stop([], e)
    ensures e.out.Done? && At(ts, e.next, L.Comma) ==>
      Grammar.Arguments(ts, j, count) == Prefix([e.out.value], e.log, Grammar.Arguments(ts, e.next + 1, count + 1))
    ensures e.out.Done? && !At(ts, e.next, L.Comma) ==>
      Grammar.Arguments(ts, j, count) == Parsed(Done([e.out.value]), e.next, e.log)
  {
    e := Grammar.Expression(ts, j);
  }

  /** One parameter of the `do`-`while` loop of `funcDecl`, read off
      `Statements.Params`. */
  lemma ParamsRound(ts: seq<L.Token>, j: nat, count: nat) returns (p: Parsed<string>)
    requires j <= |ts| && count < 255
    ensures p == ConsumeIdent(ts, j, ParameterName)
    ensures !p.out.Done? ==> Params(ts, j, count) == Stop([], p)
    ensures p.out.Done? && At(ts, p.next, L.Comma) ==>
      Params(ts, j, count) == Prefix([p.out.value], [], Params(ts, p.next + 1, count + 1))
    ensures p.out.Done? && !At(ts, p.next, L.Comma) ==>
      Params(ts, j, count) == Parsed(Done([p.out.value]), p.next, [])
  {
    p := ConsumeIdent(ts, j, ParameterName);
    if p.out.Done? && At(ts, p.next, L.Comma) {
      var rest := Params(ts, p.next + 1, count + 1);
      assert [] + rest.log == rest.log;
    }
  }

  /** One round of the loop of `block()`: the declaration `d` at `j`. */
  lemma BlockRound(ts: seq<L.Token>, j: nat) returns (d: Parsed<Option<T.Stmt>>)
    requires j < |ts| && ts[j].kind != L.RightBrace
    ensures d == Statements.Declaration(ts, j)
    ensures !d.out.Done? ==> BlockLoop(ts, j) == Stop([], d)
    ensures d.out.Done? && ts[j].kind == L.Eof ==> BlockLoop(ts, j) == Parsed(Hang, j, d.log)
    ensures d.out.Done? && ts[j].kind != L.Eof ==>
      BlockLoop(ts, j) == Prefix(Opt(d.out.value), d.log, BlockLoop(ts, d.next))
  {
    d := Statements.Declaration(ts, j);
    if d.out.Done? && ts[j].kind != L.Eof {
      var rest := BlockLoop(ts, d.next);
      if !rest.out.Done? {
        assert Abrupt<seq<T.Stmt>, seq<T.Stmt>>(rest.out) == rest.out;
      }
    }
  }

  /** The loop of `block()` ends at `}`, and throws at the end of input. */
  lemma BlockLoopEnds(ts: seq<L.Token>, j: nat)
    requires j == |ts| || At(ts, j, L.RightBrace)
    ensures j == |ts| ==> BlockLoop(ts, j) == Parsed(Threw(AbruptEndError), j, [])
    ensures j < |ts| ==> BlockLoop(ts, j) == Parsed(Done([]), j, [])
  {
  }

  /** The program `p` after earlier rounds yielded `stmts` and logged `acc`. */
  function ProgramPrefix(stmts: seq<T.Stmt>, acc: seq<Diag>, p: Program): Program
  {
    Program(stmts + p.stmts, p.stop, p.next, acc + p.log)
  }

  /** One round of the loop of `parse()`: the declaration `d` at `j`. */
  lemma ParseRound(ts: seq<L.Token>, j: nat, stmts: seq<T.Stmt>, acc: seq<Diag>) returns (d: Parsed<Option<T.Stmt>>)
    requires j < |ts| && ts[j].kind != L.Eof
    ensures d == Statements.Declaration(ts, j)
    ensures !d.out.Done? ==>
      ProgramPrefix(stmts, acc, ParseFrom(ts, j)) == Program(stmts, Abrupt(d.out), d.next, acc + d.log)
    ensures d.out.Done? ==>
      ProgramPrefix(stmts, acc, ParseFrom(ts, j)) == ProgramPrefix(stmts + Opt(d.out.value), acc + d.log, ParseFrom(ts, d.next))
  {
    d := Statements.Declaration(ts, j);
    if d.out.Done? {
      var rest := ParseFrom(ts, d.next);
      assert stmts + (Opt(d.out.value) + rest.stmts) == stmts + Opt(d.out.value) + rest.stmts;
      assert acc + (d.log + rest.log) == acc + d.log + rest.log;
    } else {
      assert stmts + [] == stmts;
    }
  }

  /** The loop of `parse()` stops at `<EOF>`, and throws at the end of input. */
  lemma ParseEnds(ts: seq<L.Token>, j: nat, stmts: seq<T.Stmt>, acc: seq<Diag>)
    requires j == |ts| || At(ts, j, L.Eof)
    ensures j == |ts| ==> ProgramPrefix(stmts, acc, ParseFrom(ts, j)) == Program(stmts, Threw(ParseError(NoEof)), j, acc)
    ensures j < |ts| ==> ProgramPrefix(stmts, acc, ParseFrom(ts, j)) == Program(stmts, Done(()), j, acc)
  {
    assert stmts + [] == stmts && acc + [] == acc;
  }

  /** One round of the loop of `sync()`, read off `Statements.Sync`. */
  lemma SyncStep(ts: seq<L.Token>, j: nat)
    requires j <= |ts|
    ensures j == |ts| ==> Statements.Sync(ts, j) == Parsed(Threw(ParseError(NoEof)), j, [])
    ensures j < |ts| && ts[j].kind == L.Eof ==> Statements.Sync(ts, j) == Parsed(Done(()), j, [])
    ensures j < |ts| && ts[j].kind != L.Eof && (ts[j].kind == L.Semicolon || AtAny(ts, j + 1, SyncStarts)) ==>
      Statements.Sync(ts, j) == Parsed(Done(()), j + 1, [])
    ensures j < |ts| && ts[j].kind != L.Eof && !(ts[j].kind == L.Semicolon || AtAny(ts, j + 1, SyncStarts)) ==>
      Statements.Sync(ts, j) == if j + 1 == |ts| then Parsed(Threw(NoSuchElement), j + 1, []) else Statements.Sync(ts, j + 2)
  {
  }

  /** The `catch` of `declaration()`, read off `Statements.Recover`. */
  lemma RecoverStep(ts: seq<L.Token>, i: nat, s: Parsed<T.Stmt>)
    requires i < |ts| && Sound(ts, i, s) && StmtEnding(s)
    requires s.out.Done? ==> s.next > i
    ensures s.next <= |ts|
    ensures s.out.Done? ==> Statements.Recover(ts, i, s) == Parsed(Done(Some(s.out.value)), s.next, s.log)
    ensures s.out.Threw? && s.out.failure.ParseError? && Statements.Sync(ts, s.next).out.Done? ==>
      Statements.Recover(ts, i, s) == Parsed(Done(None), Statements.Sync(ts, s.next).next, s.log)
    ensures s.out.Threw? && s.out.failure.ParseError? && !Statements.Sync(ts, s.next).out.Done? ==>
      Statements.Recover(ts, i, s) == Stop(s.log, Statements.Sync(ts, s.next))
    ensures !s.out.Done? && !(s.out.Threw? && s.out.failure.ParseError?) ==>
      Statements.Recover(ts, i, s) == Stop([], s)
  {
  }

  class Parser {
    const tokens: PeekableIterator<L.Token>
    /** What `Log.err` and `Log.errAndThrow` wrote, in order. */
    ghost var log: seq<Diag>

    ghost predicate Valid()
      reads this, tokens
    {
      tokens.Valid()
    }

    /** The method that started with the cursor at `i` and the log `log0`
        ended as `p` says: with the outcome `r`, the cursor at `p.next` and
        `p.log` logged. */
    ghost predicate Yields<X>(p: Parsed<X>, r: Outcome<X>, log0: seq<Diag>)
      reads this, tokens
    {
      tokens.Valid() && r == p.out && tokens.Cursor() == p.next && log == log0 + p.log
    }

    constructor (tokens: PeekableIterator<L.Token>)
      requires tokens.Valid()
      ensures Valid() && this.tokens == tokens && log == []
    {
      this.tokens := tokens;
      log := [];
    }

    // -------------------------------------------------------------------------
    // Token helpers.

    /** `match(ks)`: the next token is of one of the kinds `ks`. */
    function Match(ks: set<L.TokenType>): (b: bool)
      reads this, tokens
      requires Valid()
      ensures b <==> AtAny(tokens.src, tokens.Cursor(), ks)
    {
      var p := tokens.Peek();
      p.Some? && p.value.kind in ks
    }

    /** `next()` right after a successful `match` or `peekSafe`. */
    method Advance() returns (t: L.Token)
      requires Valid() && tokens.Cursor() < |tokens.src|
      modifies tokens
      ensures Valid() && t == tokens.src[old(tokens.Cursor())] && tokens.Cursor() == old(tokens.Cursor()) + 1
    {
      var n := tokens.Next();
      t := n.value;
    }

    /** `matchAndConsume(k)`: consumes the next token when it has kind `k`. */
    method MatchAndConsume(k: L.TokenType) returns (b: bool)
      requires Valid()
      modifies tokens
      ensures Valid() && b == At(tokens.src, old(tokens.Cursor()), k)
      ensures tokens.Cursor() == old(tokens.Cursor()) + (if b then 1 else 0)
    {
      b := Match({k});
      if b {
        var _ := Advance();
      }
    }

    /** `peekSafe()`: the next token, or `AbruptEndError` at the end of input. */
    method PeekSafe() returns (r: Outcome<L.Token>)
      requires Valid()
      ensures r.Done? <==> tokens.Cursor() < |tokens.src|
      ensures r.Done? ==> r.value == tokens.src[tokens.Cursor()]
      ensures r.Threw? ==> r.failure == AbruptEndError
      ensures !r.Hang?
    {
      var p := tokens.Peek();
      if p.None? {
        return Threw(AbruptEndError);
      }
      r := Done(p.value);
    }

    /** `end()`: whether the next token is `<EOF>`; a `ParseError` when the
        input is exhausted without one. */
    method End() returns (r: Outcome<bool>)
      requires Valid()
      ensures tokens.Cursor() == |tokens.src| ==> r == Threw(ParseError(NoEof))
      ensures tokens.Cursor() < |tokens.src| ==> r == Done(tokens.src[tokens.Cursor()].kind == L.Eof)
    {
      var p := tokens.Peek();
      if p.None? {
        return Threw(ParseError(NoEof));
      }
      r := Done(p.value.kind == L.Eof);
    }

    /** `Log.errAndThrow` at the next token. */
    method Throw<X>(msg: string) returns (r: Outcome<X>)
      requires Valid() && tokens.Cursor() < |tokens.src|
      modifies this
      ensures Yields(Grammar.Throw(tokens.src, tokens.Cursor(), msg), r, old(log))
    {
      log := log + [Diag(Some(tokens.src[tokens.Cursor()].pos), msg)];
      r := Threw(ParseError(msg));
    }

    /** `consume(k, msg)`. */
    method Consume(k: L.TokenType, msg: string) returns (r: Outcome<L.Token>)
      requires Valid()
      modifies this, tokens
      ensures Yields(Grammar.Consume(tokens.src, old(tokens.Cursor()), k, msg), r, old(log))
    {
      var p := PeekSafe();
      if p.Threw? {
        return Threw(p.failure);
      }
      if p.value.kind == k {
        var t := Advance();
        return Done(t);
      }
      r := Throw(msg);
    }

    /** `consumeIdent(msg)`. */
    method ConsumeIdent(msg: string) returns (r: Outcome<string>)
      requires Valid()
      modifies this, tokens
      ensures Yields(Grammar.ConsumeIdent(tokens.src, old(tokens.Cursor()), msg), r, old(log))
    {
      var p := PeekSafe();
      if p.Threw? {
        return Threw(p.failure);
      }
      if p.value.kind.Identifier? {
        var t := Advance();
        return Done(t.kind.name);
      }
      r := Throw(msg);
    }

    // -------------------------------------------------------------------------
    // Expressions.

    /** `primary()`. */
    method Primary() returns (r: Outcome<T.Expr>)
      requires Valid()
      modifies this, tokens
      ensures Yields(Grammar.Primary(tokens.src, old(tokens.Cursor())), r, old(log))
      decreases |tokens.src| - tokens.Cursor(), 1
    {
      hide Grammar.Grouped, Grammar.Throw, Named, Sound, ExprEnding, FailsAtEof, PeekableIterator.Valid, PeekableIterator.Cursor;
      var p := PeekSafe();
      if p.Threw? {
        return Threw(p.failure);
      }
      var k := p.value.kind;
      if k.Bool? || k == L.Nil || k.Number? || k.Str? || k.Identifier? {
        var _ := Advance();
        r := Done(if k.Bool? then T.Bool(k.value)
                  else if k == L.Nil then T.Nil
                  else if k.Number? then T.Num(k.lexeme)
                  else if k.Str? then T.Str(k.text)
                  else T.Variable(k.name));
      } else if k == L.LeftParen {
        var _ := Advance();
        r := Grouped();
      } else {
        r := Throw(ExpectedExpression + Named(k));
      }
    }

    /** The `LEFT_PAREN` branch of `primary()` after the `(`. */
    method Grouped() returns (r: Outcome<T.Expr>)
      requires Valid() && 0 < tokens.Cursor()
      modifies this, tokens
      ensures Yields(Grammar.Grouped(tokens.src, old(tokens.Cursor())), r, old(log))
      decreases |tokens.src| - tokens.Cursor(), 22
    {
      var e := Expression();
      if !e.Done? {
        return e;
      }
      ghost var log1 := log;
      var c := Consume(L.RightParen, ParenAfterExpr);
      if !c.Done? {
        return Abrupt(c);
      }
      r := Done(T.Grouping(e.value));
    }

    /** `unary()`. */
    method Unary() returns (r: Outcome<T.Expr>)
      requires Valid()
      modifies this, tokens
      ensures Yields(Grammar.Unary(tokens.src, old(tokens.Cursor())), r, old(log))
      decreases |tokens.src| - tokens.Cursor(), 4
    {
      if Match({L.Bang, L.Minus}) {
        var op := Advance();
        var right := Unary();
        if !right.Done? {
          return right;
        }
        return Done(T.Unary(op, right.value));
      }
      r := Call();
    }

    /** `call()`: a primary expression, then the loop of `CallLoop`. */
    method Call() returns (r: Outcome<T.Expr>)
      requires Valid()
      modifies this, tokens
      ensures Yields(Grammar.Call(tokens.src, old(tokens.Cursor())), r, old(log))
      decreases |tokens.src| - tokens.Cursor(), 3
    {
      ghost var ts, i0, log0 := tokens.src, tokens.Cursor(), log;
      ghost var p := Grammar.Primary(ts, i0);
      var callee := Primary();
      if !callee.Done? {
        return callee;
      }
      r := CallLoop(callee.value);
      Assoc(log0, p.log, CallRest(ts, p.next, callee.value).log);
    }

    /** The loop of `call()`: argument lists while `(` follows. */
    method CallLoop(callee: T.Expr) returns (r: Outcome<T.Expr>)
      requires Valid()
      modifies this, tokens
      ensures Yields(CallRest(tokens.src, old(tokens.Cursor()), callee), r, old(log))
      decreases |tokens.src| - tokens.Cursor(), 2
    {
      hide CallRest, Grammar.FinishCall, PeekableIterator.Valid, PeekableIterator.Cursor;
      ghost var ts, log0 := tokens.src, log;
      ghost var goal := CallRest(ts, tokens.Cursor(), callee);
      ghost var acc: seq<Diag> := [];
      var expr := callee;
      while Match({L.LeftParen})
        invariant Valid() && log == log0 + acc
        invariant goal == After(acc, CallRest(ts, tokens.Cursor(), expr))
        decreases |ts| - tokens.Cursor()
      {
        ghost var j := tokens.Cursor();
        CallRestStep(ts, j, expr, acc, goal);
        ghost var f := Grammar.FinishCall(ts, j + 1, expr);
        var _ := Advance();
        var c := FinishCall(expr);
        Assoc(log0, acc, f.log);
        if !c.Done? {
          return c;
        }
        acc := acc + f.log;
        expr := c.value;
      }
      CallRestStop(ts, tokens.Cursor(), expr, acc, goal);
      r := Done(expr);
    }

    /** `finishCall(callee)` after the `(`. */
    method FinishCall(callee: T.Expr) returns (r: Outcome<T.Expr>)
      requires Valid()
      modifies this, tokens
      ensures Yields(Grammar.FinishCall(tokens.src, old(tokens.Cursor()), callee), r, old(log))
      decreases |tokens.src| - tokens.Cursor(), 21
    {
      hide Grammar.Arguments, Grammar.Consume, Sound, ExprEnding, FailsAtEof, PeekableIterator.Valid, PeekableIterator.Cursor;
      ghost var ts, i, log0 := tokens.src, tokens.Cursor(), log;
      var args: seq<T.Expr> := [];
      if !Match({L.RightParen}) {
        var a := Arguments();
        if !a.Done? {
          return Abrupt(a);
        }
        args := a.value;
      }
      ghost var log1 := log;
      var paren := Consume(L.RightParen, ParenAfterArgs);
      if !paren.Done? {
        return Abrupt(paren);
      }
      r := Done(T.Call(callee, paren.value, args));
    }

    /** The `do`-`while` loop of `finishCall`: an expression per round, and
        the `255`th round logs a diagnostic with no position and throws. */
    method Arguments() returns (r: Outcome<seq<T.Expr>>)
      requires Valid()
      modifies this, tokens
      ensures Yields(Grammar.Arguments(tokens.src, old(tokens.Cursor()), 0), r, old(log))
      decreases |tokens.src| - tokens.Cursor(), 20
    {
      hide Grammar.Arguments, Grammar.Expression, PeekableIterator.Valid, PeekableIterator.Cursor;
      ghost var ts, log0 := tokens.src, log;
      ghost var total := Grammar.Arguments(ts, tokens.Cursor(), 0);
      ghost var acc: seq<Diag> := [];
      PrefixEmpty(total);
      var args: seq<T.Expr> := [];
      var i := 0;
      var more := true;
      while more
        invariant Valid() && i == |args| && log == log0 + acc
        invariant more ==> total == Prefix(args, acc, Grammar.Arguments(ts, tokens.Cursor(), i))
        invariant !more ==> total == Parsed(Done(args), tokens.Cursor(), acc)
        decreases |ts| - tokens.Cursor() + (if more then 1 else 0)
      {
        ghost var j := tokens.Cursor();
        i := i + 1;
        if i >= 255 {
          log := log + [Diag(None, ArgLimit)];
          Assoc(log0, acc, [Diag(None, ArgLimit)]);
          return Threw(ParseError(ArgLimit));
        }
        ghost var e := ArgumentsRound(ts, j, i - 1);
        var x := Expression();
        Assoc(log0, acc, e.log);
        if !x.Done? {
          assert [] + e.log == e.log;
          return Abrupt(x);
        }
        more := MatchAndConsume(L.Comma);
        if more {
          PrefixStep(args, acc, [x.value], e.log, Grammar.Arguments(ts, tokens.Cursor(), i));
        }
        args := args + [x.value];
        acc := acc + e.log;
      }
      r := Done(args);
    }

    /** `logicalOr()`: level 2 of `Grammar.Level`. */
    method LogicalOr() returns (r: Outcome<T.Expr>)
      requires Valid()
      modifies this, tokens
      ensures Yields(Grammar.Level(tokens.src, old(tokens.Cursor()), 2), r, old(log))
      decreases |tokens.src| - tokens.Cursor(), 17
    {
      hide Grammar.Level, LevelRest, Looping, PeekableIterator.Valid, PeekableIterator.Cursor;
      ghost var ts, i0, log0 := tokens.src, tokens.Cursor(), log;
      ghost var goal := Grammar.Level(ts, i0, 2);
      ghost var o := LevelBegin(ts, i0, 2);
      var left := LogicalAnd();
      if !left.Done? {
        return left;
      }
      ghost var acc := o.log;
      var expr := left.value;
      while Match({L.Or})
        invariant Valid() && log == log0 + acc
        invariant Looping(ts, 2, goal, acc, tokens.Cursor(), expr)
        decreases |ts| - tokens.Cursor()
      {
        o := LevelRound(ts, 2, goal, acc, tokens.Cursor(), expr, log0);
        var op := Advance();
        var right := LogicalAnd();
        if !right.Done? {
          return right;
        }
        acc := acc + o.log;
        expr := Node(2, expr, op, right.value);
      }
      LevelEnd(ts, 2, goal, acc, tokens.Cursor(), expr);
      r := Done(expr);
    }

    /** `logicalAnd()`: level 3 of `Grammar.Level`. */
    method LogicalAnd() returns (r: Outcome<T.Expr>)
      requires Valid()
      modifies this, tokens
      ensures Yields(Grammar.Level(tokens.src, old(tokens.Cursor()), 3), r, old(log))
      decreases |tokens.src| - tokens.Cursor(), 15
    {
      hide Grammar.Level, LevelRest, Looping, PeekableIterator.Valid, PeekableIterator.Cursor;
      ghost var ts, i0, log0 := tokens.src, tokens.Cursor(), log;
      ghost var goal := Grammar.Level(ts, i0, 3);
      ghost var o := LevelBegin(ts, i0, 3);
      var left := Equality();
      if !left.Done? {
        return left;
      }
      ghost var acc := o.log;
      var expr := left.value;
      while Match({L.And})
        invariant Valid() && log == log0 + acc
        invariant Looping(ts, 3, goal, acc, tokens.Cursor(), expr)
        decreases |ts| - tokens.Cursor()
      {
        o := LevelRound(ts, 3, goal, acc, tokens.Cursor(), expr, log0);
        var op := Advance();
        var right := Equality();
        if !right.Done? {
          return right;
        }
        acc := acc + o.log;
        expr := Node(3, expr, op, right.value);
      }
      LevelEnd(ts, 3, goal, acc, tokens.Cursor(), expr);
      r := Done(expr);
    }

    /** `equality()`: level 4 of `Grammar.Level`. */
    method Equality() returns (r: Outcome<T.Expr>)
      requires Valid()
      modifies this, tokens
      ensures Yields(Grammar.Level(tokens.src, old(tokens.Cursor()), 4), r, old(log))
      decreases |tokens.src| - tokens.Cursor(), 13
    {
      hide Grammar.Level, LevelRest, Looping, PeekableIterator.Valid, PeekableIterator.Cursor;
      ghost var ts, i0, log0 := tokens.src, tokens.Cursor(), log;
      ghost var goal := Grammar.Level(ts, i0, 4);
      ghost var o := LevelBegin(ts, i0, 4);
      var left := Comparison();
      if !left.Done? {
        return left;
      }
      ghost var acc := o.log;
      var expr := left.value;
      while Match({L.BangEqual, L.EqualEqual})
        invariant Valid() && log == log0 + acc
        invariant Looping(ts, 4, goal, acc, tokens.Cursor(), expr)
        decreases |ts| - tokens.Cursor()
      {
        o := LevelRound(ts, 4, goal, acc, tokens.Cursor(), expr, log0);
        var op := Advance();
        var right := Comparison();
        if !right.Done? {
          return right;
        }
        acc := acc + o.log;
        expr := Node(4, expr, op, right.value);
      }
      LevelEnd(ts, 4, goal, acc, tokens.Cursor(), expr);
      r := Done(expr);
    }

    /** `comparison()`: level 5 of `Grammar.Level`. */
    method Comparison() returns (r: Outcome<T.Expr>)
      requires Valid()
      modifies this, tokens
      ensures Yields(Grammar.Level(tokens.src, old(tokens.Cursor()), 5), r, old(log))
      decreases |tokens.src| - tokens.Cursor(), 11
    {
      hide Grammar.Level, LevelRest, Looping, PeekableIterator.Valid, PeekableIterator.Cursor;
      ghost var ts, i0, log0 := tokens.src, tokens.Cursor(), log;
      ghost var goal := Grammar.Level(ts, i0, 5);
      ghost var o := LevelBegin(ts, i0, 5);
      var left := Term();
      if !left.Done? {
        return left;
      }
      ghost var acc := o.log;
      var expr := left.value;
      while Match({L.Greater, L.GreaterEqual, L.Less, L.LessEqual})
        invariant Valid() && log == log0 + acc
        invariant Looping(ts, 5, goal, acc, tokens.Cursor(), expr)
        decreases |ts| - tokens.Cursor()
      {
        o := LevelRound(ts, 5, goal, acc, tokens.Cursor(), expr, log0);
        var op := Advance();
        var right := Term();
        if !right.Done? {
          return right;
        }
        acc := acc + o.log;
        expr := Node(5, expr, op, right.value);
      }
      LevelEnd(ts, 5, goal, acc, tokens.Cursor(), expr);
      r := Done(expr);
    }

    /** `term()`: level 6 of `Grammar.Level`. */
    method Term() returns (r: Outcome<T.Expr>)
      requires Valid()
      modifies this, tokens
      ensures Yields(Grammar.Level(tokens.src, old(tokens.Cursor()), 6), r, old(log))
      decreases |tokens.src| - tokens.Cursor(), 9
    {
      hide Grammar.Level, LevelRest, Looping, PeekableIterator.Valid, PeekableIterator.Cursor;
      ghost var ts, i0, log0 := tokens.src, tokens.Cursor(), log;
      ghost var goal := Grammar.Level(ts, i0, 6);
      ghost var o := LevelBegin(ts, i0, 6);
      var left := Factor();
      if !left.Done? {
        return left;
      }
      ghost var acc := o.log;
      var expr := left.value;
      while Match({L.Minus, L.Plus})
        invariant Valid() && log == log0 + acc
        invariant Looping(ts, 6, goal, acc, tokens.Cursor(), expr)
        decreases |ts| - tokens.Cursor()
      {
        o := LevelRound(ts, 6, goal, acc, tokens.Cursor(), expr, log0);
        var op := Advance();
        var right := Factor();
        if !right.Done? {
          return right;
        }
        acc := acc + o.log;
        expr := Node(6, expr, op, right.value);
      }
      LevelEnd(ts, 6, goal, acc, tokens.Cursor(), expr);
      r := Done(expr);
    }

    /** `factor()`: level 7 of `Grammar.Level`. */
    method Factor() returns (r: Outcome<T.Expr>)
      requires Valid()
      modifies this, tokens
      ensures Yields(Grammar.Level(tokens.src, old(tokens.Cursor()), 7), r, old(log))
      decreases |tokens.src| - tokens.Cursor(), 7
    {
      hide Grammar.Level, LevelRest, Looping, PeekableIterator.Valid, PeekableIterator.Cursor;
      ghost var ts, i0, log0 := tokens.src, tokens.Cursor(), log;
      ghost var goal := Grammar.Level(ts, i0, 7);
      ghost var o := LevelBegin(ts, i0, 7);
      var left := Unary();
      if !left.Done? {
        return left;
      }
      ghost var acc := o.log;
      var expr := left.value;
      while Match({L.Slash, L.Star})
        invariant Valid() && log == log0 + acc
        invariant Looping(ts, 7, goal, acc, tokens.Cursor(), expr)
        decreases |ts| - tokens.Cursor()
      {
        o := LevelRound(ts, 7, goal, acc, tokens.Cursor(), expr, log0);
        var op := Advance();
        var right := Unary();
        if !right.Done? {
          return right;
        }
        acc := acc + o.log;
        expr := Node(7, expr, op, right.value);
      }
      LevelEnd(ts, 7, goal, acc, tokens.Cursor(), expr);
      r := Done(expr);
    }

    /** `assignment()`. */
    method Assignment() returns (r: Outcome<T.Expr>)
      requires Valid()
      modifies this, tokens
      ensures Yields(Grammar.Assignment(tokens.src, old(tokens.Cursor())), r, old(log))
      decreases |tokens.src| - tokens.Cursor(), 18
    {
      ghost var log0 := log;
      ghost var l := Grammar.Level(tokens.src, tokens.Cursor(), 2);
      var expr := LogicalOr();
      if !expr.Done? || !Match({L.Equal}) {
        return expr;
      }
      ghost var a := AssignValue(tokens.src, tokens.Cursor(), expr.value);
      r := AssignRest(expr.value);
      Assoc(log0, l.log, a.log);
    }

    /** The rest of `assignment()` at the `=`. */
    method AssignRest(target: T.Expr) returns (r: Outcome<T.Expr>)
      requires Valid() && At(tokens.src, tokens.Cursor(), L.Equal)
      modifies this, tokens
      ensures Yields(AssignValue(tokens.src, old(tokens.Cursor()), target), r, old(log))
      decreases |tokens.src| - tokens.Cursor(), 17
    {
      var equals := Advance();
      var value := Assignment();
      if !value.Done? {
        return value;
      }
      if target.Variable? {
        return Done(T.Assign(target.name, value.value));
      }
      log := log + [Diag(Some(equals.pos), InvalidTarget)];
      r := Done(target);
    }

    /** `expression()`. */
    method Expression() returns (r: Outcome<T.Expr>)
      requires Valid()
      modifies this, tokens
      ensures Yields(Grammar.Expression(tokens.src, old(tokens.Cursor())), r, old(log))
      decreases |tokens.src| - tokens.Cursor(), 19
    {
      r := Assignment();
    }

    // -------------------------------------------------------------------------
    // Simple statements.

    /** `exprStatement()`. */
    method ExprStatement() returns (r: Outcome<T.Stmt>)
      requires Valid()
      modifies this, tokens
      ensures Yields(Statements.ExprStatement(tokens.src, old(tokens.Cursor())), r, old(log))
    {
      hide Grammar.Expression, Grammar.Consume, Sound, ExprEnding, FailsAtEof, PeekableIterator.Valid, PeekableIterator.Cursor;
      ghost var ts, i, log0 := tokens.src, tokens.Cursor(), log;
      ghost var e := Grammar.Expression(ts, i);
      var expr := Expression();
      if !expr.Done? {
        assert [] + e.log == e.log;
        return Abrupt(expr);
      }
      ghost var c := Grammar.Consume(ts, e.next, L.Semicolon, SemiAfterStatement);
      var semi := Consume(L.Semicolon, SemiAfterStatement);
      Assoc(log0, e.log, c.log);
      if !semi.Done? {
        return Abrupt(semi);
      }
      r := Done(T.Expression(expr.value));
    }

    /** The `RETURN` branch of `statement()` after the keyword `keyword`. */
    method ReturnStatement(keyword: L.Token) returns (r: Outcome<T.Stmt>)
      requires Valid()
      modifies this, tokens
      ensures Yields(Statements.ReturnStatement(tokens.src, old(tokens.Cursor()), keyword), r, old(log))
    {
      hide Grammar.Expression, Grammar.Consume, Sound, ExprEnding, FailsAtEof, PeekableIterator.Valid, PeekableIterator.Cursor;
      ghost var ts, i, log0 := tokens.src, tokens.Cursor(), log;
      ghost var v := ReturnValue(ts, i);
      var value: Option<T.Expr> := None;
      if !Match({L.Semicolon}) {
        var e := Expression();
        if !e.Done? {
          assert [] + ([] + v.log) == v.log;
          return Abrupt(e);
        }
        value := Some(e.value);
      }
      ghost var c := Grammar.Consume(ts, v.next, L.Semicolon, SemiAfterReturn);
      var semi := Consume(L.Semicolon, SemiAfterReturn);
      Assoc(log0, v.log, c.log);
      if !semi.Done? {
        return Abrupt(semi);
      }
      r := Done(T.Return(keyword, value));
    }

    /** `(`, an expression and `)`, as `while` and `if` read their condition. */
    method Condition(openMsg: string, closeMsg: string) returns (r: Outcome<T.Expr>)
      requires Valid()
      modifies this, tokens
      ensures Yields(Statements.Condition(tokens.src, old(tokens.Cursor()), openMsg, closeMsg), r, old(log))
    {
      hide Grammar.Expression, Grammar.Consume, Sound, ExprEnding, FailsAtEof, PeekableIterator.Valid, PeekableIterator.Cursor;
      ghost var ts, i, log0 := tokens.src, tokens.Cursor(), log;
      ghost var o := Grammar.Consume(ts, i, L.LeftParen, openMsg);
      var open := Consume(L.LeftParen, openMsg);
      if !open.Done? {
        assert [] + o.log == o.log;
        return Abrupt(open);
      }
      ghost var e := Grammar.Expression(ts, i + 1);
      var cond := Expression();
      if !cond.Done? {
        return cond;
      }
      ghost var c := Grammar.Consume(ts, e.next, L.RightParen, closeMsg);
      var close := Consume(L.RightParen, closeMsg);
      Assoc(log0, e.log, c.log);
      if !close.Done? {
        return Abrupt(close);
      }
      r := cond;
    }

    /** `varDecl()` after `var`. */
    method VarDecl() returns (r: Outcome<T.Stmt>)
      requires Valid()
      modifies this, tokens
      ensures Yields(Statements.VarDecl(tokens.src, old(tokens.Cursor())), r, old(log))
    {
      hide Grammar.ConsumeIdent, Statements.VarRest, Sound, ExprEnding, FailsAtEof, PeekableIterator.Valid, PeekableIterator.Cursor;
      ghost var ts, i, log0 := tokens.src, tokens.Cursor(), log;
      ghost var n := Grammar.ConsumeIdent(ts, i, VariableName);
      var name := ConsumeIdent(VariableName);
      if !name.Done? {
        assert [] + n.log == n.log;
        return Abrupt(name);
      }
      r := VarRest(name.value);
    }

    /** `varDecl()` after the name `name`: the initialiser, then `;`. */
    method VarRest(name: string) returns (r: Outcome<T.Stmt>)
      requires Valid()
      modifies this, tokens
      ensures Yields(Statements.VarRest(tokens.src, old(tokens.Cursor()), name), r, old(log))
    {
      hide Grammar.Expression, Grammar.Consume, SemiAfterVar, Sound, ExprEnding, FailsAtEof, PeekableIterator.Valid, PeekableIterator.Cursor;
      ghost var ts, i, log0 := tokens.src, tokens.Cursor(), log;
      ghost var v := VarInit(ts, i);
      var init := T.Nil;
      var hasInit := MatchAndConsume(L.Equal);
      if hasInit {
        var e := Expression();
        if !e.Done? {
          assert [] + v.log == v.log;
          return Abrupt(e);
        }
        init := e.value;
      }
      ghost var c := Grammar.Consume(ts, v.next, L.Semicolon, SemiAfterVar(name));
      var semi := Consume(L.Semicolon, SemiAfterVar(name));
      Assoc(log0, v.log, c.log);
      if !semi.Done? {
        return Abrupt(semi);
      }
      r := Done(T.Var(name, init));
    }

    /** `sync()`: skips tokens after a `ParseError` (see `Statements.Sync`). */
    method Sync() returns (r: Outcome<()>)
      requires Valid()
      modifies tokens
      ensures var p := Statements.Sync(tokens.src, old(tokens.Cursor()));
        Valid() && r == p.out && tokens.Cursor() == p.next
    {
      hide Statements.Sync, PeekableIterator.Valid, PeekableIterator.Cursor;
      ghost var ts := tokens.src;
      ghost var goal := Statements.Sync(ts, tokens.Cursor());
      while true
        invariant Valid() && goal == Statements.Sync(ts, tokens.Cursor())
        decreases |ts| - tokens.Cursor()
      {
        SyncStep(ts, tokens.Cursor());
        var end := End();
        if end.Threw? {
          return Threw(end.failure);
        }
        if end.value {
          return Done(());
        }
        var t := Advance();
        if t.kind == L.Semicolon || Match(SyncStarts) {
          return Done(());
        }
        var n := tokens.Next();
        if n.None? {
          return Threw(NoSuchElement);
        }
      }
    }

    // -------------------------------------------------------------------------
    // Functions.

    /** The parameter list of `funcDecl` after its `(`: the names, then the
        `)`. */
    method ParamList() returns (r: Outcome<seq<string>>)
      requires Valid()
      modifies this, tokens
      ensures Yields(Statements.ParamList(tokens.src, old(tokens.Cursor())), r, old(log))
    {
      hide Params, Grammar.Consume, Sound, ExprEnding, PeekableIterator.Valid, PeekableIterator.Cursor;
      ghost var ts, i, log0 := tokens.src, tokens.Cursor(), log;
      ghost var ps := if At(ts, i, L.RightParen) then Parsed(Done([]), i, []) else Params(ts, i, 0);
      var params: seq<string> := [];
      var empty := Match({L.RightParen});
      if !empty {
        var names := Names();
        if !names.Done? {
          assert [] + ps.log == ps.log;
          return Abrupt(names);
        }
        params := names.value;
      }
      ghost var c := Grammar.Consume(ts, ps.next, L.RightParen, ParenAfterParams);
      var close := Consume(L.RightParen, ParenAfterParams);
      Assoc(log0, ps.log, c.log);
      if !close.Done? {
        return Abrupt(close);
      }
      r := Done(params);
    }

    /** The `do`-`while` loop of `funcDecl` that reads the parameter names. */
    method Names() returns (r: Outcome<seq<string>>)
      requires Valid()
      modifies this, tokens
      ensures Yields(Params(tokens.src, old(tokens.Cursor()), 0), r, old(log))
    {
      hide Params, Grammar.ConsumeIdent, Sound, ExprEnding, PeekableIterator.Valid, PeekableIterator.Cursor;
      ghost var ts, log0 := tokens.src, log;
      ghost var ps := Params(ts, tokens.Cursor(), 0);
      var params: seq<string> := [];
      PrefixEmpty(ps);
      var more := true;
      while more
        invariant Valid() && log == log0 && |params| <= 255
        invariant more ==> ps == Prefix(params, [], Params(ts, tokens.Cursor(), |params|))
        invariant !more ==> ps == Parsed(Done(params), tokens.Cursor(), [])
        decreases |ts| - tokens.Cursor() + (if more then 1 else 0)
      {
        ghost var j := tokens.Cursor();
        if |params| >= 255 {
          var peek := PeekSafe();
          if peek.Threw? {
            assert log0 + ([] + []) == log0;
            return Threw(peek.failure);
          }
          r := Throw(ParamLimit);
          return;
        }
        ghost var p := ParamsRound(ts, j, |params|);
        var name := ConsumeIdent(ParameterName);
        if !name.Done? {
          assert [] + ([] + p.log) == p.log;
          return Abrupt(name);
        }
        more := MatchAndConsume(L.Comma);
        if more {
          PrefixStep(params, [], [name.value], [], Params(ts, tokens.Cursor(), |params| + 1));
        }
        params := params + [name.value];
      }
      assert log0 + [] == log0;
      r := Done(params);
    }

    /** `funcDecl(FUNCTION)` up to the `{` of the body: the name and the
        parameters. */
    method FuncHead() returns (r: Outcome<(string, seq<string>)>)
      requires Valid()
      modifies this, tokens
      ensures Yields(Statements.FuncHead(tokens.src, old(tokens.Cursor())), r, old(log))
    {
      hide Statements.ParamList, Grammar.ConsumeIdent, Grammar.Consume, Sound, ExprEnding, PeekableIterator.Valid, PeekableIterator.Cursor;
      ghost var ts, i, log0 := tokens.src, tokens.Cursor(), log;
      ghost var n := Grammar.ConsumeIdent(ts, i, FunctionName);
      var name := ConsumeIdent(FunctionName);
      if !name.Done? {
        assert [] + n.log == n.log;
        return Abrupt(name);
      }
      ghost var o := Grammar.Consume(ts, i + 1, L.LeftParen, ParenAfterFunName);
      var open := Consume(L.LeftParen, ParenAfterFunName);
      if !open.Done? {
        assert [] + o.log == o.log;
        return Abrupt(open);
      }
      ghost var ps := Statements.ParamList(ts, i + 2);
      var params := ParamList();
      if !params.Done? {
        assert [] + ps.log == ps.log;
        return Abrupt(params);
      }
      r := Done((name.value, params.value));
    }

    /** `funcDecl(FUNCTION)` after `fun`. */
    method FuncDecl() returns (r: Outcome<T.Stmt>)
      requires Valid()
      modifies this, tokens
      ensures Yields(Statements.FuncDecl(tokens.src, old(tokens.Cursor())), r, old(log))
      decreases |tokens.src| - tokens.Cursor(), 0
    {
      hide Statements.FuncHead, Statements.FuncBody, Sound, StmtEnding, ExprEnding, PeekableIterator.Valid, PeekableIterator.Cursor;
      ghost var ts, i, log0 := tokens.src, tokens.Cursor(), log;
      ghost var h := Statements.FuncHead(ts, i);
      var head := FuncHead();
      if !head.Done? {
        assert [] + h.log == h.log;
        return Abrupt(head);
      }
      ghost var b := Statements.FuncBody(ts, h.next, head.value.0, head.value.1);
      r := FuncBody(head.value.0, head.value.1);
      Assoc(log0, h.log, b.log);
    }

    /** The body of `funcDecl(FUNCTION)`, from its `{`. */
    method FuncBody(name: string, params: seq<string>) returns (r: Outcome<T.Stmt>)
      requires Valid()
      modifies this, tokens
      ensures Yields(Statements.FuncBody(tokens.src, old(tokens.Cursor()), name, params), r, old(log))
      decreases |tokens.src| - tokens.Cursor(), 6
    {
      hide Statements.Block, Grammar.Consume, Sound, StmtEnding, ExprEnding, FailsAtEof, PeekableIterator.Valid, PeekableIterator.Cursor;
      ghost var ts, i, log0 := tokens.src, tokens.Cursor(), log;
      ghost var c := Grammar.Consume(ts, i, L.LeftBrace, BraceBeforeBody);
      var brace := Consume(L.LeftBrace, BraceBeforeBody);
      if !brace.Done? {
        assert [] + c.log == c.log;
        return Abrupt(brace);
      }
      ghost var b := Statements.Block(ts, i + 1);
      var body := Block();
      if !body.Done? {
        assert [] + b.log == b.log;
        return Abrupt(body);
      }
      r := Done(T.Function(name, params, T.Block(body.value)));
    }

    // -------------------------------------------------------------------------
    // `for`.

    /** The initialiser clause of `forStatement()`. */
    method ForInit() returns (r: Outcome<Option<T.Stmt>>)
      requires Valid()
      modifies this, tokens
      ensures Yields(Statements.ForInit(tokens.src, old(tokens.Cursor())), r, old(log))
    {
      hide Statements.VarDecl, Statements.ExprStatement, Sound, ExprEnding, FailsAtEof, PeekableIterator.Valid, PeekableIterator.Cursor;
      ghost var ts, i, log0 := tokens.src, tokens.Cursor(), log;
      assert log0 + [] == log0;
      var empty := MatchAndConsume(L.Semicolon);
      if empty {
        return Done(None);
      }
      ghost var sp := if At(ts, i, L.Var) then Statements.VarDecl(ts, i + 1) else Statements.ExprStatement(ts, i);
      var isVar := MatchAndConsume(L.Var);
      var s: Outcome<T.Stmt>;
      if isVar {
        s := VarDecl();
      } else {
        s := ExprStatement();
      }
      if !s.Done? {
        assert [] + sp.log == sp.log;
        return Abrupt(s);
      }
      r := Done(Some(s.value));
    }

    /** The condition clause of `forStatement()`: `true` when it is empty. */
    method ForCond() returns (r: Outcome<T.Expr>)
      requires Valid()
      modifies this, tokens
      ensures Yields(Statements.ForCond(tokens.src, old(tokens.Cursor())), r, old(log))
    {
      hide Grammar.Expression, Grammar.Consume, Sound, ExprEnding, FailsAtEof, PeekableIterator.Valid, PeekableIterator.Cursor;
      ghost var ts, i, log0 := tokens.src, tokens.Cursor(), log;
      ghost var e := if !At(ts, i, L.Semicolon) then Grammar.Expression(ts, i) else Parsed(Done(T.Bool(true)), i, []);
      var cond := T.Bool(true);
      if !Match({L.Semicolon}) {
        var x := Expression();
        if !x.Done? {
          return x;
        }
        cond := x.value;
      }
      assert log == log0 + e.log;
      ghost var c := Grammar.Consume(ts, e.next, L.Semicolon, SemiAfterLoopCond);
      var semi := Consume(L.Semicolon, SemiAfterLoopCond);
      Assoc(log0, e.log, c.log);
      if !semi.Done? {
        return Abrupt(semi);
      }
      r := Done(cond);
    }

    /** The increment clause of `forStatement()`: none when it is empty. */
    method ForPost() returns (r: Outcome<Option<T.Expr>>)
      requires Valid()
      modifies this, tokens
      ensures Yields(Statements.ForPost(tokens.src, old(tokens.Cursor())), r, old(log))
    {
      hide Grammar.Expression, Grammar.Consume, Sound, ExprEnding, FailsAtEof, PeekableIterator.Valid, PeekableIterator.Cursor;
      ghost var ts, i, log0 := tokens.src, tokens.Cursor(), log;
      ghost var e := if !At(ts, i, L.RightParen) then Grammar.Expression(ts, i) else Parsed(Done(T.Nil), i, []);
      var post: Option<T.Expr> := None;
      if !Match({L.RightParen}) {
        var x := Expression();
        if !x.Done? {
          assert [] + e.log == e.log;
          return Abrupt(x);
        }
        post := Some(x.value);
      }
      assert log == log0 + e.log;
      ghost var c := Grammar.Consume(ts, e.next, L.RightParen, ParenAfterClauses);
      var close := Consume(L.RightParen, ParenAfterClauses);
      Assoc(log0, e.log, c.log);
      if !close.Done? {
        return Abrupt(close);
      }
      r := Done(post);
    }

    /** The three clauses of `forStatement()` after its `(`. */
    method ForClauses() returns (r: Outcome<(Option<T.Stmt>, T.Expr, Option<T.Expr>)>)
      requires Valid()
      modifies this, tokens
      ensures Yields(Statements.ForClauses(tokens.src, old(tokens.Cursor())), r, old(log))
    {
      hide Statements.ForInit, Statements.ForCond, Statements.ForPost, Sound, ExprEnding, PeekableIterator.Valid, PeekableIterator.Cursor;
      ghost var ts, i, log0 := tokens.src, tokens.Cursor(), log;
      ghost var a := Statements.ForInit(ts, i);
      var init := ForInit();
      if !init.Done? {
        assert [] + a.log == a.log;
        return Abrupt(init);
      }
      ghost var b := Statements.ForCond(ts, a.next);
      var cond := ForCond();
      Assoc(log0, a.log, b.log);
      if !cond.Done? {
        return Abrupt(cond);
      }
      ghost var c := Statements.ForPost(ts, b.next);
      var post := ForPost();
      Assoc(log0 + a.log, b.log, c.log);
      Assoc(log0, a.log + b.log, c.log);
      if !post.Done? {
        return Abrupt(post);
      }
      r := Done((init.value, cond.value, post.value));
    }

    /** `forStatement()` after the keyword: the clauses, the body, and the
        `while` loop they stand for, built step by step. */
    method ForStatement() returns (r: Outcome<T.Stmt>)
      requires Valid()
      modifies this, tokens
      ensures Yields(Statements.ForStatement(tokens.src, old(tokens.Cursor())), r, old(log))
      decreases |tokens.src| - tokens.Cursor(), 0
    {
      hide Statements.ForClauses, Statements.Statement, Grammar.Consume, Sound, PeekableIterator.Valid, PeekableIterator.Cursor;
      ghost var ts, i, log0 := tokens.src, tokens.Cursor(), log;
      ghost var o := Grammar.Consume(ts, i, L.LeftParen, ParenAfterFor);
      var open := Consume(L.LeftParen, ParenAfterFor);
      if !open.Done? {
        assert [] + o.log == o.log;
        return Abrupt(open);
      }
      ghost var cl := Statements.ForClauses(ts, i + 1);
      var clauses := ForClauses();
      if !clauses.Done? {
        assert [] + cl.log == cl.log;
        return Abrupt(clauses);
      }
      var (init, cond, post) := clauses.value;
      ghost var b := Statements.Statement(ts, cl.next);
      var body := Statement();
      Assoc(log0, cl.log, b.log);
      if !body.Done? {
        return Abrupt(body);
      }
      var loop := body.value;
      if post.Some? {
        loop := T.Block([loop, T.Expression(post.value)]);
      }
      loop := T.While(cond, loop);
      if init.Some? {
        loop := T.Block([init.value, loop]);
      }
      r := Done(loop);
    }

    // -------------------------------------------------------------------------
    // Statements, blocks and declarations.

    /** The `WHILE` branch of `statement()` after the keyword. */
    method WhileStatement() returns (r: Outcome<T.Stmt>)
      requires Valid()
      modifies this, tokens
      ensures Yields(Statements.WhileStatement(tokens.src, old(tokens.Cursor())), r, old(log))
      decreases |tokens.src| - tokens.Cursor(), 0
    {
      hide Statements.Condition, Statements.Statement, Sound, ExprEnding, PeekableIterator.Valid, PeekableIterator.Cursor;
      ghost var ts, i, log0 := tokens.src, tokens.Cursor(), log;
      ghost var c := Statements.Condition(ts, i, WhileOpen, WhileClose);
      var cond := Condition(WhileOpen, WhileClose);
      if !cond.Done? {
        assert [] + c.log == c.log;
        return Abrupt(cond);
      }
      ghost var b := Statements.Statement(ts, c.next);
      var body := Statement();
      Assoc(log0, c.log, b.log);
      if !body.Done? {
        return Abrupt(body);
      }
      r := Done(T.While(cond.value, body.value));
    }

    /** `ifStatement()` after the keyword. */
    method IfStatement() returns (r: Outcome<T.Stmt>)
      requires Valid()
      modifies this, tokens
      ensures Yields(Statements.IfStatement(tokens.src, old(tokens.Cursor())), r, old(log))
      decreases |tokens.src| - tokens.Cursor(), 0
    {
      hide Statements.Condition, Statements.Statement, Sound, ExprEnding, PeekableIterator.Valid, PeekableIterator.Cursor;
      ghost var ts, i, log0 := tokens.src, tokens.Cursor(), log;
      ghost var c := Statements.Condition(ts, i, IfOpen, IfClose);
      var cond := Condition(IfOpen, IfClose);
      if !cond.Done? {
        assert [] + c.log == c.log;
        return Abrupt(cond);
      }
      ghost var t := Statements.Statement(ts, c.next);
      var thenBranch := Statement();
      Assoc(log0, c.log, t.log);
      if !thenBranch.Done? {
        return thenBranch;
      }
      ghost var e := ElseBranch(ts, t.next);
      var elseBranch: Option<T.Stmt> := None;
      var hasElse := MatchAndConsume(L.Else);
      if hasElse {
        var x := Statement();
        if !x.Done? {
          assert log == log0 + c.log + t.log + e.log;
          assert c.log + (t.log + e.log) == c.log + t.log + e.log;
          return Abrupt(x);
        }
        elseBranch := Some(x.value);
      }
      assert log == log0 + c.log + t.log + e.log;
      assert c.log + (t.log + e.log) == c.log + t.log + e.log;
      r := Done(T.If(cond.value, thenBranch.value, elseBranch));
    }

    /** `statement()`: chosen by the kind of the next token. The `PRINT`
        branch reads an expression and `;` exactly as `exprStatement()` does. */
    method Statement() returns (r: Outcome<T.Stmt>)
      requires Valid()
      modifies this, tokens
      ensures Yields(Statements.Statement(tokens.src, old(tokens.Cursor())), r, old(log))
      decreases |tokens.src| - tokens.Cursor(), 1
    {
      hide Statements.PrintStatement, Statements.ExprStatement, Statements.ReturnStatement, Statements.WhileStatement;
      hide Statements.ForStatement, Statements.IfStatement, Statements.BlockStatement, Sound, ExprEnding, FailsAtEof, StmtEnding;
      hide PeekableIterator.Valid, PeekableIterator.Cursor;
      ghost var log0 := log;
      var begin := PeekSafe();
      if begin.Threw? {
        assert log0 + [] == log0;
        return Threw(begin.failure);
      }
      var k := begin.value.kind;
      if k == L.Print {
        var _ := Advance();
        r := PrintStatement();
      } else if k == L.Return {
        var keyword := Advance();
        r := ReturnStatement(keyword);
      } else if k == L.While {
        var _ := Advance();
        r := WhileStatement();
      } else if k == L.For {
        var _ := Advance();
        r := ForStatement();
      } else if k == L.If {
        var _ := Advance();
        r := IfStatement();
      } else if k == L.LeftBrace {
        var _ := Advance();
        r := BlockStatement();
      } else {
        r := ExprStatement();
      }
    }

    /** The `PRINT` branch of `statement()` after the keyword. */
    method PrintStatement() returns (r: Outcome<T.Stmt>)
      requires Valid()
      modifies this, tokens
      ensures Yields(Statements.PrintStatement(tokens.src, old(tokens.Cursor())), r, old(log))
    {
      hide Grammar.Expression, Grammar.Consume, Sound, ExprEnding, FailsAtEof, PeekableIterator.Valid, PeekableIterator.Cursor;
      ghost var ts, i, log0 := tokens.src, tokens.Cursor(), log;
      ghost var e := Grammar.Expression(ts, i);
      var value := Expression();
      if !value.Done? {
        assert [] + e.log == e.log;
        return Abrupt(value);
      }
      ghost var c := Grammar.Consume(ts, e.next, L.Semicolon, SemiAfterStatement);
      var semi := Consume(L.Semicolon, SemiAfterStatement);
      Assoc(log0, e.log, c.log);
      if !semi.Done? {
        return Abrupt(semi);
      }
      r := Done(T.Print(value.value));
    }

    /** The `LEFT_BRACE` branch of `statement()` after the `{`. */
    method BlockStatement() returns (r: Outcome<T.Stmt>)
      requires Valid()
      modifies this, tokens
      ensures Yields(Statements.BlockStatement(tokens.src, old(tokens.Cursor())), r, old(log))
      decreases |tokens.src| - tokens.Cursor(), 6
    {
      hide Statements.Block, Sound, StmtEnding, PeekableIterator.Valid, PeekableIterator.Cursor;
      ghost var b := Statements.Block(tokens.src, tokens.Cursor());
      var stmts := Block();
      if !stmts.Done? {
        assert [] + b.log == b.log;
        return Abrupt(stmts);
      }
      r := Done(T.Block(stmts.value));
    }

    /** `block()` after `{`: declarations until `}`. Where the source's loop
        would run forever (a declaration at `<EOF>`, which consumes nothing),
        the method returns `Hang` after the first such round. */
    method Block() returns (r: Outcome<seq<T.Stmt>>)
      requires Valid()
      modifies this, tokens
      ensures Yields(Statements.Block(tokens.src, old(tokens.Cursor())), r, old(log))
      decreases |tokens.src| - tokens.Cursor(), 5
    {
      hide BlockLoop, Statements.Declaration, Grammar.Consume, Sound, StmtEnding, PeekableIterator.Valid, PeekableIterator.Cursor;
      ghost var ts, log0 := tokens.src, log;
      ghost var goal := BlockLoop(ts, tokens.Cursor());
      ghost var acc: seq<Diag> := [];
      PrefixEmpty(goal);
      var stmts: seq<T.Stmt> := [];
      while true
        invariant Valid() && log == log0 + acc
        invariant goal == Prefix(stmts, acc, BlockLoop(ts, tokens.Cursor()))
        decreases |ts| - tokens.Cursor()
      {
        ghost var j := tokens.Cursor();
        var peek := PeekSafe();
        if peek.Threw? {
          BlockLoopEnds(ts, j);
          return Threw(peek.failure);
        }
        if peek.value.kind == L.RightBrace {
          BlockLoopEnds(ts, j);
          break;
        }
        ghost var d := BlockRound(ts, j);
        var atEof := peek.value.kind == L.Eof;
        var decl := Declaration();
        Assoc(log0, acc, d.log);
        if !decl.Done? {
          assert [] + d.log == d.log;
          return Abrupt(decl);
        }
        if atEof {
          return Hang;
        }
        PrefixStep(stmts, acc, Opt(decl.value), d.log, BlockLoop(ts, d.next));
        stmts := stmts + Opt(decl.value);
        acc := acc + d.log;
      }
      assert stmts + [] == stmts && acc + [] == acc;
      var _ := Consume(L.RightBrace, BraceAfterBlock);
      r := Done(stmts);
    }

    /** `declaration()`: the rule chosen by the next token, inside the
        `try`-`catch` that synchronises after a `ParseError`. */
    method Declaration() returns (r: Outcome<Option<T.Stmt>>)
      requires Valid()
      modifies this, tokens
      ensures Yields(Statements.Declaration(tokens.src, old(tokens.Cursor())), r, old(log))
      decreases |tokens.src| - tokens.Cursor(), 3
    {
      hide Statements.Recover, Statements.DeclarationRule, Statements.Sync;
      hide Sound, ExprEnding, FailsAtEof, StmtEnding, PeekableIterator.Valid, PeekableIterator.Cursor;
      ghost var ts, i, log0 := tokens.src, tokens.Cursor(), log;
      var begin := PeekSafe();
      if begin.Threw? {
        assert log0 + [] == log0;
        return Threw(begin.failure);
      }
      ghost var sp := Statements.DeclarationRule(ts, i);
      RecoverStep(ts, i, sp);
      var s := DeclarationRule();
      if s.Threw? && s.failure.ParseError? {
        var y := Sync();
        if !y.Done? {
          return Abrupt(y);
        }
        return Done(None);
      }
      if !s.Done? {
        assert [] + sp.log == sp.log;
        return Abrupt(s);
      }
      r := Done(Some(s.value));
    }

    /** The `when` of `declaration()`, at a token. */
    method DeclarationRule() returns (r: Outcome<T.Stmt>)
      requires Valid() && tokens.Cursor() < |tokens.src|
      modifies this, tokens
      ensures Yields(Statements.DeclarationRule(tokens.src, old(tokens.Cursor())), r, old(log))
      decreases |tokens.src| - tokens.Cursor(), 2
    {
      hide Statements.VarDecl, Statements.FuncDecl, Statements.Statement;
      hide Sound, ExprEnding, FailsAtEof, StmtEnding, PeekableIterator.Valid, PeekableIterator.Cursor;
      if Match({L.Var}) {
        var _ := Advance();
        r := VarDecl();
      } else if Match({L.Fun}) {
        var _ := Advance();
        r := FuncDecl();
      } else {
        r := Statement();
      }
    }

    // -------------------------------------------------------------------------
    // `parse()`.

    /** `parse()`, drained: every statement its iterator yields, and how the
        iteration stops. */
    method Parse() returns (stmts: seq<T.Stmt>, stop: Outcome<()>)
      requires Valid()
      modifies this, tokens
      ensures var p := ParseFrom(tokens.src, old(tokens.Cursor()));
        Valid() && stmts == p.stmts && stop == p.stop && tokens.Cursor() == p.next && log == old(log) + p.log
    {
      hide ParseFrom, Statements.Declaration, PeekableIterator.Valid, PeekableIterator.Cursor;
      ghost var ts, log0 := tokens.src, log;
      ghost var goal := ParseFrom(ts, tokens.Cursor());
      ghost var acc: seq<Diag> := [];
      assert goal == ProgramPrefix([], [], goal);
      stmts := [];
      while true
        invariant Valid() && log == log0 + acc
        invariant goal == ProgramPrefix(stmts, acc, ParseFrom(ts, tokens.Cursor()))
        decreases |ts| - tokens.Cursor()
      {
        ghost var j := tokens.Cursor();
        var end := End();
        if end.Threw? {
          ParseEnds(ts, j, stmts, acc);
          stop := Threw(end.failure);
          return;
        }
        if end.value {
          ParseEnds(ts, j, stmts, acc);
          stop := Done(());
          return;
        }
        ghost var d := ParseRound(ts, j, stmts, acc);
        var decl := Declaration();
        Assoc(log0, acc, d.log);
        if !decl.Done? {
          stop := Abrupt(decl);
          return;
        }
        stmts := stmts + Opt(decl.value);
        acc := acc + d.log;
      }
    }
  }
}

/** The simulation: for every expression, block and statement, what evaluation
    yields and where the emitted code arrives. */
module LoweringRuns {
  import opened Collections
  import opened Mir
  import opened Lowering
  import opened LoweringShape
  import opened LoweringStages
  import opened LoweringSim
  import opened LoweringGlue
  import opened LoweringExprs
  import opened LoweringStmts
  import opened LoweringBlocks
  import opened LoweringLogic
  import opened LoweringBranches
  import opened LoweringLoops
  import Ast
  import Leaks

  lemma {:induction false} ExprRuns(c: Context, s: State, e: Ast.Expr, scope: Ast.Scope, env: Ast.Env,
      store: Store, lost: bool, fuel: nat)
    returns (n: nat, d: Config)
    requires ExprReady(c, s, e, scope, env, store)
    ensures ExprRan(c, s, e, scope, Ast.Eval(c.m, e, env, fuel), Leaks.Leaks(c.m, e, env, fuel),
      fuel, store, lost, n, d)
    decreases fuel, e, 2
  {
    hide *;
    ShortcircuitKinds(e);
    match e {
    case Return(None, _) => n, d := ReturnUnitRuns(c, s, e, scope, env, store, lost, fuel);
    case Return(Some(_), _) => n, d := ReturnExprRuns(c, s, e, scope, env, store, lost, fuel);
    case Literal(_) => n, d := LeafRuns(c, s, e, scope, env, store, lost, fuel);
    case BlockExpr(_, _) => n, d := BlockExprRuns(c, s, e, scope, env, store, lost, fuel);
    case Path(_, _) => n, d := LeafRuns(c, s, e, scope, env, store, lost, fuel);
    case Not(_) => n, d := UnaryRuns(c, s, e, scope, env, store, lost, fuel);
    case Negate(_) => n, d := UnaryRuns(c, s, e, scope, env, store, lost, fuel);
    case Assign(_, _, _) => n, d := AssignExprRuns(c, s, e, scope, env, store, lost, fuel);
    case BinOp(_, op, _) =>
      if op.And? {
        n, d := ShortcircuitRuns(c, s, e, 1, scope, env, store, lost, fuel);
      } else if op.Or? {
        n, d := ShortcircuitRuns(c, s, e, 0, scope, env, store, lost, fuel);
      } else {
        n, d := BinOpRuns(c, s, e, scope, env, store, lost, fuel);
      }
    case IfElse(_, _, _, _) => n, d := IfElseRuns(c, s, e, scope, env, store, lost, fuel);
    case While(_, _) => n, d := WhileRuns(c, s, e, scope, env, store, lost, fuel);
    }
  }

  lemma {:induction false} UnaryRuns(c: Context, s: State, e: Ast.Expr, scope: Ast.Scope, env: Ast.Env,
      store: Store, lost: bool, fuel: nat)
    returns (n: nat, d: Config)
    requires ExprReady(c, s, e, scope, env, store) && (e.Not? || e.Negate?)
    ensures ExprRan(c, s, e, scope, Ast.Eval(c.m, e, env, fuel), Leaks.Leaks(c.m, e, env, fuel),
      fuel, store, lost, n, d)
    decreases fuel, e, 0
  {
    hide *;
    UnaryParts(c, s, e, scope, env, fuel, store, lost);
    n, d := VarRuns(c, s, e.operand, OperandType(e), scope, env, store, lost, fuel);
    UnaryArrives(c, s, e, scope, env, fuel, store, lost, n, d);
  }

  /** An expression, and its value in a variable. */
  lemma {:induction false} VarRuns(c: Context, s: State, e: Ast.Expr, ty: Ty, scope: Ast.Scope, env: Ast.Env,
      store: Store, lost: bool, fuel: nat)
    returns (n: nat, d: Config)
    requires VarReady(c, s, e, ty, scope, env, store)
    ensures VarRan(c, s, LowerToVar(s, e, ty), ty, scope, Ast.Held(e, Ast.Eval(c.m, e, env, fuel)),
      Leaks.Leaks(c.m, e, env, fuel), fuel, store, lost, n, d)
    decreases fuel, e, 3
  {
    hide *;
    VarStart(c, s, e, ty, scope, env, store);
    n, d := ExprRuns(c, s, e, scope, env, store, lost, fuel);
    n, d := VarArrives(c, s, e, ty, scope, env, fuel, store, lost, n, d);
  }

  lemma {:induction false} ReturnExprRuns(c: Context, s: State, e: Ast.Expr, scope: Ast.Scope, env: Ast.Env,
      store: Store, lost: bool, fuel: nat)
    returns (n: nat, d: Config)
    requires ExprReady(c, s, e, scope, env, store) && e.Return? && e.result.Some?
    ensures ExprRan(c, s, e, scope, Ast.Eval(c.m, e, env, fuel), Leaks.Leaks(c.m, e, env, fuel),
      fuel, store, lost, n, d)
    decreases fuel, e, 0
  {
    hide *;
    ReturnExprParts(c, s, e, scope, env, store);
    n, d := ExprRuns(c, s, e.result.value, scope, env, store, lost, fuel);
    n, d := ReturnExprArrives(c, s, e, scope, env, fuel, store, lost, n, d);
  }

  lemma {:induction false} BlockExprRuns(c: Context, s: State, e: Ast.Expr, scope: Ast.Scope, env: Ast.Env,
      store: Store, lost: bool, fuel: nat)
    returns (n: nat, d: Config)
    requires ExprReady(c, s, e, scope, env, store) && e.BlockExpr?
    ensures ExprRan(c, s, e, scope, Ast.Eval(c.m, e, env, fuel), Leaks.Leaks(c.m, e, env, fuel),
      fuel, store, lost, n, d)
    decreases fuel, e, 0
  {
    hide *;
    BlockExprParts(c, s, e, scope, env, store);
    n, d := BlockRuns(c, s, e.block, scope, env, store, lost, fuel);
    n, d := BlockExprArrives(c, s, e, scope, env, fuel, store, lost, n, d);
  }

  lemma {:induction false} AssignExprRuns(c: Context, s: State, e: Ast.Expr, scope: Ast.Scope, env: Ast.Env,
      store: Store, lost: bool, fuel: nat)
    returns (n: nat, d: Config)
    requires ExprReady(c, s, e, scope, env, store) && e.Assign?
    ensures ExprRan(c, s, e, scope, Ast.Eval(c.m, e, env, fuel), Leaks.Leaks(c.m, e, env, fuel),
      fuel, store, lost, n, d)
    decreases fuel, e, 0
  {
    hide *;
    AssignExprParts(c, s, e, scope, env, store);
    n, d := ExprRuns(c, s, e.rhs, scope, env, store, lost, fuel);
    n, d := AssignExprArrives(c, s, e, scope, env, fuel, store, lost, n, d);
  }

  lemma {:induction false} BinOpRuns(c: Context, s: State, e: Ast.Expr, scope: Ast.Scope, env: Ast.Env,
      store: Store, lost: bool, fuel: nat)
    returns (n: nat, d: Config)
    requires ExprReady(c, s, e, scope, env, store) && e.BinOp? && !e.op.And? && !e.op.Or?
    ensures ExprRan(c, s, e, scope, Ast.Eval(c.m, e, env, fuel), Leaks.Leaks(c.m, e, env, fuel),
      fuel, store, lost, n, d)
    decreases fuel, e, 0
  {
    hide *;
    var tl, tr := Ast.TypeOf(e.left), Ast.TypeOf(e.right);
    BinOpStart(c, s, e, scope, env, store);
    n, d := VarRuns(c, s, e.left, tl, scope, env, store, lost, fuel);
    var o := Ast.Held(e.left, Ast.Eval(c.m, e.left, env, fuel));
    Ast.CompletesIs(o);
    if o.Normal? || o.Void? {
      var x := LowerToVar(s, e.left, tl);
      BinOpNext(c, s, e, scope, env, fuel, store, lost, n, d);
      var k, f := VarRuns(c, x.s, e.right, tr, scope, o.env, d.store, d.lost, fuel);
      n, d := BinOpArrives(c, s, e, scope, env, fuel, store, lost, n, d, k, f);
    } else {
      BinOpStops(c, s, e, scope, env, fuel, store, lost, n, d);
    }
  }

  lemma {:induction false} StmtsRuns(c: Context, s: State, stmts: seq<Ast.Stmt>, scope: Ast.Scope, env: Ast.Env,
      store: Store, lost: bool, fuel: nat)
    returns (n: nat, d: Config)
    requires StmtsReady(c, s, stmts, scope, env, store)
    ensures StmtsRan(c, s, LowerStmts(s, stmts), Ast.ScopeAfter(stmts, scope), Ast.EvalStmts(c.m, stmts, env, fuel),
      Leaks.LeaksStmts(c.m, stmts, env, fuel), fuel, store, lost, n, d)
    decreases fuel, stmts, 1
  {
    hide *;
    if stmts == [] {
      n, d := NoStmtsRun(c, s, stmts, scope, env, store, lost, fuel);
    } else {
      StmtsStart(c, s, stmts, scope, env, store);
      n, d := StmtRuns(c, s, stmts[0], scope, env, store, lost, fuel);
      var o := Ast.EvalStmt(c.m, stmts[0], env, fuel);
      if o.Normal? {
        StmtsNext(c, s, stmts, scope, env, fuel, store, lost, n, d);
        var k, f := StmtsRuns(c, LowerStmt(s, stmts[0]), stmts[1..], Ast.ScopeAfterStmt(stmts[0], scope),
          o.env, d.store, d.lost, fuel);
        n, d := StmtsArrive(c, s, stmts, scope, env, fuel, store, lost, n, d, k, f);
      } else {
        StmtsStop(c, s, stmts, scope, env, fuel, store, lost, n, d);
      }
    }
  }

  lemma {:induction false} StmtRuns(c: Context, s: State, stmt: Ast.Stmt, scope: Ast.Scope, env: Ast.Env,
      store: Store, lost: bool, fuel: nat)
    returns (n: nat, d: Config)
    requires StmtReady(c, s, stmt, scope, env, store)
    ensures StmtsRan(c, s, LowerStmt(s, stmt), Ast.ScopeAfterStmt(stmt, scope), Ast.EvalStmt(c.m, stmt, env, fuel),
      Leaks.LeaksStmt(c.m, stmt, env, fuel), fuel, store, lost, n, d)
    decreases fuel, stmt, 1
  {
    hide *;
    if stmt.Let? {
      n, d := LetRuns(c, s, stmt, scope, env, store, lost, fuel);
    } else {
      n, d := ExprStmtRuns(c, s, stmt, scope, env, store, lost, fuel);
    }
  }

  lemma {:induction false} LetRuns(c: Context, s: State, stmt: Ast.Stmt, scope: Ast.Scope, env: Ast.Env,
      store: Store, lost: bool, fuel: nat)
    returns (n: nat, d: Config)
    requires StmtReady(c, s, stmt, scope, env, store) && stmt.Let?
    ensures StmtsRan(c, s, LowerStmt(s, stmt), Ast.ScopeAfterStmt(stmt, scope), Ast.EvalStmt(c.m, stmt, env, fuel),
      Leaks.LeaksStmt(c.m, stmt, env, fuel), fuel, store, lost, n, d)
    decreases fuel, stmt, 0
  {
    hide *;
    LetParts(c, s, stmt, scope, env, store);
    n, d := ExprRuns(c, s, stmt.init, scope, env, store, lost, fuel);
    n, d := LetArrives(c, s, stmt, scope, env, fuel, store, lost, n, d);
  }

  lemma {:induction false} ExprStmtRuns(c: Context, s: State, stmt: Ast.Stmt, scope: Ast.Scope, env: Ast.Env,
      store: Store, lost: bool, fuel: nat)
    returns (n: nat, d: Config)
    requires StmtReady(c, s, stmt, scope, env, store) && stmt.ExprStmt?
    ensures StmtsRan(c, s, LowerStmt(s, stmt), Ast.ScopeAfterStmt(stmt, scope), Ast.EvalStmt(c.m, stmt, env, fuel),
      Leaks.LeaksStmt(c.m, stmt, env, fuel), fuel, store, lost, n, d)
    decreases fuel, stmt, 0
  {
    hide *;
    ExprStmtParts(c, s, stmt, scope, env, store);
    n, d := VarRuns(c, s, stmt.e, Ast.TypeOf(stmt.e), scope, env, store, lost, fuel);
    n, d := ExprStmtArrives(c, s, stmt, scope, env, fuel, store, lost, n, d);
  }

  lemma {:induction false} BlockRuns(c: Context, s: State, b: Ast.Block, scope: Ast.Scope, env: Ast.Env,
      store: Store, lost: bool, fuel: nat)
    returns (n: nat, d: Config)
    requires BlockReady(c, s, b, scope, env, store)
    ensures BlockRan(c, s, b, scope, Ast.EvalBlock(c.m, b, env, fuel), Leaks.LeaksBlock(c.m, b, env, fuel),
      fuel, store, lost, n, d)
    decreases fuel, b, 1
  {
    hide *;
    var s1 := LowerStmts(PushFrame(s), b.stmts);
    BlockStart(c, s, b, scope, env, store);
    n, d := StmtsRuns(c, PushFrame(s), b.stmts, scope, env, store, lost, fuel);
    var o := Ast.EvalStmts(c.m, b.stmts, env, fuel);
    if o.Normal? {
      BlockNext(c, s, b, scope, env, fuel, store, lost, n, d);
      var k, f := BlockLastRuns(c, s1, b, Ast.ScopeAfter(b.stmts, scope), o.env, d.store, d.lost, fuel);
      n, d := BlockArrives(c, s, b, scope, env, fuel, store, lost, n, d, k, f);
    } else {
      BlockStops(c, s, b, scope, env, fuel, store, lost, n, d);
    }
  }

  lemma {:induction false} BlockLastRuns(c: Context, s1: State, b: Ast.Block, inner: Ast.Scope, env: Ast.Env,
      store: Store, lost: bool, fuel: nat)
    returns (n: nat, d: Config)
    requires LastReady(c, s1, b, inner, env, store)
    ensures VarRan(c, s1, BlockFinal(s1, b), b.ty, inner, BlockLast(c.m, b, env, fuel), LastLeaks(c.m, b, env, fuel),
      fuel, store, lost, n, d)
    decreases fuel, b, 0
  {
    hide *;
    if b.last.Some? {
      LastParts(c, s1, b, inner, env, store, fuel);
      n, d := VarRuns(c, s1, b.last.value, b.ty, inner, env, store, lost, fuel);
    } else {
      n, d := NoLastRuns(c, s1, b, inner, env, store, lost, fuel);
    }
  }

  lemma {:induction false} OperandRuns(c: Context, t: State, tmp: Var, operand: Ast.Expr, scope: Ast.Scope,
      env: Ast.Env, store: Store, lost: bool, fuel: nat)
    returns (n: nat, d: Config)
    requires OperandReady(c, t, tmp, operand, scope, env, store)
    ensures OperandRan(c, t, LowerOperand(t, Place(tmp, Bool), operand), tmp, scope,
      Ast.Needed(Ast.Eval(c.m, operand, env, fuel)), Leaks.Leaks(c.m, operand, env, fuel), fuel, store, lost, n, d)
    decreases fuel, operand, 3
  {
    hide *;
    OperandParts(c, t, tmp, operand, scope, env, store);
    n, d := ExprRuns(c, PushFrame(t), operand, scope, env, store, lost, fuel);
    n, d := OperandArrives(c, t, tmp, operand, scope, env, fuel, store, lost, n, d);
  }

  lemma {:induction false} ShortcircuitRuns(c: Context, s: State, e: Ast.Expr, otherIf: nat, scope: Ast.Scope,
      env: Ast.Env, store: Store, lost: bool, fuel: nat)
    returns (n: nat, d: Config)
    requires ExprReady(c, s, e, scope, env, store) && Shortcircuits(e, otherIf)
    ensures ExprRan(c, s, e, scope, Ast.Eval(c.m, e, env, fuel), Leaks.Leaks(c.m, e, env, fuel),
      fuel, store, lost, n, d)
    decreases fuel, e, 0
  {
    hide *;
    ShortcircuitStart(c, s, e, otherIf, scope, env, store);
    var g := OperandStages(s, e, otherIf);
    n, d := OperandRuns(c, g.start, Tmp(s.tmpIndex), e.left, scope, env, store, lost, fuel);
    var o := Ast.Needed(Ast.Eval(c.m, e.left, env, fuel));
    if o.Normal? && SwitchKey(o.val) == otherIf {
      ShortcircuitNext(c, s, e, otherIf, scope, env, fuel, store, lost, n, d);
      var k, f := OperandRuns(c, g.second, Tmp(s.tmpIndex), e.right, scope, o.env, d.store, d.lost, fuel);
      n, d := SecondArrives(c, s, e, otherIf, scope, env, fuel, store, lost, n, d, k, f);
    } else {
      n, d := FirstArrives(c, s, e, otherIf, scope, env, fuel, store, lost, n, d);
    }
  }

  lemma {:induction false} BranchRuns(c: Context, x: State, start: State, b: Ast.Block, u: State,
      res: Var, ty: Ty, cont: Label,
                                      scope: Ast.Scope, env: Ast.Env, store: Store, lost: bool, fuel: nat)
    returns (n: nat, d: Config, base: Store)
    requires BranchReady(c, x, start, b, u, res, ty, cont, scope, env, store)
    ensures BranchRan(c, x, start, res, ty, cont, scope, Ast.Expecting(Ast.EvalBlock(c.m, b, env, fuel), b.ty, ty),
      Leaks.LeaksBlock(c.m, b, env, fuel), fuel, store, lost, n, d, base)
    decreases fuel, b, 2
  {
    hide *;
    BranchStart(c, x, start, b, u, res, ty, cont, scope, env, store);
    n, d := BlockRuns(c, start, b, scope, env, store, lost, fuel);
    n, d, base := BranchStores(c, x, start, b, u, res, ty, cont, scope, env, fuel, store, lost, n, d);
  }

  lemma {:induction false} IfElseRuns(c: Context, s: State, e: Ast.Expr, scope: Ast.Scope, env: Ast.Env,
      store: Store, lost: bool, fuel: nat)
    returns (n: nat, d: Config)
    requires ExprReady(c, s, e, scope, env, store) && e.IfElse?
    ensures ExprRan(c, s, e, scope, Ast.Eval(c.m, e, env, fuel), Leaks.Leaks(c.m, e, env, fuel),
      fuel, store, lost, n, d)
    decreases fuel, e, 0
  {
    hide *;
    IfElseStart(c, s, e, scope, env, store);
    n, d := VarRuns(c, s, e.condition, Bool, scope, env, store, lost, fuel);
    var o := Ast.Needed(Ast.Eval(c.m, e.condition, env, fuel));
    var g := BranchStages(s, e);
    if o.Normal? && SwitchKey(o.val) == 1 {
      ThenNext(c, s, e, scope, env, fuel, store, lost, n, d);
      var k, f, base := BranchRuns(c, g.x.s, g.start, e.thenBlock, g.res.s, g.res.x, e.ty, g.l.cont, scope,
        o.env, d.store, d.lost, fuel);
      n, d := BranchArrives(c, s, e, g.start, scope, env, fuel, store, lost, n, d, k, f, base);
    } else if o.Normal? && e.elseBlock.Some? {
      ElseNext(c, s, e, scope, env, fuel, store, lost, n, d);
      var u := LowerBlock(g.second, e.elseBlock.value).s;
      var k, f, base := BranchRuns(c, g.x.s, g.second, e.elseBlock.value, u, g.res.x, e.ty, g.l.cont, scope,
        o.env, d.store, d.lost, fuel);
      n, d := BranchArrives(c, s, e, g.second, scope, env, fuel, store, lost, n, d, k, f, base);
    } else {
      n, d := NoBranchArrives(c, s, e, scope, env, fuel, store, lost, n, d);
    }
  }

  lemma {:induction false} WhileRuns(c: Context, s: State, e: Ast.Expr, scope: Ast.Scope, env: Ast.Env,
      store: Store, lost: bool, fuel: nat)
    returns (n: nat, d: Config)
    requires ExprReady(c, s, e, scope, env, store) && e.While?
    ensures ExprRan(c, s, e, scope, Ast.Eval(c.m, e, env, fuel), Leaks.Leaks(c.m, e, env, fuel),
      fuel, store, lost, n, d)
    decreases fuel, e, 1
  {
    hide *;
    WhileStart(c, s, e, scope, env, store, lost);
    n, d := LoopRuns(c, s, e, scope, env, store, lost, fuel);
    n := WhileArrives(c, s, e, scope, env, fuel, store, lost, n, d);
  }

  lemma {:induction false} LoopRuns(c: Context, s: State, e: Ast.Expr, scope: Ast.Scope, env: Ast.Env,
      store: Store, lost: bool, fuel: nat)
    returns (n: nat, d: Config)
    requires LoopReady(c, s, e, scope) && e.While? && Fit(c, LoopStages(s, e).head, scope, env, store)
    ensures LoopRan(c, LoopStages(s, e).head, s.tmpIndex, LowerWhile(s, e).s, scope, Ast.Eval(c.m, e, env, fuel),
      Leaks.Leaks(c.m, e, env, fuel), fuel, store, lost, n, d)
    decreases fuel, e, 0
  {
    hide *;
    if fuel == 0 {
      n, d := LoopTimesOut(c, s, e, scope, env, store, lost, fuel);
    } else {
      LoopStart(c, s, e, scope, env, store);
      n, d := VarRuns(c, LoopStages(s, e).head, e.condition, Bool, scope, env, store, lost, fuel);
      var o := Ast.Needed(Ast.Eval(c.m, e.condition, env, fuel));
      if o.Normal? && SwitchKey(o.val) == 1 {
        LoopNext(c, s, e, scope, env, fuel, store, lost, n, d);
        var k, f := IterationRuns(c, s, e, scope, o.env, d.store, d.lost, fuel);
        n, d := LoopArrives(c, s, e, scope, env, fuel, store, lost, n, d, k, f);
      } else {
        n, d := LoopLeaves(c, s, e, scope, env, fuel, store, lost, n, d);
      }
    }
  }

  /** One pass through the body of a loop, and the loop again. */
  lemma {:induction false} IterationRuns(c: Context, s: State, e: Ast.Expr, scope: Ast.Scope, env: Ast.Env,
      store: Store, lost: bool, fuel: nat)
    returns (n: nat, d: Config)
    requires LoopReady(c, s, e, scope) && e.While? && fuel > 0 && Fit(c, LoopStages(s, e).body, scope, env, store)
    ensures LoopRan(c, LoopStages(s, e).body, s.tmpIndex, LowerWhile(s, e).s, scope, Iterated(c, e, env, fuel),
      Leaks.LeaksIteration(c.m, e, env, fuel), fuel, store, lost, n, d)
    decreases fuel, e.body, 2
  {
    hide *;
    BodyStart(c, s, e, scope, env, store);
    n, d := BlockRuns(c, LoopStages(s, e).body, e.body, scope, env, store, lost, fuel);
    var p := Ast.EvalBlock(c.m, e.body, env, fuel);
    if p.Normal? {
      BodyNext(c, s, e, scope, env, fuel, store, lost, n, d);
      var k, f := LoopRuns(c, s, e, scope, p.env, d.store, d.lost, fuel - 1);
      n, d := IterationArrives(c, s, e, scope, env, fuel, store, lost, n, d, k, f);
    } else {
      BodyStops(c, s, e, scope, env, fuel, store, lost, n, d);
    }
  }
}

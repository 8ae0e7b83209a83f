/** What the simulation lemmas of all constructs share. */
module LoweringGlue {
  import opened Collections
  import opened Mir
  import opened Lowering
  import opened LoweringShape
  import opened LoweringStages
  import opened LoweringSim
  import Ast
  import Leaks

  ghost predicate StmtsRan(c: Context, s: State, t: State, scope: Ast.Scope, o: Ast.Outcome, leaks: bool, fuel: nat,
                           store: Store, lost: bool, n: nat, d: Config)
  {
    && Runs(c, At(s, store, lost), n, d)
    && if o.Normal? then
         && d.Running? && d == At(t, d.store, d.lost)
         && Fit(c, t, scope, o.env, d.store)
         && TmpsKept(s.tmpIndex, store, d.store)
         && Tracked(c, DropsAt(c, s, store, lost), DropsAt(c, t, d.store, d.lost), leaks)
       else Broken(c, o, leaks, fuel, DropsAt(c, s, store, lost), n, d)
  }

  lemma {:induction false} SameDrops(c: Context, s: State, t: State, store: Store, lost: bool)
    requires Live(s.frames) == Live(t.frames)
    ensures DropsAt(c, s, store, lost) == DropsAt(c, t, store, lost)
  {
  }

  lemma {:induction false} KeptSelf(k: nat, store: Store)
    ensures TmpsKept(k, store, store)
  {
  }

  lemma {:induction false} FitParts(c: Context, s: State, scope: Ast.Scope, env: Ast.Env, store: Store)
    requires Fit(c, s, scope, env, store)
    ensures Valid(s) && s.returnType == c.m.returnType && Ast.EnvFits(env, scope) && s.blocks != [] && s.frames != []
    ensures ScopeFits(scope, Live(s.frames))
  {
  }

  /** An expression that completed has the type its context expects. */
  lemma {:induction false} CompletedFits(c: Context, e: Ast.Expr, ty: Ty, scope: Ast.Scope, env: Ast.Env, fuel: nat)
    requires Ast.Fits(c.m, e, ty) && Ast.Typed(c.m, e, scope) && Ast.EnvFits(env, scope)
    ensures var o := Ast.Eval(c.m, e, env, fuel);
      Ast.Completes(o) ==>
        Ast.TypeOf(e) == ty && (ty.Unit? ==> o.Normal? && o.val == UnitVal) && Ast.EnvFits(o.env, scope)
  {
    Ast.UnitSound(c.m, e, scope, env, fuel);
  }

  lemma {:induction false} CompletedBlockFits(c: Context, b: Ast.Block, ty: Ty,
      scope: Ast.Scope, env: Ast.Env, fuel: nat)
    requires Ast.BlockFits(c.m, b, ty) && Ast.TypedBlock(c.m, b, scope) && Ast.EnvFits(env, scope)
    ensures var o := Ast.EvalBlock(c.m, b, env, fuel);
      Ast.Completes(o) ==> b.ty == ty && (ty.Unit? ==> o.Normal? && o.val == UnitVal) && Ast.EnvFits(o.env, scope)
  {
    Ast.UnitSoundBlock(c.m, b, scope, env, fuel);
  }

  ghost predicate VarReady(c: Context, s: State, e: Ast.Expr, ty: Ty, scope: Ast.Scope, env: Ast.Env, store: Store) {
    && Ready(c, s, scope, env, store)
    && Ast.Typed(c.m, e, scope) && Ast.Fits(c.m, e, ty)
    && Sub(c, LowerToVar(s, e, ty).s) && HeadsOf(s, e) <= c.heads
  }

  /** A run that got stuck where a value was asked for. */
  lemma {:induction false} StuckRan(c: Context, s: State, e: Ast.Expr, scope: Ast.Scope, leaks: bool, fuel: nat,
      store: Store, lost: bool, n: nat)
    requires Runs(c, At(s, store, lost), n, Stuck)
    ensures ExprRan(c, s, e, scope, Ast.Slipped, leaks, fuel, store, lost, n, Stuck)
  {
    hide Runs, LowerExpr, At, Arrived, ArrivedVoid, DropsAt;
  }

  /** What is known where a value is pending. */
  lemma {:induction false} ValueArrived(c: Context, s: State, e: Ast.Expr, scope: Ast.Scope, o: Ast.Outcome,
      leaks: bool, fuel: nat, store: Store, lost: bool, n: nat, d: Config)
    requires o.Normal? && ExprRan(c, s, e, scope, o, leaks, fuel, store, lost, n, d)
    ensures d.Running? && Runs(c, At(s, store, lost), n, d)
      && Arrived(c, s, LowerExpr(s, e), Ast.TypeOf(e), scope, o.env, o.val, leaks, store, lost, d)
  {
    hide Fit, Runs, At, LowerExpr, Added, Tracked, TmpsKept, DropsAt, Yields;
  }

  /** An expression stops where a part of it has stopped. */
  lemma {:induction false} StoppedRan(c: Context, s: State, e: Ast.Expr, whole: Ast.Expr, scope: Ast.Scope,
      o: Ast.Outcome, leaks: bool, fuel: nat, store: Store, lost: bool, n: nat, d: Config)
    requires !o.Normal? && !o.Void? && ExprRan(c, s, e, scope, o, leaks, fuel, store, lost, n, d)
    ensures ExprRan(c, s, whole, scope, o, leaks, fuel, store, lost, n, d)
    ensures Runs(c, At(s, store, lost), n, d) && Broken(c, o, leaks, fuel, DropsAt(c, s, store, lost), n, d)
  {
    hide Runs, At, LowerExpr, Arrived, ArrivedVoid, DropsAt, Broken;
  }

  /** What is known where a value is missing. */
  lemma {:induction false} VoidArrived(c: Context, s: State, e: Ast.Expr, scope: Ast.Scope, o: Ast.Outcome,
      leaks: bool, fuel: nat, store: Store, lost: bool, n: nat, d: Config)
    requires o.Void? && ExprRan(c, s, e, scope, o, leaks, fuel, store, lost, n, d)
    ensures d.Running? && Runs(c, At(s, store, lost), n, At(LowerExpr(s, e).s, d.store, d.lost))
      && d == At(LowerExpr(s, e).s, d.store, d.lost)
    ensures Fit(c, LowerExpr(s, e).s, scope, o.env, d.store)
      && EvalValue(c.m, LowerExpr(s, e).v, Ast.TypeOf(e), d.store).None?
    ensures LowerExpr(s, e).v.Move? ==> (LowerExpr(s, e).v.source, Unit) in Added(s, LowerExpr(s, e).s)
  {
    hide Fit, Runs, At, LowerExpr, Added, Tracked, TmpsKept, DropsAt;
  }

  lemma {:induction false} FitsItself(c: Context, e: Ast.Expr)
    ensures Ast.Fits(c.m, e, Ast.TypeOf(e))
  {
  }

  lemma {:induction false} SubLowered(c: Context, s: State, t: State)
    requires Sub(c, t) && Lowers(s, t, {}, {})
    ensures Sub(c, s)
  {
    SubGrown(c, s, t);
  }

  ghost predicate StmtsReady(c: Context, s: State, stmts: seq<Ast.Stmt>, scope: Ast.Scope, env: Ast.Env, store: Store) {
    && Ready(c, s, scope, env, store)
    && Ast.TypedStmts(c.m, stmts, scope)
    && Sub(c, LowerStmts(s, stmts)) && HeadsOfStmts(s, stmts) <= c.heads
  }

  ghost predicate StmtReady(c: Context, s: State, stmt: Ast.Stmt, scope: Ast.Scope, env: Ast.Env, store: Store) {
    && Ready(c, s, scope, env, store)
    && Ast.TypedStmt(c.m, stmt, scope)
    && Sub(c, LowerStmt(s, stmt)) && HeadsOfStmt(s, stmt) <= c.heads
  }

  lemma {:induction false} AddedIsNew(s: State, t: State, x: Var, ty: Ty)
    requires Lowers(s, t, {}, {}) && x.Tmp? && (x, ty) in Added(s, t)
    ensures s.tmpIndex <= x.index < t.tmpIndex
  {
  }

  lemma {:induction false} EmitDropsStart(c: Context, s: State, frame: Frame)
    requires Sub(c, EmitDrops(s, frame)) && s.blocks != []
    ensures Sub(c, s)
    decreases |frame|
  {
    hide Sub;
    if frame != [] {
      var last := frame[|frame| - 1];
      EmitDropsStart(c, Emit(s, Drop(Place(last.0, last.1), last.1)), frame[..|frame| - 1]);
      SubEmit(c, s, Drop(Place(last.0, last.1), last.1));
    }
  }

  lemma {:induction false} FitLive(c: Context, s: State, t: State, scope: Ast.Scope, env: Ast.Env, store: Store)
    requires Fit(c, s, scope, env, store) && Valid(t) && Live(t.frames) == Live(s.frames)
      && t.returnType == s.returnType
    ensures Fit(c, t, scope, env, store)
  {
  }

  lemma {:induction false} UnitReads(store: Store, x: Var)
    ensures Read(store, x, Unit) == Some(UnitVal) && Take(store, x, Unit) == store
  {
  }

  lemma {:induction false} TmpsKeptBelow(k: nat, l: nat, store: Store, later: Store)
    requires TmpsKept(l, store, later) && k <= l
    ensures TmpsKept(k, store, later)
  {
  }

  lemma {:induction false} ValidParts(s: State)
    requires Valid(s)
    ensures s.blocks != [] && s.frames != []
  {
  }

  /** A block whose type differs from the type expected of it and that
      completes all the same has the unit type. */
  lemma {:induction false} OnlyUnitSlips(c: Context, b: Ast.Block, ty: Ty, scope: Ast.Scope, env: Ast.Env, fuel: nat)
    requires Ast.TypedBlock(c.m, b, scope) && (Ast.BlockFits(c.m, b, ty) || Ast.Slippery(b, ty))
    requires Ast.EvalBlock(c.m, b, env, fuel).Normal? && b.ty != ty
    ensures b.ty == Unit != ty
  {
  }
}

/** Single steps of the simulation of statements. */
module LoweringStmts {
  import opened Collections
  import opened Mir
  import opened Lowering
  import opened LoweringShape
  import opened LoweringStages
  import opened LoweringSim
  import opened LoweringGlue
  import Ast
  import Leaks

  lemma {:induction false} NoStmtsRun(c: Context, s: State, stmts: seq<Ast.Stmt>, scope: Ast.Scope, env: Ast.Env,
      store: Store, lost: bool, fuel: nat)
    returns (n: nat, d: Config)
    requires StmtsReady(c, s, stmts, scope, env, store) && stmts == []
    ensures StmtsRan(c, s, LowerStmts(s, stmts), Ast.ScopeAfter(stmts, scope), Ast.EvalStmts(c.m, stmts, env, fuel),
      Leaks.LeaksStmts(c.m, stmts, env, fuel), fuel, store, lost, n, d)
  {
    hide Lowers, Grows, FramesGrow, FramesValid, CodeValid, Added, Within, Runs, ScopeFits, StoreFits, Tracked, Stale,
      Sub, VarsDistinct, Owned, Live, TmpsKept;
    hide Fit, DropsAt;
    FitParts(c, s, scope, env, store);
    n, d := 0, At(s, store, lost);
    RunsSelf(c, d);
    KeptSelf(s.tmpIndex, store);
    TrackedSame(c, DropsAt(c, s, store, lost));
  }

  lemma {:induction false} StmtsStart(c: Context, s: State, stmts: seq<Ast.Stmt>, scope: Ast.Scope,
      env: Ast.Env, store: Store)
    requires StmtsReady(c, s, stmts, scope, env, store) && stmts != []
    ensures StmtReady(c, s, stmts[0], scope, env, store) && Sub(c, LowerStmts(LowerStmt(s, stmts[0]), stmts[1..]))
    ensures Ast.TypedStmts(c.m, stmts[1..], Ast.ScopeAfterStmt(stmts[0], scope)) && Valid(LowerStmt(s, stmts[0]))
  {
    hide Lowers, Grows, FramesGrow, FramesValid, CodeValid, Sub, Fit, LowerStmt, ContextOk, Ast.TypedStmt;
    FitParts(c, s, scope, env, store);
    var t := LowerStmt(s, stmts[0]);
    StmtLowers(s, stmts[0]);
    StmtsLower(t, stmts[1..]);
    SubLowered(c, t, LowerStmts(t, stmts[1..]));
  }

  lemma {:induction false} StmtsNext(c: Context, s: State, stmts: seq<Ast.Stmt>, scope: Ast.Scope, env: Ast.Env,
      fuel: nat, store: Store, lost: bool, n: nat, d: Config)
    requires StmtsReady(c, s, stmts, scope, env, store) && stmts != [] && Ast.EvalStmt(c.m, stmts[0], env, fuel).Normal?
    requires StmtsRan(c, s, LowerStmt(s, stmts[0]), Ast.ScopeAfterStmt(stmts[0], scope),
      Ast.EvalStmt(c.m, stmts[0], env, fuel), Leaks.LeaksStmt(c.m, stmts[0], env, fuel), fuel, store, lost, n, d)
    ensures d.Running?
    ensures StmtsReady(c, LowerStmt(s, stmts[0]), stmts[1..], Ast.ScopeAfterStmt(stmts[0], scope),
      Ast.EvalStmt(c.m, stmts[0], env, fuel).env, d.store)
  {
    hide Runs, Tracked, TmpsKept, Sub, Fit, LowerStmt, LowerStmts, ContextOk, DropsAt, At, Ast.TypedStmts,
      Ast.EvalStmt, Leaks.LeaksStmt;
    StmtsStart(c, s, stmts, scope, env, store);
  }

  lemma {:induction false} StmtsStop(c: Context, s: State, stmts: seq<Ast.Stmt>, scope: Ast.Scope, env: Ast.Env,
      fuel: nat, store: Store, lost: bool, n: nat, d: Config)
    requires StmtsReady(c, s, stmts, scope, env, store) && stmts != []
      && !Ast.EvalStmt(c.m, stmts[0], env, fuel).Normal?
    requires StmtsRan(c, s, LowerStmt(s, stmts[0]), Ast.ScopeAfterStmt(stmts[0], scope),
      Ast.EvalStmt(c.m, stmts[0], env, fuel), Leaks.LeaksStmt(c.m, stmts[0], env, fuel), fuel, store, lost, n, d)
    ensures StmtsRan(c, s, LowerStmts(s, stmts), Ast.ScopeAfter(stmts, scope), Ast.EvalStmts(c.m, stmts, env, fuel),
      Leaks.LeaksStmts(c.m, stmts, env, fuel), fuel, store, lost, n, d)
  {
    hide Runs, Tracked, TmpsKept, Sub, Fit, LowerStmt, LowerStmts, ContextOk, DropsAt, At, Broken, StmtsReady,
      Ast.EvalStmt, Leaks.LeaksStmt;
  }

  lemma {:induction false} StmtsArrive(c: Context, s: State, stmts: seq<Ast.Stmt>, scope: Ast.Scope, env: Ast.Env,
      fuel: nat, store: Store, lost: bool, n: nat, d: Config, k: nat, f: Config)
    returns (m: nat, g: Config)
    requires StmtsReady(c, s, stmts, scope, env, store) && stmts != []
      && Ast.EvalStmt(c.m, stmts[0], env, fuel).Normal? && d.Running?
    requires StmtsRan(c, s, LowerStmt(s, stmts[0]), Ast.ScopeAfterStmt(stmts[0], scope),
      Ast.EvalStmt(c.m, stmts[0], env, fuel), Leaks.LeaksStmt(c.m, stmts[0], env, fuel), fuel, store, lost, n, d)
    requires var t := LowerStmt(s, stmts[0]);
      var after := Ast.ScopeAfterStmt(stmts[0], scope);
      var inner := Ast.EvalStmt(c.m, stmts[0], env, fuel).env;
      StmtsRan(c, t, LowerStmts(t, stmts[1..]), Ast.ScopeAfter(stmts[1..], after),
        Ast.EvalStmts(c.m, stmts[1..], inner, fuel),
        Leaks.LeaksStmts(c.m, stmts[1..], inner, fuel), fuel, d.store, d.lost, k, f)
    ensures StmtsRan(c, s, LowerStmts(s, stmts), Ast.ScopeAfter(stmts, scope), Ast.EvalStmts(c.m, stmts, env, fuel),
      Leaks.LeaksStmts(c.m, stmts, env, fuel), fuel, store, lost, m, g)
  {
    hide Lowers, Grows, FramesGrow, FramesValid, CodeValid, Added, Within, Runs, ScopeFits, StoreFits, Tracked, Stale,
      Sub, VarsDistinct, Owned, Live, TmpsKept;
    hide Fit, LowerStmt, Ast.EvalStmt, Ast.TypedStmt, Leaks.LeaksStmt, Broken, DropsAt, ContextOk;
    FitParts(c, s, scope, env, store);
    var t := LowerStmt(s, stmts[0]);
    StmtLowers(s, stmts[0]);
    GrowsTmps(s, t);
    RunsJoin(c, At(s, store, lost), n, d, k, f);
    m, g := n + k, f;
    var o := Ast.EvalStmt(c.m, stmts[0], env, fuel);
    var p := Ast.EvalStmts(c.m, stmts[1..], o.env, fuel);
    var leaks, more := Leaks.LeaksStmt(c.m, stmts[0], env, fuel), Leaks.LeaksStmts(c.m, stmts[1..], o.env, fuel);
    if p.Normal? {
      TmpsKeptJoin(s.tmpIndex, t.tmpIndex, store, d.store, f.store);
      TrackedJoin(c, DropsAt(c, s, store, lost), DropsAt(c, t, d.store, d.lost),
        DropsAt(c, LowerStmts(t, stmts[1..]), f.store, f.lost), leaks, more);
    } else {
      BrokenLater(c, p, leaks, more, fuel, DropsAt(c, s, store, lost), DropsAt(c, t, d.store, d.lost), k, n, f);
    }
  }

  lemma {:induction false} LetParts(c: Context, s: State, stmt: Ast.Stmt, scope: Ast.Scope, env: Ast.Env, store: Store)
    requires StmtReady(c, s, stmt, scope, env, store) && stmt.Let?
    ensures ExprReady(c, s, stmt.init, scope, env, store) && Ast.Fits(c.m, stmt.init, stmt.ty) && stmt.x !in scope
    ensures Sub(c, LetStore(LowerExpr(s, stmt.init).s, stmt.x, stmt.ty, LowerExpr(s, stmt.init).v))
  {
    hide Lowers, Grows, FramesGrow, FramesValid, CodeValid, Sub, Fit, DoAssign, AddLive, LowerExpr,
      ContextOk, Ast.Fits, Ast.Typed;
    FitParts(c, s, scope, env, store);
    ExprLowers(s, stmt.init);
    var r := LowerExpr(s, stmt.init);
    GrowsTmps(s, r.s);
    LetStart(c, r.s, stmt.x, stmt.ty, r.v);
  }

  lemma {:induction false} LetArrives(c: Context, s: State, stmt: Ast.Stmt, scope: Ast.Scope, env: Ast.Env, fuel: nat,
      store: Store, lost: bool, n: nat, d: Config)
    returns (m: nat, f: Config)
    requires StmtReady(c, s, stmt, scope, env, store) && stmt.Let?
    requires ExprRan(c, s, stmt.init, scope, Ast.Eval(c.m, stmt.init, env, fuel),
      Leaks.Leaks(c.m, stmt.init, env, fuel), fuel, store, lost, n, d)
    ensures StmtsRan(c, s, LowerStmt(s, stmt), Ast.ScopeAfterStmt(stmt, scope), Ast.EvalStmt(c.m, stmt, env, fuel),
      Leaks.LeaksStmt(c.m, stmt, env, fuel), fuel, store, lost, m, f)
  {
    hide Lowers, Grows, FramesGrow, FramesValid, CodeValid, Added, Within, Runs, ScopeFits, StoreFits, Tracked, Stale,
      Sub, VarsDistinct, Owned, Live, TmpsKept;
    hide Fit, LowerExpr, Yields, LetStore, Broken, DropsAt, ContextOk, Ast.Fits, Ast.Typed, Valid,
      ValueOk, Ast.Eval, Leaks.Leaks, ExprRan, StmtReady;
    var init := stmt.init;
    LetLowersTo(s, stmt);
    ReadyStmt(c, s, stmt, scope, env, store);
    LetParts(c, s, stmt, scope, env, store);
    FitParts(c, s, scope, env, store);
    ExprLowers(s, init);
    var r := LowerExpr(s, init);
    GrowsTmps(s, r.s);
    m, f := n, d;
    var o := Ast.Eval(c.m, init, env, fuel);
    if o.Normal? {
      ValueArrived(c, s, init, scope, o, Leaks.Leaks(c.m, init, env, fuel), fuel, store, lost, n, d);
      CompletedFits(c, init, stmt.ty, scope, env, fuel);
      var later, gone := LetStoreRuns(c, s, r.s, stmt.x, stmt.ty, r.v, scope, o.env, d.store, d.lost, o.val);
      f := At(LowerStmt(s, stmt), later, gone);
      RunsJoin(c, At(s, store, lost), n, d, 1, f);
      TmpsKeptJoin(s.tmpIndex, s.tmpIndex, store, d.store, later);
      TrackedJoin(c, DropsAt(c, s, store, lost), DropsAt(c, r.s, d.store, d.lost),
        DropsAt(c, LowerStmt(s, stmt), later, gone),
        Leaks.Leaks(c.m, init, env, fuel), false);
      m := n + 1;
    } else if o.Void? {
      LetVoid(c, s, stmt, scope, env, fuel, store, lost, n, d);
      m, f := n + 1, Stuck;
    } else {
      StoppedRan(c, s, init, init, scope, o, Leaks.Leaks(c.m, init, env, fuel), fuel, store, lost, n, d);
    }
  }

  lemma {:induction false} LetLowersTo(s: State, stmt: Ast.Stmt)
    requires stmt.Let?
    ensures LowerStmt(s, stmt) == LetStore(LowerExpr(s, stmt.init).s, stmt.x, stmt.ty, LowerExpr(s, stmt.init).v)
  {
    hide LowerExpr, DoAssign, AddLive;
  }

  lemma {:induction false} ReadyStmt(c: Context, s: State, stmt: Ast.Stmt, scope: Ast.Scope, env: Ast.Env,
      store: Store)
    requires StmtReady(c, s, stmt, scope, env, store)
    ensures Ready(c, s, scope, env, store) && Ast.TypedStmt(c.m, stmt, scope)
  {
    hide Ready, Ast.TypedStmt, LowerStmt, Sub, HeadsOfStmt;
  }

  lemma {:induction false} LetVoid(c: Context, s: State, stmt: Ast.Stmt, scope: Ast.Scope, env: Ast.Env, fuel: nat,
      store: Store, lost: bool, n: nat, d: Config)
    requires StmtReady(c, s, stmt, scope, env, store) && stmt.Let? && Ast.Eval(c.m, stmt.init, env, fuel).Void?
    requires ExprRan(c, s, stmt.init, scope, Ast.Eval(c.m, stmt.init, env, fuel),
      Leaks.Leaks(c.m, stmt.init, env, fuel), fuel, store, lost, n, d)
    ensures StmtsRan(c, s, LowerStmt(s, stmt), Ast.ScopeAfterStmt(stmt, scope), Ast.EvalStmt(c.m, stmt, env, fuel),
      Leaks.LeaksStmt(c.m, stmt, env, fuel), fuel, store, lost, n + 1, Stuck)
  {
    hide Lowers, Grows, FramesGrow, FramesValid, CodeValid, Added, Within, Runs, ScopeFits, StoreFits, Tracked, Stale,
      Sub, VarsDistinct, Owned, Live, TmpsKept;
    hide Fit, LowerExpr, DoAssign, AddLive, DropsAt, ContextOk, Ast.Fits, Ast.Typed, Valid, ValueOk, Ast.Eval,
      Leaks.Leaks, ExprRan, LetStore;
    var init := stmt.init;
    var o := Ast.Eval(c.m, init, env, fuel);
    VoidArrived(c, s, init, scope, o, Leaks.Leaks(c.m, init, env, fuel), fuel, store, lost, n, d);
    LetParts(c, s, stmt, scope, env, store);
    FitParts(c, s, scope, env, store);
    ExprLowers(s, init);
    var r := LowerExpr(s, init);
    GrowsTmps(s, r.s);
    CompletedFits(c, init, stmt.ty, scope, env, fuel);
    LetSticks(c, r.s, stmt.x, stmt.ty, r.v, d.store, d.lost);
    RunsJoin(c, At(s, store, lost), n, d, 1, Stuck);
  }

  lemma {:induction false} LetSticks(c: Context, t: State, x: Name, ty: Ty, v: Value, store: Store, lost: bool)
    requires ContextOk(c) && t.blocks != [] && t.frames != [] && Sub(c, LetStore(t, x, ty, v))
    requires EvalValue(c.m, v, ty, store).None?
    ensures Runs(c, At(t, store, lost), 1, Stuck)
  {
    hide Sub, Emit, ContextOk, Runs, LetStore;
    LetStart(c, t, x, ty, v);
    var a := AddLive(t, Explicit(x), ty);
    var w := if v.Move? then RemoveLive(a, v.source) else a;
    ValueSticks(c, t, w, Explicit(x), ty, v, store, lost);
  }

  lemma {:induction false} LetStart(c: Context, t: State, x: Name, ty: Ty, v: Value)
    requires Sub(c, LetStore(t, x, ty, v)) && t.blocks != [] && t.frames != []
    ensures Sub(c, t) && LetStore(t, x, ty, v).blocks != []
    ensures var a := AddLive(t, Explicit(x), ty);
      var w := if v.Move? then RemoveLive(a, v.source) else a;
      w.blocks == t.blocks && LetStore(t, x, ty, v) == EmitAssign(w, Place(Explicit(x), ty), ty, v)
  {
    hide Within;
    var a := AddLive(t, Explicit(x), ty);
    LiveAdd(t, Explicit(x), ty);
    var w := if v.Move? then RemoveLive(a, v.source) else a;
    if v.Move? {
      RemoveKeepsCode(a, v.source);
    }
    SubEmit(c, w, Instruction.Assign(Place(Explicit(x), ty), ty, v));
    SubBlocks(c, t, w);
  }

  /** let x = e, once e has been evaluated. */
  lemma {:induction false} LetStoreRuns(c: Context, s: State, t: State, x: Name, ty: Ty, v: Value, scope: Ast.Scope,
      env: Ast.Env, store: Store, lost: bool, val: Val)
    returns (later: Store, gone: bool)
    requires Ready(c, t, scope, env, store) && Valid(s) && Lowers(s, t, {}, {}) && ValueOk(s, t, v)
    requires x !in scope && Sub(c, LetStore(t, x, ty, v))
    requires Yields(c, v, ty, store, val) && (ty.Unit? ==> val == UnitVal)
    requires v.Move? ==> (v.source, ty) in Added(s, t)
    ensures var u := LetStore(t, x, ty, v);
      && u.blocks != []
      && Runs(c, At(t, store, lost), 1, At(u, later, gone))
      && Fit(c, u, scope[x := ty], env[x := val], later)
      && TmpsKept(s.tmpIndex, store, later)
      && Tracked(c, DropsAt(c, t, store, lost), DropsAt(c, u, later, gone), false)
  {
    hide Lowers, Grows, FramesGrow, FramesValid, CodeValid, Added, Within, Runs, ScopeFits, StoreFits, Tracked, Stale,
      Sub, VarsDistinct, Owned, Live, TmpsKept;
    hide LetStore, Yields, Valid, DropsAt;
    GrowsTmps(s, t);
    var u := LetStore(t, x, ty, v);
    var base := Spent(store, v, ty);
    var z := SpentFits(c, s, t, v, ty, scope, env, store);
    LetStart(c, t, x, ty, v);
    var a := AddLive(t, Explicit(x), ty);
    var w := if v.Move? then RemoveLive(a, v.source) else a;
    AssignRuns(c, w, Explicit(x), ty, v, store, lost, val);
    NamedIsNew(scope, Live(z.frames), x);
    later, gone := Stored(base, Explicit(x), ty, val), lost || (ty.Managed? && Explicit(x) in base);
    LetShape(s, t, z, x, ty, v);
    LetInVars(c, t, x, ty, v);
    TrackedTmp(c, z, u, base, lost, Explicit(x), ty, val);
    FitAddsName(c, z, u, scope, env, base, x, ty, val);
    SpentKeepsTmps(s, t, v, ty, store);
    StoredKeepsTmps(s.tmpIndex, store, base, Explicit(x), ty, val);
  }

  lemma {:induction false} LetInVars(c: Context, t: State, x: Name, ty: Ty, v: Value)
    requires Sub(c, LetStore(t, x, ty, v)) && t.frames != []
    ensures (Explicit(x), ty) in c.final.vars
  {
    var a := AddLive(t, Explicit(x), ty);
    LiveAdd(t, Explicit(x), ty);
    if v.Move? {
      RemoveKeepsCode(a, v.source);
    }
    SubVars(c, LetStore(t, x, ty, v), (Explicit(x), ty));
  }

  lemma {:induction false} LetShape(s: State, t: State, z: State, x: Name, ty: Ty, v: Value)
    requires Valid(s) && Lowers(s, t, {}, {}) && ValueOk(s, t, v)
    requires Live(z.frames) == Live(s.frames) + Consumed(Added(s, t), v)
    ensures var u := LetStore(t, x, ty, v);
      Valid(u) && u.returnType == t.returnType && Live(u.frames) == Live(z.frames) + [(Explicit(x), ty)]
  {
    hide Grows, FramesGrow, FramesValid, CodeValid, Added;
    var u := LetStore(t, x, ty, v);
    LetLowers(s, t, x, ty, v);
    LowersValid(s, u, {}, {});
    GrowsTmps(s, t);
    GrowsTmps(s, u);
  }

  lemma {:induction false} NamedIsNew(scope: Ast.Scope, live: Frame, x: Name)
    requires ScopeFits(scope, live) && x !in scope
    ensures forall i :: 0 <= i < |live| ==> live[i].0 != Explicit(x)
    ensures Explicit(x) !in Owned(live)
  {
    forall i | 0 <= i < |live|
      ensures live[i].0 != Explicit(x)
    {
      assert live[i] in live;
    }
  }

  /** A new variable in scope with its value. */
  lemma {:induction false} FitAddsName(c: Context, t: State, u: State, scope: Ast.Scope, env: Ast.Env,
      store: Store, x: Name, ty: Ty, val: Val)
    requires Fit(c, t, scope, env, store) && x !in scope
    requires Valid(u) && u.returnType == c.m.returnType && Live(u.frames) == Live(t.frames) + [(Explicit(x), ty)]
    requires ty.Unit? ==> val == UnitVal
    ensures Fit(c, u, scope[x := ty], env[x := val], Stored(store, Explicit(x), ty, val))
  {
    ScopeAddsName(scope, Live(t.frames), x, ty);
    OwnedSplit(Live(t.frames), [(Explicit(x), ty)]);
    OwnedOne(Explicit(x), ty);
    NamedIsNew(scope, Live(t.frames), x);
    StoreAddsName(c, store, env, scope, Owned(Live(t.frames)), x, ty, val);
  }

  lemma {:induction false} StoreAddsName(c: Context, store: Store, env: Ast.Env, scope: Ast.Scope,
      owned: set<Var>, x: Name, ty: Ty, val: Val)
    requires StoreFits(c, store, env, scope, owned) && x !in scope
    ensures StoreFits(c, Stored(store, Explicit(x), ty, val), env[x := val], scope[x := ty],
      owned + if ty.Unit? then {} else {Explicit(x)})
  {
  }

  lemma {:induction false} ScopeAddsName(scope: Ast.Scope, live: Frame, x: Name, ty: Ty)
    requires ScopeFits(scope, live) && x !in scope
    ensures ScopeFits(scope[x := ty], live + [(Explicit(x), ty)])
  {
    var e := (Explicit(x), ty);
    var more := live + [e];
    NamedIsNew(scope, live, x);
    assert more[|live|] == e;
    forall n | n in scope
      ensures (Explicit(n), scope[n]) in more
    {
      var i :| 0 <= i < |live| && live[i] == (Explicit(n), scope[n]);
      assert more[i] == live[i];
    }
  }

  lemma {:induction false} ExprStmtParts(c: Context, s: State, stmt: Ast.Stmt, scope: Ast.Scope,
      env: Ast.Env, store: Store)
    requires StmtReady(c, s, stmt, scope, env, store) && stmt.ExprStmt?
    ensures VarReady(c, s, stmt.e, Ast.TypeOf(stmt.e), scope, env, store)
  {
    hide Lowers, Grows, FramesGrow, FramesValid, CodeValid, Sub, Fit, LowerToVar, DropVar,
      ContextOk, Ast.Fits, Ast.Typed;
    var ty := Ast.TypeOf(stmt.e);
    FitParts(c, s, scope, env, store);
    ToVarLowers(s, stmt.e, ty);
    var x := LowerToVar(s, stmt.e, ty);
    GrowsTmps(s, x.s);
    DropVarStart(c, x.s, x.x);
    FitsItself(c, stmt.e);
  }

  lemma {:induction false} ExprStmtArrives(c: Context, s: State, stmt: Ast.Stmt, scope: Ast.Scope, env: Ast.Env,
      fuel: nat, store: Store, lost: bool, n: nat, d: Config)
    returns (m: nat, f: Config)
    requires StmtReady(c, s, stmt, scope, env, store) && stmt.ExprStmt?
    requires VarRan(c, s, LowerToVar(s, stmt.e, Ast.TypeOf(stmt.e)), Ast.TypeOf(stmt.e), scope,
      Ast.Held(stmt.e, Ast.Eval(c.m, stmt.e, env, fuel)), Leaks.Leaks(c.m, stmt.e, env, fuel), fuel, store, lost, n, d)
    ensures StmtsRan(c, s, LowerStmt(s, stmt), Ast.ScopeAfterStmt(stmt, scope), Ast.EvalStmt(c.m, stmt, env, fuel),
      Leaks.LeaksStmt(c.m, stmt, env, fuel), fuel, store, lost, m, f)
  {
    hide Lowers, Grows, FramesGrow, FramesValid, CodeValid, Added, Within, Runs, ScopeFits, StoreFits, Tracked, Stale,
      Sub, VarsDistinct, Owned, Live, TmpsKept;
    hide Fit, LowerToVar, DropVar, Take, Read, Broken, DropsAt, ContextOk, Ast.Typed, Valid, Ast.Eval, Leaks.Leaks;
    var e := stmt.e;
    var ty := Ast.TypeOf(e);
    FitParts(c, s, scope, env, store);
    ToVarLowers(s, e, ty);
    var x := LowerToVar(s, e, ty);
    GrowsTmps(s, x.s);
    m, f := n, d;
    var o := Ast.Held(e, Ast.Eval(c.m, e, env, fuel));
    if Ast.Completes(o) {
      var held := if o.Normal? then ty else Unit;
      DropVarRuns(c, s, x.s, x.x, held, scope, o.env, d.store, d.lost);
      var later := Take(d.store, x.x, held);
      f := At(DropVar(x.s, x.x), later, d.lost);
      RunsJoin(c, At(s, store, lost), n, d, 1, f);
      TmpsKeptJoin(s.tmpIndex, s.tmpIndex, store, d.store, later);
      m := n + 1;
    }
  }

  lemma {:induction false} DropVarStart(c: Context, t: State, x: Var)
    requires Sub(c, DropVar(t, x)) && t.blocks != []
    ensures Sub(c, t)
  {
    hide Within;
    var u := RemoveLive(t, x);
    RemoveKeepsCode(t, x);
    SubEmit(c, u, Drop(Place(x, LiveType(t, x)), LiveType(t, x)));
    SubBlocks(c, t, u);
  }

  lemma {:induction false} DropVarRuns(c: Context, s: State, t: State, x: Var, ty: Ty, scope: Ast.Scope,
      env: Ast.Env, store: Store, lost: bool)
    requires Ready(c, t, scope, env, store) && Valid(s) && Lowers(s, t, {}, {})
    requires x.Tmp? && (x, ty) in Added(s, t) && Sub(c, DropVar(t, x))
    ensures var u := DropVar(t, x);
      && u.blocks != []
      && Runs(c, At(t, store, lost), 1, At(u, Take(store, x, ty), lost))
      && Fit(c, u, scope, env, Take(store, x, ty)) && TmpsKept(s.tmpIndex, store, Take(store, x, ty))
      && DropsAt(c, u, Take(store, x, ty), lost) == DropsAt(c, t, store, lost)
  {
    hide Lowers, Grows, FramesGrow, FramesValid, CodeValid, Added, Within, Runs, ScopeFits, StoreFits, Tracked, Stale,
      Sub, VarsDistinct, Owned, Live, TmpsKept;
    RemoveLiveLowers(s, t, {}, {}, x, ty);
    RemoveRuns(c, s, t, scope, env, store, x, ty);
    assert IsAdded(s, t, x);
    DropVarLowers(s, t, x);
    LowersValid(s, DropVar(t, x), {}, {});
    var u := RemoveLive(t, x);
    var later := Take(store, x, ty);
    GrowsTmps(s, t);
    DropRuns(c, u, x, ty, store, lost);
    FitSame(c, u, DropVar(t, x), scope, env, later);
    AddedIsNew(s, t, x, ty);
    KeptSelf(s.tmpIndex, store);
    TakeKeepsTmps(s.tmpIndex, store, store, x, ty);
  }
}

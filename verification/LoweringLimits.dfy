/** Where lowered code does not do what is wanted: flagged blocks that complete,
    and temporaries of loop conditions. */
module LoweringLimits {
  import opened Collections
  import opened Mir
  import opened Lowering
  import opened LoweringShape
  import opened LoweringSim
  import opened LoweringStages
  import opened LoweringGlue
  import opened LoweringExprs
  import opened LoweringStmts
  import opened LoweringBlocks
  import opened LoweringBranches
  import opened LoweringLoops
  import opened LoweringRuns
  import opened LoweredFunctions
  import Ast
  import Divergence
  import Leaks
  import LoweredNames
  import Ops = Precedence

  // ------------------------------------- blocks where another type is expected

  /** A body of the unit type where a value of another type is to be returned:
      the run gets stuck if and only if the body completes, or slips inside. */
  lemma {:induction false} UnitBodySticks(m: Machine, f: Function, env: Ast.Env)
    requires TypedFunction(m, f) && Ast.EnvFits(env, ScopeOf(f.parameters)) && f.body.ty == Unit != f.returnType
    ensures Sticks(m, LowerFunction(f).blocks, f, env) <==>
      exists fuel ::
        (Ast.Completes(Ast.EvalBlock(m, f.body, env, fuel)) || Ast.EvalBlock(m, f.body, env, fuel).Slipped?)
  {
    hide LowerFunction, Sticks, TypedFunction, Ast.EvalBlock;
    LoweringIsCorrect(m, f, env, UnitVal);
    if Slips(m, f, env) {
      var fuel :| Called(m, f, env, fuel).Slipped?;
      assert Ast.Completes(Ast.EvalBlock(m, f.body, env, fuel)) || Ast.EvalBlock(m, f.body, env, fuel).Slipped?;
    }
    if fuel: nat :| Ast.Completes(Ast.EvalBlock(m, f.body, env, fuel)) || Ast.EvalBlock(m, f.body, env, fuel).Slipped? {
      assert Called(m, f, env, fuel).Slipped?;
    }
  }

  /** The same for the branch an if takes. */
  lemma {:induction false} UnitBranchSticks(c: Context, s: State, e: Ast.Expr, scope: Ast.Scope, env: Ast.Env,
      store: Store, lost: bool, fuel: nat)
    returns (n: nat, d: Config)
    requires ExprReady(c, s, e, scope, env, store) && e.IfElse?
    requires var o := Ast.Eval(c.m, e.condition, env, fuel);
      o.Normal? && Taken(e, o).Some? && Taken(e, o).value.ty == Unit != e.ty
    ensures Runs(c, At(s, store, lost), n, d)
    ensures var o := Ast.Eval(c.m, e.condition, env, fuel);
      var p := Ast.EvalBlock(c.m, Taken(e, o).value, o.env, fuel);
      d.Stuck? <==> Ast.Completes(p) || p.Slipped?
  {
    hide Runs, ExprReady, Ast.Eval, Ast.EvalBlock, Leaks.Leaks, LowerExpr, Tracked, DropsAt, At;
    n, d := ExprRuns(c, s, e, scope, env, store, lost, fuel);
    BranchTaken(c, s, e, scope, env, store, fuel);
  }

  lemma {:induction false} BranchTaken(c: Context, s: State, e: Ast.Expr, scope: Ast.Scope,
      env: Ast.Env, store: Store, fuel: nat)
    requires ExprReady(c, s, e, scope, env, store) && e.IfElse?
    requires var o := Ast.Eval(c.m, e.condition, env, fuel); o.Normal? && Taken(e, o).Some?
    ensures var o := Ast.Eval(c.m, e.condition, env, fuel);
      var b := Taken(e, o).value;
      Ast.Eval(c.m, e, env, fuel) == Ast.Expecting(Ast.EvalBlock(c.m, b, o.env, fuel), b.ty, e.ty)
  {
    hide Ready, Sub, LowerExpr, Ast.EvalBlock, Ast.Eval, Ast.Typed;
    IfElseParts(c, s, e, scope, env, fuel);
  }

  /** The same for a block that initialises a variable. */
  lemma {:induction false} UnitInitSticks(c: Context, s: State, stmt: Ast.Stmt, scope: Ast.Scope, env: Ast.Env,
      store: Store, lost: bool, fuel: nat)
    returns (n: nat, d: Config)
    requires StmtReady(c, s, stmt, scope, env, store) && stmt.Let?
    requires stmt.init.BlockExpr? && stmt.init.block.ty == Unit != stmt.init.ty
    ensures Runs(c, At(s, store, lost), n, d)
    ensures var p := Ast.EvalBlock(c.m, stmt.init.block, env, fuel); d.Stuck? <==> Ast.Completes(p) || p.Slipped?
  {
    hide Runs, StmtReady, Ast.EvalBlock, Leaks.LeaksStmt, LowerStmt, Tracked, DropsAt, At;
    n, d := StmtRuns(c, s, stmt, scope, env, store, lost, fuel);
    assert Ast.EvalStmt(c.m, stmt, env, fuel) == Ast.Needed(Ast.Eval(c.m, stmt.init, env, fuel));
  }

  const ONE := Ast.Literal(IntVal(1))

  /** false && return 1; */
  const NEVER_RETURNS := Ast.ExprStmt(Ast.BinOp(Ast.Literal(BoolVal(false)), Ops.And, Ast.Return(Some(ONE), Bool)))

  /** fn f() -> u32 { false && return 1; } */
  const FALLS_OFF := Function([], Int, Ast.Block([NEVER_RETURNS], None, Unit, true))

  /** The checker accepts this function, and its lowered code gets stuck. */
  lemma {:induction false} FallsOff(m: Machine)
    requires m.returnType == Int
    ensures Divergence.DivergesBlock(FALLS_OFF.body) == FALLS_OFF.body.diverges
    ensures TypedFunction(m, FALLS_OFF) && Sticks(m, LowerFunction(FALLS_OFF).blocks, FALLS_OFF, map[])
  {
    hide LowerFunction, Sticks;
    var stmts := FALLS_OFF.body.stmts;
    assert stmts[1..] == [];
    assert Divergence.DivergesStmt(stmts[0]);
    assert Ast.TypedStmt(m, stmts[0], map[]);
    assert Ast.EvalStmt(m, stmts[0], map[], 0) == Ast.Normal(UnitVal, map[]);
    assert Ast.EvalStmts(m, stmts, map[], 0) == Ast.Normal(UnitVal, map[]);
    assert Ast.TypedStmts(m, stmts, map[]);
    assert TypedFunction(m, FALLS_OFF);
    assert Ast.EvalBlock(m, FALLS_OFF.body, map[], 0).Normal?;
    UnitBodySticks(m, FALLS_OFF, map[]);
  }

  // ------------------------------------------------- flagged blocks that leak

  /** A flagged block that completes while its frame holds something managed:
      behind it a managed variable has been overwritten, or holds a value
      without being live, so that nothing will drop it. */
  lemma {:induction false} FlaggedBlockLeaks(c: Context, s: State, b: Ast.Block, scope: Ast.Scope, env: Ast.Env,
      store: Store, lost: bool, fuel: nat)
    returns (n: nat, d: Config)
    requires BlockReady(c, s, b, scope, env, store) && c.tracked
    requires b.diverges && Leaks.Holds(b) && Ast.Completes(Ast.EvalBlock(c.m, b, env, fuel))
    ensures Runs(c, At(s, store, lost), n, d) && d.Running? && d == At(LowerBlock(s, b).s, d.store, d.lost)
    ensures var r := LowerBlock(s, b);
      r.v.Move? && !Clean(DropsAt(c, r.s, Take(d.store, r.v.source, b.ty), d.lost))
  {
    hide Runs, BlockReady, Ast.EvalBlock, Leaks.Holds, Leaks.LeaksInside, LowerBlock, DropsAt, At, Clean, Fit;
    n, d := BlockRuns(c, s, b, scope, env, store, lost, fuel);
    var x := LowerBlock(s, b).v.source;
    assert x !in d.store ==> Take(d.store, x, b.ty) == d.store;
  }

  function ScopeAfterBody(f: Function): Ast.Scope {
    Ast.ScopeAfter(f.body.stmts, ScopeOf(f.parameters))
  }

  /** If the body of a function is flagged and completes with the value to be
      returned, the result is right, but every variable the body declares is
      left behind without a drop. */
  lemma {:induction false} FlaggedBodyLeaks(m: Machine, f: Function, env: Ast.Env,
      fuel: nat) returns (n: nat, d: Config)
    requires TypedFunction(m, f) && Ast.EnvFits(env, ScopeOf(f.parameters))
    requires f.body.diverges && Called(m, f, env, fuel).Normal?
    ensures Run(m, LowerFunction(f).blocks, Start(f, env), n) == d
    ensures d.Finished? && d.result == Called(m, f, env, fuel).val
    ensures forall x :: x in ScopeAfterBody(f) && x !in ScopeOf(f.parameters) && ScopeAfterBody(f)[x] != Unit ==>
      Explicit(x) in d.store && (Explicit(x), ScopeAfterBody(f)[x]) in LowerFunction(f).vars
  {
    hide *;
    var c, s, b, scope := ContextOf(m, f, false), FunctionStart(f), f.body, ScopeOf(f.parameters);
    var s1, store := LowerStmts(PushFrame(s), b.stmts), Arguments(f, env);
    BodyReady(m, f, false, env);
    BlockStart(c, s, b, scope, env, store);
    var k, g := StmtsRuns(c, PushFrame(s), b.stmts, scope, env, store, false, fuel);
    BodyCompletes(m, f, env, fuel);
    var inner := Ast.EvalStmts(m, b.stmts, env, fuel).env;
    BlockNext(c, s, b, scope, env, fuel, store, false, k, g);
    var j, h := BlockLastRuns(c, s1, b, Ast.ScopeAfter(b.stmts, scope), inner, g.store, g.lost, fuel);
    BlockJoins(c, s, b, scope, env, fuel, store, false, k, g, j, h);
    var i;
    i, d := LeakEnds(m, f, s1, env, fuel, h.store, h.lost);
    n := LeakJoins(m, f, s1, env, store, k + j, h, i, d);
  }

  lemma {:induction false} BodyCompletes(m: Machine, f: Function, env: Ast.Env, fuel: nat)
    requires Called(m, f, env, fuel).Normal?
    ensures f.body.ty == f.returnType && Ast.EvalStmts(m, f.body.stmts, env, fuel).Normal?
    ensures var q := BlockLast(m, f.body, Ast.EvalStmts(m, f.body.stmts, env, fuel).env, fuel);
      q == Called(m, f, env, fuel) && Ast.Completes(q) && ResultType(f.body, q) == f.body.ty && ResultOf(q) == q.val
    ensures ScopeAfterBody(f) == Ast.ScopeAfter(f.body.stmts, ScopeOf(f.parameters))
  {
    hide Ast.EvalBlock, Ast.EvalStmts, BlockLast, Leaks.LeaksBlock, Leaks.LeaksStmts;
    BlockParts(m, f.body, env, fuel);
  }

  lemma {:induction false} LeakJoins(m: Machine, f: Function, s1: State, env: Ast.Env, store: Store, n: nat, h: Config,
      i: nat, d: Config) returns (k: nat)
    requires TypedFunction(m, f) && Ast.EnvFits(env, ScopeOf(f.parameters)) && h.Running? && store == Arguments(f, env)
    requires var c := ContextOf(m, f, false);
      var last := At(BlockFinal(s1, f.body).s, h.store, h.lost);
      Runs(c, At(FunctionStart(f), store, false), n, last) && Runs(c, last, i, d)
    ensures Run(m, LowerFunction(f).blocks, Start(f, env), k) == d
  {
    hide LowerFunction, Start, Arguments, FunctionStart, BlockFinal, Ready, Ast.TypedBlock, Ast.BlockFits, Clean;
    var c := ContextOf(m, f, false);
    StartFits(m, f, false, env);
    RunsJoin(c, At(FunctionStart(f), store, false), n, At(BlockFinal(s1, f.body).s, h.store, h.lost), i, d);
    k := n + i;
  }

  /** Out of a flagged body: nothing of its frame is dropped. */
  lemma {:induction false} LeakEnds(m: Machine, f: Function, s1: State, env: Ast.Env, fuel: nat, store: Store,
      lost: bool) returns (n: nat, d: Config)
    requires TypedFunction(m, f) && Ast.EnvFits(env, ScopeOf(f.parameters)) && f.body.diverges
      && Called(m, f, env, fuel).Normal?
    requires s1 == LowerStmts(PushFrame(FunctionStart(f)), f.body.stmts) && f.body.ty == f.returnType
    requires var final := BlockFinal(s1, f.body);
      var o := Called(m, f, env, fuel);
      && Fit(ContextOf(m, f, false), final.s, ScopeAfterBody(f), o.env, store)
        && Read(store, final.x, f.returnType) == Some(o.val)
      && (final.x, f.returnType) in Added(s1, final.s)
    ensures Runs(ContextOf(m, f, false), At(BlockFinal(s1, f.body).s, store, lost), n, d)
    ensures d.Finished? && d.result == Called(m, f, env, fuel).val
    ensures forall x :: x in ScopeAfterBody(f) && x !in ScopeOf(f.parameters) && ScopeAfterBody(f)[x] != Unit ==>
      Explicit(x) in d.store && (Explicit(x), ScopeAfterBody(f)[x]) in LowerFunction(f).vars
  {
    hide Lowers, Grows, Added, Within, ScopeFits, StoreFits, Sub, VarsDistinct, Owned, Live, Fit, LowerBlock,
      LowerFunction, LowerStmts, BlockFinal, FunctionStart;
    hide Read, Take, Runs, Valid, ContextOk, Called, EmitDrops, Ast.TypedBlock, Ast.BlockFits,
      TypedFunction, ScopeAfterBody, PopFrame;
    var c, final, o := ContextOf(m, f, false), BlockFinal(s1, f.body), Called(m, f, env, fuel);
    var owned := Owned(Entries(f.parameters));
    LeakKept(m, f, s1, env, o.env, store);
    n := EndDropsRun(c, f, store, lost);
    d := Finished(o.val, Take(store - owned, final.x, f.returnType), lost);
    ReadKept(store, owned, final.x, f.returnType);
  }

  /** What stays behind when a flagged body is left. */
  lemma {:induction false} LeakKept(m: Machine, f: Function, s1: State, env: Ast.Env, after: Ast.Env, store: Store)
    requires TypedFunction(m, f) && Ast.EnvFits(env, ScopeOf(f.parameters)) && f.body.diverges
    requires s1 == LowerStmts(PushFrame(FunctionStart(f)), f.body.stmts)
    requires var final := BlockFinal(s1, f.body);
      && Fit(ContextOf(m, f, false), final.s, ScopeAfterBody(f), after, store)
        && (final.x, f.body.ty) in Added(s1, final.s)
    ensures var e, x, last := Entries(f.parameters), BlockFinal(s1, f.body).x, LowerBlock(FunctionStart(f), f.body);
      && ContextOk(ContextOf(m, f, false)) && last.v == Move(x) && m.returnType == f.returnType
      && last.s.blocks == BlockFinal(s1, f.body).s.blocks
      && VarsDistinct(e) && Owned(e) <= store.Keys && x !in Owned(e)
    ensures forall n :: n in ScopeAfterBody(f) && n !in ScopeOf(f.parameters) && ScopeAfterBody(f)[n] != Unit ==>
      && Explicit(n) in Take(store - Owned(Entries(f.parameters)), BlockFinal(s1, f.body).x, f.body.ty)
      && (Explicit(n), ScopeAfterBody(f)[n]) in LowerFunction(f).vars
  {
    hide Lowers, Grows, FramesGrow, FramesValid, CodeValid, Added, Within, ScopeFits, StoreFits, Sub, VarsDistinct,
      Owned, Live, TmpsKept, Stale, Tracked, Clean;
    hide Fit, LowerBlock, LowerFunction, LowerStmts, BlockFinal, FunctionStart, Read, Take, RemoveLive, Valid,
      ContextOk, Emit, EmitDrops, Ast.TypedBlock, Ast.BlockFits, DropsAt;
    var c, s, b := ContextOf(m, f, false), FunctionStart(f), f.body;
    StartIs(f);
    StartFits(m, f, false, env);
    EndStages(c, f);
    BlockStages(c, s, b);
    var final := BlockFinal(s1, b);
    RemoveRuns(c, s1, final.s, ScopeAfterBody(f), after, store, final.x, b.ty);
    var u := RemoveLive(final.s, final.x);
    LowersJoin(PushFrame(s), s1, u, {}, {});
    ParametersKept(c, f, s, u, ScopeOf(f.parameters), ScopeAfterBody(f), after, store, final.x, b.ty);
    AddedInVars(c, PushFrame(s), u);
    PushedTop(s, u);
  }

  lemma {:induction false} ReadKept(store: Store, owned: set<Var>, x: Var, ty: Ty)
    requires x !in owned
    ensures Read(store - owned, x, ty) == Read(store, x, ty)
  {
  }

  lemma {:induction false} ParametersKept(c: Context, f: Function, s: State, u: State, scope: Ast.Scope,
      inner: Ast.Scope, env: Ast.Env, store: Store, x: Var, ty: Ty)
    requires Valid(s) && Lowers(PushFrame(s), u, {}, {}) && Live(s.frames) == Entries(f.parameters)
    requires ScopeFits(scope, Entries(f.parameters)) && Fit(c, u, inner, env, Take(store, x, ty))
    requires x.Tmp? && x !in Owned(Live(u.frames))
    ensures VarsDistinct(Entries(f.parameters)) && Owned(Entries(f.parameters)) <= store.Keys
      && x !in Owned(Entries(f.parameters))
    ensures forall n :: n in inner && n !in scope && inner[n] != Unit ==>
      Explicit(n) in Take(store - Owned(Entries(f.parameters)), x, ty) && (Explicit(n), inner[n]) in TopFrame(u)
  {
    hide Lowers, Valid, Live, Owned, VarsDistinct;
    PoppedLive(s, u);
    var e := Entries(f.parameters);
    OwnedSplit(e, TopFrame(u));
    forall n | n in inner && n !in scope && inner[n] != Unit
      ensures Explicit(n) in Take(store - Owned(e), x, ty) && (Explicit(n), inner[n]) in TopFrame(u)
    {
      NamedIsNew(scope, e, n);
      NotInEntries(e, TopFrame(u), n, inner[n]);
    }
  }

  lemma {:induction false} NotInEntries(below: Frame, top: Frame, x: Name, ty: Ty)
    requires (Explicit(x), ty) in below + top && forall i :: 0 <= i < |below| ==> below[i].0 != Explicit(x)
    ensures (Explicit(x), ty) in top
  {
  }

  const X := Name(1, "x")
  const TEXT := ManagedVal("a")

  /** let x = "a"; false && return; */
  const SKIPPED := Function([], Unit, Ast.Block([
      Ast.Let(X, Managed, Ast.Literal(TEXT)),
      Ast.ExprStmt(Ast.BinOp(Ast.Literal(BoolVal(false)), Ops.And, Ast.Return(None, Bool)))
    ], None, Unit, true))

  /** The checker flags the body of this function, the body completes, and the
      string is never dropped. */
  lemma {:induction false} SkippedDropIsLost(m: Machine) returns (n: nat, d: Config)
    requires m.returnType == Unit
    ensures Divergence.DivergesBlock(SKIPPED.body) == SKIPPED.body.diverges
    ensures Run(m, LowerFunction(SKIPPED).blocks, Start(SKIPPED, map[]), n) == d
    ensures d.Finished? && Explicit(X) in d.store && !RunsClean(m, LowerFunction(SKIPPED).blocks, SKIPPED, map[], n)
  {
    hide LowerFunction, Start, Run, RunsClean;
    SkippedIsTyped(m);
    n, d := FlaggedBodyLeaks(m, SKIPPED, map[], 0);
    SkippedIsLeft(m, d, n);
  }

  lemma {:induction false} SkippedIsLeft(m: Machine, d: Config, n: nat)
    requires Run(m, LowerFunction(SKIPPED).blocks, Start(SKIPPED, map[]), n) == d && d.Finished?
    requires Explicit(X) in d.store && (Explicit(X), Managed) in LowerFunction(SKIPPED).vars
    ensures !RunsClean(m, LowerFunction(SKIPPED).blocks, SKIPPED, map[], n)
  {
    hide LowerFunction, Start, Run;
  }

  lemma {:induction false} SkippedIsTyped(m: Machine)
    requires m.returnType == Unit
    ensures Divergence.DivergesBlock(SKIPPED.body) == SKIPPED.body.diverges
    ensures TypedFunction(m, SKIPPED) && Called(m, SKIPPED, map[], 0).Normal?
      && ScopeAfterBody(SKIPPED) == map[X := Managed]
  {
    var stmts := SKIPPED.body.stmts;
    var rest := stmts[1..];
    var scope: Ast.Scope := map[];
    assert rest[1..] == [];
    assert Divergence.DivergesStmt(rest[0]);
    assert Divergence.DivergesStmts(rest);
    assert Ast.TypedStmts(m, rest, scope[X := Managed]) by {
      assert Ast.TypedStmt(m, rest[0], scope[X := Managed]);
    }
    assert Ast.TypedStmts(m, stmts, scope) by {
      assert Ast.TypedStmt(m, stmts[0], scope);
      assert Ast.ScopeAfterStmt(stmts[0], scope) == scope[X := Managed];
    }
    assert Ast.ScopeAfter(rest, scope[X := Managed]) == scope[X := Managed];
    assert Ast.ScopeAfter(stmts, scope) == scope[X := Managed];
    assert Ast.EvalStmts(m, rest, map[X := TEXT], 0) == Ast.Normal(UnitVal, map[X := TEXT]);
    assert Ast.EvalStmts(m, stmts, map[], 0).Normal?;
  }

  // ------------------------------------------------------- loop conditions

  /** A loop whose condition leaves something managed: once the condition has
      held, the body has completed and the condition has been evaluated again,
      a managed value has been overwritten. */
  lemma {:induction false} LoopLoses(c: Context, s: State, e: Ast.Expr, scope: Ast.Scope, env: Ast.Env,
      store: Store, lost: bool, fuel: nat)
    returns (n: nat, d: Config)
    requires ExprReady(c, s, e, scope, env, store) && c.tracked && e.While?
      && Leaks.InVar(e.condition, Bool) && fuel > 0
    requires var o := Ast.Eval(c.m, e.condition, env, fuel);
      && o.Normal? && Ast.IsTrue(o.val)
      && var p := Ast.EvalBlock(c.m, e.body, o.env, fuel);
         p.Normal? && Ast.Eval(c.m, e.condition, p.env, fuel).Normal?
    ensures Runs(c, At(s, store, lost), n, d) && d.Running? && d.lost
  {
    hide *;
    var g := LoopStages(s, e);
    var o := Ast.Eval(c.m, e.condition, env, fuel);
    var p := Ast.EvalBlock(c.m, e.body, o.env, fuel);
    TrueIsOne(o.val);
    NormalStays(e.condition, o);
    NormalStays(e.condition, Ast.Eval(c.m, e.condition, p.env, fuel));
    WhileStart(c, s, e, scope, env, store, lost);
    LoopStart(c, s, e, scope, env, store);
    var i, a := VarRuns(c, g.head, e.condition, Bool, scope, env, store, lost, fuel);
    LoopNext(c, s, e, scope, env, fuel, store, lost, i, a);
    BodyStart(c, s, e, scope, o.env, a.store);
    var j, b := BlockRuns(c, g.body, e.body, scope, o.env, a.store, a.lost, fuel);
    BodyNext(c, s, e, scope, o.env, fuel, a.store, a.lost, j, b);
    LoopStart(c, s, e, scope, p.env, b.store);
    var k;
    k, d := VarRuns(c, g.head, e.condition, Bool, scope, p.env, b.store, b.lost, fuel);
    StaleIsLost(c, s, e, scope, p.env, fuel, b.store, b.lost, k, d);
    RunsJoin(c, At(s, store, lost), 1, At(g.head, store, lost), i + 1, At(g.body, a.store, a.lost));
    RunsJoin(c, At(s, store, lost), 1 + (i + 1), At(g.body, a.store, a.lost), j + 1, At(g.head, b.store, b.lost));
    RunsJoin(c, At(s, store, lost), 1 + (i + 1) + (j + 1), At(g.head, b.store, b.lost), k, d);
    n := 1 + (i + 1) + (j + 1) + k;
  }

  lemma {:induction false} NormalStays(e: Ast.Expr, o: Ast.Outcome)
    requires o.Normal?
    ensures Ast.Needed(o) == o && Ast.Held(e, o) == o
  {
  }

  lemma {:induction false} TrueIsOne(v: Val)
    ensures Ast.IsTrue(v) <==> SwitchKey(v) == 1
  {
  }

  /** What the condition has left is stale at the head of the loop; the next
      evaluation makes it live again. */
  lemma {:induction false} StaleIsLost(c: Context, s: State, e: Ast.Expr, scope: Ast.Scope, env: Ast.Env, fuel: nat,
      store: Store, lost: bool, n: nat, d: Config)
    requires LoopReady(c, s, e, scope) && c.tracked && e.While? && Leaks.InVar(e.condition, Bool)
    requires LoopOk(c, s, e, LoopStages(s, e)) && Fit(c, LoopStages(s, e).x.s, scope, env, store)
    requires Ast.Eval(c.m, e.condition, env, fuel).Normal?
    requires VarRan(c, LoopStages(s, e).head, LowerToVar(LoopStages(s, e).head, e.condition, Bool), Bool, scope,
      Ast.Held(e.condition, Ast.Eval(c.m, e.condition, env, fuel)),
      Leaks.Leaks(c.m, e.condition, env, fuel), fuel, store, lost, n, d)
    ensures Runs(c, At(LoopStages(s, e).head, store, lost), n, d) && d.Running? && d.lost
  {
    hide Lowers, Added, Sub, Live, Owned, Stale, VarsDistinct, ContextOk, Valid, LoopStages, Runs, LowerWhile,
      LowerToVar, LowerBlock, Ast.Eval, Ast.Typed, Leaks.Leaks, Leaks.InVar;
    hide TmpsKept, At, Read, StoreFits, ScopeFits;
    var g := LoopStages(s, e);
    InVarIsExact(g.head, e.condition, Bool);
    GrowsTmps(g.head, g.x.s);
    AddedInVars(c, g.head, g.x.s);
    StaleEntry(c, Live(g.head.frames), Added(g.head, g.x.s), scope, env, store, d.store);
  }

  lemma {:induction false} StaleEntry(c: Context, below: Frame, top: Frame, scope: Ast.Scope, env: Ast.Env,
      store: Store, later: Store)
    requires ScopeFits(scope, below + top) && StoreFits(c, store, env, scope, Owned(below + top)) && !PlainFrame(top)
    requires forall e :: e in top ==> e in c.final.vars
    ensures !(Stale(c, Owned(below), store) <= Stale(c, Owned(below + top), later))
  {
    OwnedSplit(below, top);
    OwnedDisjoint(below, top);
    var i :| 0 <= i < |top| && top[i].1.Managed?;
    assert top[i] in top;
    assert top[i].0 in Owned(top);
    assert top[i].0 in Stale(c, Owned(below), store);
  }

  /** For any expression that completes the condition is exact: drops are in
      order behind it if and only if its evaluation misses none. */
  lemma {:induction false} DropsInsideAreExact(c: Context, s: State, e: Ast.Expr, scope: Ast.Scope, env: Ast.Env,
      store: Store, lost: bool, fuel: nat)
    returns (n: nat, d: Config)
    requires ExprReady(c, s, e, scope, env, store) && c.tracked && Clean(DropsAt(c, s, store, lost))
    requires Ast.Completes(Ast.Eval(c.m, e, env, fuel))
    ensures Runs(c, At(s, store, lost), n, d) && d.Running? && d == At(LowerExpr(s, e).s, d.store, d.lost)
    ensures Clean(DropsAt(c, LowerExpr(s, e).s, d.store, d.lost)) <==> !Leaks.Leaks(c.m, e, env, fuel)
  {
    hide Runs, ExprReady, Ast.Eval, Leaks.Leaks, LowerExpr, DropsAt, At, Clean, Fit, TmpsKept, Yields, Added;
    n, d := ExprRuns(c, s, e, scope, env, store, lost, fuel);
  }

  const SAME := Ast.BinOp(Ast.Literal(TEXT), Ops.Eq, Ast.Literal(TEXT))
  const REPEAT := Ast.While(SAME, Ast.Block([], None, Unit, false))

  /** while "a" == "a" {} */
  const LOOPED := Function([], Unit, Ast.Block([Ast.ExprStmt(REPEAT)], None, Unit, false))

  /** The second evaluation of the condition overwrites a string that the first
      has left behind. */
  lemma {:induction false} LoopConditionIsLost(m: Machine) returns (n: nat, d: Config)
    requires m.returnType == Unit && m.binop(Ops.Eq, TEXT, TEXT) == BoolVal(true)
    ensures Run(m, LowerFunction(LOOPED).blocks, Start(LOOPED, map[]), n) == d
    ensures d.Running? && d.lost
  {
    hide *;
    var c, s := ContextOf(m, LOOPED, true), FunctionStart(LOOPED);
    var stmts, store := LOOPED.body.stmts, Arguments(LOOPED, map[]);
    LoopedIsTyped(m);
    LoopedEvaluates(m);
    BodyReady(m, LOOPED, true, map[]);
    BlockStart(c, s, LOOPED.body, map[], map[], store);
    StmtsStart(c, PushFrame(s), stmts, map[], map[], store);
    ExprStmtParts(c, PushFrame(s), stmts[0], map[], map[], store);
    VarStart(c, PushFrame(s), REPEAT, Unit, map[], map[], store);
    n, d := LoopLoses(c, PushFrame(s), REPEAT, map[], map[], store, false, 1);
    LoopedStart(m, n, d);
  }

  lemma {:induction false} LoopedIsTyped(m: Machine)
    requires m.returnType == Unit && m.binop(Ops.Eq, TEXT, TEXT) == BoolVal(true)
    ensures TypedFunction(m, LOOPED) && OneTypeEach(LOOPED) && ScopeOf(LOOPED.parameters) == map[]
      && Ast.EnvFits(map[], map[])
    ensures ContextOf(m, LOOPED, true).tracked && LOOPED.body.stmts == [Ast.ExprStmt(REPEAT)]
      && Ast.TypeOf(REPEAT) == Unit
  {
    hide LowerFunction, Ast.Eval;
    var stmts := LOOPED.body.stmts;
    assert stmts[1..] == [];
    assert Ast.TypedStmts(m, [], map[]);
    assert Ast.TypedBlock(m, REPEAT.body, map[]);
    assert Ast.TypedStmt(m, stmts[0], map[]);
    assert Ast.TypedStmts(m, stmts, map[]);
    assert Ast.DeclaredStmts(map[], []);
    assert Ast.DeclaredBlock(map[], REPEAT.body);
    assert Ast.DeclaredStmt(map[], stmts[0]);
    assert Ast.DeclaredStmts(map[], stmts);
    assert LoweredNames.Declares(map[], LOOPED);
  }

  lemma {:induction false} LoopedEvaluates(m: Machine)
    requires m.binop(Ops.Eq, TEXT, TEXT) == BoolVal(true)
    ensures REPEAT.While? && Leaks.InVar(REPEAT.condition, Bool)
    ensures Ast.Eval(m, REPEAT.condition, map[], 1) == Ast.Normal(BoolVal(true), map[]) && Ast.IsTrue(BoolVal(true))
    ensures Ast.EvalBlock(m, REPEAT.body, map[], 1) == Ast.Normal(UnitVal, map[])
  {
  }

  lemma {:induction false} LoopedStart(m: Machine, n: nat, d: Config)
    requires m.returnType == Unit && OneTypeEach(LOOPED)
    requires Runs(ContextOf(m, LOOPED, true),
      At(PushFrame(FunctionStart(LOOPED)), Arguments(LOOPED, map[]), false), n, d)
    ensures Run(m, LowerFunction(LOOPED).blocks, Start(LOOPED, map[]), n) == d
  {
    hide LowerFunction, Start, Arguments, FunctionStart, Ready, OneTypeEach, Clean;
    StartFits(m, LOOPED, true, map[]);
  }
}

/** Single steps of the simulation of expressions without control flow. */
module LoweringExprs {
  import opened Collections
  import opened Mir
  import opened Lowering
  import opened LoweringShape
  import opened LoweringStages
  import opened LoweringSim
  import opened LoweringGlue
  import Ast
  import Leaks

  lemma {:induction false} ReturnUnitRuns(c: Context, s: State, e: Ast.Expr, scope: Ast.Scope, env: Ast.Env,
      store: Store, lost: bool, fuel: nat)
    returns (n: nat, d: Config)
    requires ExprReady(c, s, e, scope, env, store) && e.Return? && e.result.None?
    ensures ExprRan(c, s, e, scope, Ast.Eval(c.m, e, env, fuel), Leaks.Leaks(c.m, e, env, fuel),
      fuel, store, lost, n, d)
  {
    hide Lowers, Grows, FramesGrow, FramesValid, CodeValid, Added, Within, Runs, ScopeFits, StoreFits, Tracked, Stale,
      Sub, VarsDistinct, Owned, Live, TmpsKept;
    hide Fit, ReturnValue, Broken, DropsAt;
    FitParts(c, s, scope, env, store);
    LowersSelf(s);
    n, d := ReturnRuns(c, s, s, UNIT_VALUE, scope, env, store, lost, UnitVal, fuel);
  }

  lemma {:induction false} UnaryParts(c: Context, s: State, e: Ast.Expr, scope: Ast.Scope, env: Ast.Env,
      fuel: nat, store: Store, lost: bool)
    requires ExprReady(c, s, e, scope, env, store) && (e.Not? || e.Negate?)
    ensures VarReady(c, s, e.operand, OperandType(e), scope, env, store)
  {
    hide Sub, ContextOk, Fit, LowerToVar;
    FitsItself(c, e.operand);
  }

  /** What is known of ! and - and their operand. */
  lemma {:induction false} UnaryEval(c: Context, s: State, e: Ast.Expr, env: Ast.Env, fuel: nat)
    requires e.Not? || e.Negate?
    ensures var x := LowerToVar(s, e.operand, OperandType(e));
      LowerExpr(s, e) == Lowered(x.s, if e.Not? then Value.Not(x.x) else Value.Negate(x.x, OperandType(e)))
    ensures var o := Ast.Held(e.operand, Ast.Eval(c.m, e.operand, env, fuel));
      Ast.Eval(c.m, e, env, fuel) ==
        if o.Normal? then Ast.Normal(if e.Not? then c.m.not(o.val) else c.m.negate(o.val), o.env) else o
    ensures Leaks.Leaks(c.m, e, env, fuel) == Leaks.Leaks(c.m, e.operand, env, fuel)
  {
    hide LowerToVar;
  }

  lemma {:induction false} UnaryArrives(c: Context, s: State, e: Ast.Expr, scope: Ast.Scope, env: Ast.Env, fuel: nat,
      store: Store, lost: bool, n: nat, d: Config)
    requires e.Not? || e.Negate?
    requires VarRan(c, s, LowerToVar(s, e.operand, OperandType(e)), OperandType(e), scope,
      Ast.Held(e.operand, Ast.Eval(c.m, e.operand, env, fuel)), Leaks.Leaks(c.m, e.operand, env, fuel),
      fuel, store, lost, n, d)
    ensures ExprRan(c, s, e, scope, Ast.Eval(c.m, e, env, fuel), Leaks.Leaks(c.m, e, env, fuel),
      fuel, store, lost, n, d)
  {
    hide Lowers, Grows, FramesGrow, FramesValid, CodeValid, Added, Within, Runs, ScopeFits, StoreFits, Tracked, Stale,
      Sub, VarsDistinct, Owned, Live, TmpsKept;
    hide Fit, LowerToVar, LowerExpr, Ast.Eval, Leaks.Leaks, Broken, DropsAt, At;
    UnaryEval(c, s, e, env, fuel);
  }

  lemma {:induction false} LeafRuns(c: Context, s: State, e: Ast.Expr, scope: Ast.Scope, env: Ast.Env,
      store: Store, lost: bool, fuel: nat)
    returns (n: nat, d: Config)
    requires ExprReady(c, s, e, scope, env, store) && (e.Literal? || e.Path?)
    ensures ExprRan(c, s, e, scope, Ast.Eval(c.m, e, env, fuel), Leaks.Leaks(c.m, e, env, fuel),
      fuel, store, lost, n, d)
  {
    hide Lowers, Grows, FramesGrow, FramesValid, CodeValid, Added, Within, Runs, Tracked, Stale, Sub, VarsDistinct,
      Owned, Live, TmpsKept, ContextOk, DropsAt;
    FitParts(c, s, scope, env, store);
    n, d := 0, At(s, store, lost);
    RunsSelf(c, d);
    KeptSelf(s.tmpIndex, store);
    TrackedSame(c, DropsAt(c, s, store, lost));
  }

  lemma {:induction false} VarStart(c: Context, s: State, e: Ast.Expr, ty: Ty, scope: Ast.Scope,
      env: Ast.Env, store: Store)
    requires VarReady(c, s, e, ty, scope, env, store)
    ensures ExprReady(c, s, e, scope, env, store)
  {
    hide Lowers, Grows, FramesGrow, FramesValid, CodeValid, Sub, Fit, LowerExpr, AssignToVar, Valid,
      ContextOk, Ast.Typed, Ast.Fits;
    FitParts(c, s, scope, env, store);
    ExprLowers(s, e);
    var r := LowerExpr(s, e);
    GrowsTmps(s, r.s);
    SubAssignToVar(c, r.s, r.v, ty);
  }

  /** The value of an expression that has arrived is stored in a temporary. */
  lemma {:induction false} VarArrives(c: Context, s: State, e: Ast.Expr, ty: Ty, scope: Ast.Scope, env: Ast.Env,
      fuel: nat, store: Store, lost: bool, n: nat, d: Config)
    returns (m: nat, f: Config)
    requires VarReady(c, s, e, ty, scope, env, store)
    requires ExprRan(c, s, e, scope, Ast.Eval(c.m, e, env, fuel), Leaks.Leaks(c.m, e, env, fuel),
      fuel, store, lost, n, d)
    ensures VarRan(c, s, LowerToVar(s, e, ty), ty, scope, Ast.Held(e, Ast.Eval(c.m, e, env, fuel)),
      Leaks.Leaks(c.m, e, env, fuel), fuel, store, lost, m, f)
  {
    hide Lowers, Grows, FramesGrow, FramesValid, CodeValid, Added, Within, Runs, ScopeFits, StoreFits, Tracked, Stale,
      Sub, VarsDistinct, Owned, Live, TmpsKept;
    hide Fit, LowerExpr, AssignToVar, Yields, Valid, ContextOk, Emit, Read, ValueOk, Ast.Eval, Ast.Typed, Ast.Fits,
      Leaks.Leaks, Broken, DropsAt;
    m, f := n, d;
    var o, leaks := Ast.Eval(c.m, e, env, fuel), Leaks.Leaks(c.m, e, env, fuel);
    if o.Normal? {
      var r := LowerExpr(s, e);
      FitParts(c, s, scope, env, store);
      CompletedFits(c, e, ty, scope, env, fuel);
      ExprLowers(s, e);
      ToVarLowers(s, e, ty);
      GrowsTmps(s, r.s);
      GrowsTmps(s, LowerToVar(s, e, ty).s);
      var k, later, gone := AssignToVarRuns(c, s, r.s, r.v, ty, scope, o.env, d.store, d.lost, o.val);
      f := At(LowerToVar(s, e, ty).s, later, gone);
      RunsJoin(c, At(s, store, lost), n, d, k, f);
      TmpsKeptJoin(s.tmpIndex, r.s.tmpIndex, store, d.store, later);
      TrackedJoin(c, DropsAt(c, s, store, lost), DropsAt(c, r.s, d.store, d.lost),
        DropsAt(c, LowerToVar(s, e, ty).s, later, gone), leaks, false);
      m := n + k;
    } else if o.Void? {
      m, f := VoidInVar(c, s, e, ty, scope, env, fuel, store, lost, n, d);
    }
  }

  /** Where a value is missing: an empty variable stays empty, any other value
      is asked for. */
  lemma {:induction false} VoidInVar(c: Context, s: State, e: Ast.Expr, ty: Ty, scope: Ast.Scope, env: Ast.Env,
      fuel: nat, store: Store, lost: bool, n: nat, d: Config)
    returns (m: nat, f: Config)
    requires VarReady(c, s, e, ty, scope, env, store) && Ast.Eval(c.m, e, env, fuel).Void?
    requires ExprRan(c, s, e, scope, Ast.Eval(c.m, e, env, fuel), Leaks.Leaks(c.m, e, env, fuel),
      fuel, store, lost, n, d)
    ensures VarRan(c, s, LowerToVar(s, e, ty), ty, scope, Ast.Held(e, Ast.Eval(c.m, e, env, fuel)),
      Leaks.Leaks(c.m, e, env, fuel), fuel, store, lost, m, f)
  {
    hide Lowers, Grows, FramesGrow, FramesValid, CodeValid, Added, Within, Runs, ScopeFits, StoreFits, Tracked, Stale,
      Sub, VarsDistinct, Owned, Live, TmpsKept;
    hide Fit, LowerExpr, Valid, ContextOk, Emit, ValueOk, Ast.Eval, Ast.Typed, Ast.Fits, Leaks.Leaks,
      DropsAt, AddLive, Leaks.Rest;
    var r := LowerExpr(s, e);
    FitParts(c, s, scope, env, store);
    CompletedFits(c, e, ty, scope, env, fuel);
    ExprLowers(s, e);
    RestIsExact(s, e);
    VoidKinds(c.m, e, env, fuel);
    GrowsTmps(s, r.s);
    m, f := n, d;
    if !e.BlockExpr? {
      TmpKeepsBlocks(r.s, ty);
      ValueSticks(c, r.s, DroppedTmp(r.s, ty).s, Tmp(r.s.tmpIndex), ty, r.v, d.store, d.lost);
      RunsJoin(c, At(s, store, lost), n, d, 1, Stuck);
      m, f := n + 1, Stuck;
    }
  }

  /** Only a block expression leaves an empty variable. */
  lemma {:induction false} VoidKinds(m: Machine, e: Ast.Expr, env: Ast.Env, fuel: nat)
    requires Ast.Eval(m, e, env, fuel).Void?
    ensures e.BlockExpr? || !Leaks.Moves(e)
  {
  }

  lemma {:induction false} ReturnExprParts(c: Context, s: State, e: Ast.Expr, scope: Ast.Scope,
      env: Ast.Env, store: Store)
    requires ExprReady(c, s, e, scope, env, store) && e.Return? && e.result.Some?
    ensures ExprReady(c, s, e.result.value, scope, env, store) && Ast.Fits(c.m, e.result.value, c.m.returnType)
  {
    hide Lowers, Grows, FramesGrow, FramesValid, CodeValid, Sub, Fit, ReturnValue, ContextOk, Ast.Fits;
    FitParts(c, s, scope, env, store);
    var r := LowerExpr(s, e.result.value);
    ExprLowers(s, e.result.value);
    ReturnStart(c, s, r.s, r.v);
  }

  lemma {:induction false} ReturnExprArrives(c: Context, s: State, e: Ast.Expr, scope: Ast.Scope, env: Ast.Env,
      fuel: nat, store: Store, lost: bool, n: nat, d: Config)
    returns (m: nat, f: Config)
    requires ExprReady(c, s, e, scope, env, store) && e.Return? && e.result.Some?
    requires ExprRan(c, s, e.result.value, scope, Ast.Eval(c.m, e.result.value, env, fuel),
      Leaks.Leaks(c.m, e.result.value, env, fuel), fuel, store, lost, n, d)
    ensures ExprRan(c, s, e, scope, Ast.Eval(c.m, e, env, fuel), Leaks.Leaks(c.m, e, env, fuel),
      fuel, store, lost, m, f)
  {
    hide Lowers, Grows, FramesGrow, FramesValid, CodeValid, Added, Within, Runs, ScopeFits, StoreFits, Tracked, Stale,
      Sub, VarsDistinct, Owned, Live, TmpsKept;
    hide Fit, ReturnValue, Yields, Broken, DropsAt, ContextOk, Ast.Fits, Ast.Typed, Ast.Eval, LowerExpr,
      Leaks.Leaks, Valid, ValueOk;
    ReturnExprLowers(s, e);
    ReturnEvaluates(c.m, e, env, fuel);
    var v := e.result.value;
    FitParts(c, s, scope, env, store);
    ReturnExprParts(c, s, e, scope, env, store);
    var r := LowerExpr(s, v);
    ExprLowers(s, v);
    m, f := n, d;
    var o := Ast.Eval(c.m, v, env, fuel);
    if o.Normal? {
      CompletedFits(c, v, c.m.returnType, scope, env, fuel);
      FitParts(c, r.s, scope, o.env, d.store);
      m, f := ReturnRuns(c, s, r.s, r.v, scope, o.env, d.store, d.lost, o.val, fuel);
      RunsJoin(c, At(s, store, lost), n, d, m, f);
      BrokenLater(c, Ast.Returned(o.val), Leaks.Leaks(c.m, v, env, fuel), false, fuel, DropsAt(c, s, store, lost),
        DropsAt(c, r.s, d.store, d.lost), m, n, f);
      m := n + m;
    } else if o.Void? {
      m := ReturnVoid(c, s, e, scope, env, fuel, store, lost, n, d);
      f := Stuck;
    }
  }

  lemma {:induction false} ReturnVoid(c: Context, s: State, e: Ast.Expr, scope: Ast.Scope, env: Ast.Env, fuel: nat,
      store: Store, lost: bool, n: nat, d: Config)
    returns (m: nat)
    requires ExprReady(c, s, e, scope, env, store) && e.Return? && e.result.Some?
      && Ast.Eval(c.m, e.result.value, env, fuel).Void?
    requires ExprRan(c, s, e.result.value, scope, Ast.Eval(c.m, e.result.value, env, fuel),
      Leaks.Leaks(c.m, e.result.value, env, fuel), fuel, store, lost, n, d)
    ensures ExprRan(c, s, e, scope, Ast.Eval(c.m, e, env, fuel), Leaks.Leaks(c.m, e, env, fuel),
      fuel, store, lost, m, Stuck)
  {
    hide Lowers, Grows, FramesGrow, FramesValid, CodeValid, Added, Within, Runs, ScopeFits, StoreFits, Tracked, Stale,
      Sub, VarsDistinct, Owned, Live, TmpsKept;
    hide Fit, ReturnValue, DropsAt, ContextOk, Ast.Fits, Ast.Typed, ExprRan, LowerExpr, Leaks.Leaks, ValueOk;
    var v := e.result.value;
    var o := Ast.Eval(c.m, v, env, fuel);
    VoidArrived(c, s, v, scope, o, Leaks.Leaks(c.m, v, env, fuel), fuel, store, lost, n, d);
    FitParts(c, s, scope, env, store);
    ReturnExprParts(c, s, e, scope, env, store);
    var r := LowerExpr(s, v);
    ExprLowers(s, v);
    CompletedFits(c, v, c.m.returnType, scope, env, fuel);
    FitParts(c, r.s, scope, o.env, d.store);
    ReturnExprLowers(s, e);
    m := ReturnSticks(c, s, r.s, r.v, scope, o.env, d.store, d.lost);
    RunsJoin(c, At(s, store, lost), n, d, m, Stuck);
    m := n + m;
    StuckRan(c, s, e, scope, Leaks.Leaks(c.m, e, env, fuel), fuel, store, lost, m);
  }

  lemma {:induction false} ReturnEvaluates(m: Machine, e: Ast.Expr, env: Ast.Env, fuel: nat)
    requires e.Return? && e.result.Some?
    ensures var o := Ast.Eval(m, e.result.value, env, fuel);
      Ast.Eval(m, e, env, fuel) == if o.Normal? then Ast.Returned(o.val) else Ast.Needed(o)
    ensures Leaks.Leaks(m, e, env, fuel) == Leaks.Leaks(m, e.result.value, env, fuel)
  {
  }

  lemma {:induction false} ReturnExprLowers(s: State, e: Ast.Expr)
    requires e.Return? && e.result.Some?
    ensures LowerExpr(s, e) == var r := LowerExpr(s, e.result.value); ReturnValue(r.s, r.v)
  {
    hide ReturnValue;
  }

  lemma {:induction false} ReturnStart(c: Context, s: State, t: State, v: Value)
    requires Valid(s) && Lowers(s, t, {}, {}) && ValueOk(s, t, v) && Sub(c, ReturnValue(t, v).s)
    ensures Sub(c, t)
  {
    hide Grows, FramesGrow, Within, FramesValid, Sub, AssignToVar;
    ReturnStages(c, s, t, v);
    GrowsTmps(s, t);
    SubAssignToVar(c, t, v, t.returnType);
  }

  lemma {:induction false} BlockExprParts(c: Context, s: State, e: Ast.Expr, scope: Ast.Scope,
      env: Ast.Env, store: Store)
    requires ExprReady(c, s, e, scope, env, store) && e.BlockExpr?
    ensures BlockReady(c, s, e.block, scope, env, store)
  {
    hide Lowers, Grows, FramesGrow, FramesValid, CodeValid, Sub, Fit, BlockResult, LowerBlock, ContextOk, Ast.BlockFits;
    FitParts(c, s, scope, env, store);
    BlockLowers(s, e.block);
    var r := LowerBlock(s, e.block);
    GrowsTmps(s, r.s);
    BlockResultStart(c, r.s, e.block.ty, r.v);
  }

  lemma {:induction false} BlockExprArrives(c: Context, s: State, e: Ast.Expr, scope: Ast.Scope, env: Ast.Env,
      fuel: nat, store: Store, lost: bool, n: nat, d: Config)
    returns (m: nat, f: Config)
    requires ExprReady(c, s, e, scope, env, store) && e.BlockExpr?
    requires BlockRan(c, s, e.block, scope, Ast.EvalBlock(c.m, e.block, env, fuel),
      Leaks.LeaksBlock(c.m, e.block, env, fuel), fuel, store, lost, n, d)
    ensures ExprRan(c, s, e, scope, Ast.Eval(c.m, e, env, fuel), Leaks.Leaks(c.m, e, env, fuel),
      fuel, store, lost, m, f)
  {
    hide Lowers, Grows, FramesGrow, FramesValid, CodeValid, Added, Within, Runs, ScopeFits, StoreFits, Tracked, Stale,
      Sub, VarsDistinct, Owned, Live, TmpsKept;
    hide Fit, BlockResult, LowerBlock, Yields, Broken, DropsAt, ContextOk, Ast.BlockFits, Take, Read;
    FitParts(c, s, scope, env, store);
    m, f := n, d;
    var o := Ast.EvalBlock(c.m, e.block, env, fuel);
    if o.Void? {
      VoidBlockSticks(c, s, e.block, scope, o, Leaks.LeaksBlock(c.m, e.block, env, fuel), fuel, store, lost, n, d);
      m, f := n + 1, Stuck;
      StuckRan(c, s, e, scope, Leaks.Leaks(c.m, e, env, fuel), fuel, store, lost, m);
    } else if o.Normal? && e.block.ty != e.ty {
      OnlyUnitSlips(c, e.block, e.ty, scope, env, fuel);
      f := BlockResultRuns(c, s, e.block, scope, o, Leaks.LeaksBlock(c.m, e.block, env, fuel), store, lost, n, d, fuel);
      UnitResultIsVoid(c, s, e, scope, o, Leaks.LeaksBlock(c.m, e.block, env, fuel), store, lost, f);
      m := n + 1;
    } else if o.Normal? {
      CompletedBlockFits(c, e.block, e.ty, scope, env, fuel);
      f := BlockResultRuns(c, s, e.block, scope, o, Leaks.LeaksBlock(c.m, e.block, env, fuel), store, lost, n, d, fuel);
      m := n + 1;
    }
  }

  /** The empty result of a block is asked for as the result of another. */
  lemma {:induction false} VoidBlockSticks(c: Context, s: State, b: Ast.Block, scope: Ast.Scope, o: Ast.Outcome,
      leaks: bool, fuel: nat, store: Store, lost: bool, n: nat, d: Config)
    requires ContextOk(c) && Valid(s) && o.Void? && BlockRan(c, s, b, scope, o, leaks, fuel, store, lost, n, d)
    requires var r := LowerBlock(s, b); Sub(c, BlockResult(r.s, b.ty, r.v).s)
    ensures Runs(c, At(s, store, lost), n + 1, Stuck)
  {
    hide Lowers, Grows, FramesGrow, FramesValid, CodeValid, Added, Within, Runs, ScopeFits, StoreFits, Tracked, Stale,
      Sub, VarsDistinct, Owned, Live, TmpsKept;
    hide Fit, LowerBlock, Emit, Valid, AddLive, ContextOk;
    BlockLowers(s, b);
    var r := LowerBlock(s, b);
    GrowsTmps(s, r.s);
    var u, x := UndroppedTmp(r.s).s, Tmp(r.s.tmpIndex);
    var w := EmitAssign(u, Place(x, b.ty), b.ty, r.v);
    ResultInCode(c, r.s, b.ty, r.v);
    EmptyMove(c, r.v.source, b.ty, d.store);
    ValueSticks(c, r.s, u, x, b.ty, r.v, d.store, d.lost);
    RunsJoin(c, At(s, store, lost), n, d, 1, Stuck);
  }

  lemma {:induction false} ResultInCode(c: Context, t: State, ty: Ty, v: Value)
    requires Sub(c, BlockResult(t, ty, v).s) && t.blocks != [] && t.frames != []
    ensures Sub(c, EmitAssign(UndroppedTmp(t).s, Place(Tmp(t.tmpIndex), ty), ty, v))
      && (Tmp(t.tmpIndex), ty) in c.final.vars
  {
    hide Within;
    var w := EmitAssign(UndroppedTmp(t).s, Place(Tmp(t.tmpIndex), ty), ty, v);
    LiveAdd(w, Tmp(t.tmpIndex), ty);
    SubBlocks(c, w, BlockResult(t, ty, v).s);
    SubVars(c, BlockResult(t, ty, v).s, (Tmp(t.tmpIndex), ty));
  }

  /** The result of a block of the unit type is no value of another type. */
  lemma {:induction false} UnitResultIsVoid(c: Context, s: State, e: Ast.Expr, scope: Ast.Scope, o: Ast.Outcome,
      leaks: bool, store: Store, lost: bool, f: Config)
    requires ContextOk(c) && Valid(s) && e.BlockExpr? && o.Normal? && e.block.ty == Unit != e.ty
      && Sub(c, LowerExpr(s, e).s)
    requires Arrived(c, s, LowerExpr(s, e), Unit, scope, o.env, o.val, leaks, store, lost, f)
    ensures ArrivedVoid(c, s, LowerExpr(s, e), e.ty, scope, o.env, leaks, store, lost, f)
  {
    hide Lowers, Grows, FramesGrow, FramesValid, CodeValid, Added, Within, Runs, ScopeFits, StoreFits, Tracked, Stale,
      Sub, VarsDistinct, Owned, Live, TmpsKept;
    hide Fit, LowerBlock, Emit, Valid, AddLive, ContextOk, DropsAt;
    BlockLowers(s, e.block);
    var r := LowerBlock(s, e.block);
    GrowsTmps(s, r.s);
    ResultInCode(c, r.s, Unit, r.v);
    var x := Tmp(r.s.tmpIndex);
    UnitIsEmpty(c, LowerExpr(s, e).s, scope, o.env, f.store, x);
    EmptyMove(c, x, e.ty, f.store);
  }

  lemma {:induction false} BlockResultStart(c: Context, t: State, ty: Ty, v: Value)
    requires Sub(c, BlockResult(t, ty, v).s) && t.blocks != [] && t.frames != []
    ensures Sub(c, t)
  {
    hide Within;
    var u := UndroppedTmp(t).s;
    var x := Tmp(t.tmpIndex);
    var w := EmitAssign(u, Place(x, ty), ty, v);
    LiveAdd(w, x, ty);
    SubBlocks(c, w, BlockResult(t, ty, v).s);
    SubEmit(c, u, Instruction.Assign(Place(x, ty), ty, v));
    SubBlocks(c, t, u);
  }

  lemma {:induction false} AssignExprParts(c: Context, s: State, e: Ast.Expr, scope: Ast.Scope,
      env: Ast.Env, store: Store)
    requires ExprReady(c, s, e, scope, env, store) && e.Assign?
    ensures ExprReady(c, s, e.rhs, scope, env, store) && Ast.Fits(c.m, e.rhs, e.rootTy)
      && e.x in scope && scope[e.x] == e.rootTy
  {
    hide Lowers, Grows, FramesGrow, FramesValid, CodeValid, Sub, Fit, AssignVariable, ContextOk, Ast.Fits;
    FitParts(c, s, scope, env, store);
    ExprLowers(s, e.rhs);
    var r := LowerExpr(s, e.rhs);
    GrowsTmps(s, r.s);
    AssignVariableStart(c, r.s, Place(Explicit(e.x), e.rootTy), Ast.TypeOf(e.rhs), r.v);
  }

  lemma {:induction false} AssignExprArrives(c: Context, s: State, e: Ast.Expr, scope: Ast.Scope, env: Ast.Env,
      fuel: nat, store: Store, lost: bool, n: nat, d: Config)
    returns (m: nat, f: Config)
    requires ExprReady(c, s, e, scope, env, store) && e.Assign?
    requires ExprRan(c, s, e.rhs, scope, Ast.Eval(c.m, e.rhs, env, fuel), Leaks.Leaks(c.m, e.rhs, env, fuel),
      fuel, store, lost, n, d)
    ensures ExprRan(c, s, e, scope, Ast.Eval(c.m, e, env, fuel), Leaks.Leaks(c.m, e, env, fuel),
      fuel, store, lost, m, f)
  {
    hide Lowers, Grows, FramesGrow, FramesValid, CodeValid, Added, Within, Runs, ScopeFits, StoreFits, Tracked, Stale,
      Sub, VarsDistinct, Owned, Live, TmpsKept;
    hide Fit, AssignVariable, Broken, DropsAt, ContextOk, Ast.Fits, Ast.Typed, LowerExpr, ValueOk,
      Valid, Ast.Eval, Leaks.Leaks, Yields, EvalValue, ExprRan;
    AssignExprLowers(s, e);
    AssignEvaluates(c.m, e, env, fuel);
    var place := Place(Explicit(e.x), e.rootTy);
    FitParts(c, s, scope, env, store);
    AssignExprParts(c, s, e, scope, env, store);
    ExprLowers(s, e.rhs);
    var r := LowerExpr(s, e.rhs);
    GrowsTmps(s, r.s);
    m, f := n, d;
    var o := Ast.Eval(c.m, e.rhs, env, fuel);
    if o.Normal? {
      ValueArrived(c, s, e.rhs, scope, o, Leaks.Leaks(c.m, e.rhs, env, fuel), fuel, store, lost, n, d);
      CompletedFits(c, e.rhs, e.rootTy, scope, env, fuel);
      var later, gone := AssignVariableRuns(c, s, r.s, e.x, e.rootTy, r.v, scope, o.env, d.store, d.lost, o.val);
      f := At(LowerExpr(s, e).s, later, gone);
      AssignVariableValue(r.s, place, e.rootTy, r.v);
      UnitYields(c, later);
      RunsJoin(c, At(s, store, lost), n, d, 3, f);
      TmpsKeptJoin(s.tmpIndex, s.tmpIndex, store, d.store, later);
      TrackedJoin(c, DropsAt(c, s, store, lost), DropsAt(c, r.s, d.store, d.lost),
        DropsAt(c, LowerExpr(s, e).s, later, gone),
        Leaks.Leaks(c.m, e.rhs, env, fuel), false);
      m := n + 3;
      UnitRan(c, s, e, scope, o.env[e.x := o.val], Leaks.Leaks(c.m, e, env, fuel), fuel, store, lost, m, f);
    } else if o.Void? {
      AssignVoid(c, s, e, scope, env, fuel, store, lost, n, d);
      m, f := n + 1, Stuck;
    } else {
      StoppedRan(c, s, e.rhs, e, scope, o, Leaks.Leaks(c.m, e, env, fuel), fuel, store, lost, n, d);
    }
  }

  /** An expression of the unit type has been run. */
  lemma {:induction false} UnitRan(c: Context, s: State, e: Ast.Expr, scope: Ast.Scope, env: Ast.Env, leaks: bool,
      fuel: nat, store: Store, lost: bool, n: nat, d: Config)
    requires Runs(c, At(s, store, lost), n, d) && LowerExpr(s, e).v == UNIT_VALUE && Ast.TypeOf(e) == Unit
    requires d.Running? && d == At(LowerExpr(s, e).s, d.store, d.lost) && Fit(c, LowerExpr(s, e).s, scope, env, d.store)
    requires TmpsKept(s.tmpIndex, store, d.store) && Yields(c, UNIT_VALUE, Unit, d.store, UnitVal)
    requires Tracked(c, DropsAt(c, s, store, lost), DropsAt(c, LowerExpr(s, e).s, d.store, d.lost), leaks)
    ensures ExprRan(c, s, e, scope, Ast.Normal(UnitVal, env), leaks, fuel, store, lost, n, d)
  {
    hide Fit, Runs, At, LowerExpr, Added, Tracked, TmpsKept, DropsAt, Yields, Ast.TypeOf;
  }

  lemma {:induction false} UnitYields(c: Context, store: Store)
    ensures Yields(c, UNIT_VALUE, Unit, store, UnitVal) && !UNIT_VALUE.Move?
  {
  }

  lemma {:induction false} AssignVoid(c: Context, s: State, e: Ast.Expr, scope: Ast.Scope, env: Ast.Env, fuel: nat,
      store: Store, lost: bool, n: nat, d: Config)
    requires ExprReady(c, s, e, scope, env, store) && e.Assign? && Ast.Eval(c.m, e.rhs, env, fuel).Void?
    requires ExprRan(c, s, e.rhs, scope, Ast.Eval(c.m, e.rhs, env, fuel), Leaks.Leaks(c.m, e.rhs, env, fuel),
      fuel, store, lost, n, d)
    ensures ExprRan(c, s, e, scope, Ast.Eval(c.m, e, env, fuel), Leaks.Leaks(c.m, e, env, fuel),
      fuel, store, lost, n + 1, Stuck)
  {
    hide Lowers, Grows, FramesGrow, FramesValid, CodeValid, Added, Within, Runs, ScopeFits, StoreFits, Tracked, Stale,
      Sub, VarsDistinct, Owned, Live, TmpsKept;
    hide Fit, AssignVariable, DropsAt, ContextOk, Ast.Fits, Ast.Typed, ExprRan, LowerExpr, Leaks.Leaks, ValueOk;
    var o := Ast.Eval(c.m, e.rhs, env, fuel);
    VoidArrived(c, s, e.rhs, scope, o, Leaks.Leaks(c.m, e.rhs, env, fuel), fuel, store, lost, n, d);
    FitParts(c, s, scope, env, store);
    AssignExprParts(c, s, e, scope, env, store);
    ExprLowers(s, e.rhs);
    var r := LowerExpr(s, e.rhs);
    GrowsTmps(s, r.s);
    CompletedFits(c, e.rhs, e.rootTy, scope, env, fuel);
    AssignExprLowers(s, e);
    AssignSticks(c, r.s, e.rootTy, r.v, Explicit(e.x), d.store, d.lost);
    RunsJoin(c, At(s, store, lost), n, d, 1, Stuck);
    StuckRan(c, s, e, scope, Leaks.Leaks(c.m, e, env, fuel), fuel, store, lost, n + 1);
  }

  lemma {:induction false} AssignEvaluates(m: Machine, e: Ast.Expr, env: Ast.Env, fuel: nat)
    requires e.Assign?
    ensures var o := Ast.Eval(m, e.rhs, env, fuel);
      Ast.Eval(m, e, env, fuel) == if o.Normal? then Ast.Normal(UnitVal, o.env[e.x := o.val]) else Ast.Needed(o)
    ensures Leaks.Leaks(m, e, env, fuel) == Leaks.Leaks(m, e.rhs, env, fuel)
  {
  }

  lemma {:induction false} AssignExprLowers(s: State, e: Ast.Expr)
    requires e.Assign?
    ensures LowerExpr(s, e) ==
      var r := LowerExpr(s, e.rhs); AssignVariable(r.s, Place(Explicit(e.x), e.rootTy), Ast.TypeOf(e.rhs), r.v)
  {
    hide AssignVariable;
  }

  lemma {:induction false} AssignSticks(c: Context, t: State, ty: Ty, v: Value, x: Var, store: Store, lost: bool)
    requires ContextOk(c) && t.blocks != [] && t.frames != [] && Sub(c, AssignVariable(t, Place(x, ty), ty, v).s)
    requires EvalValue(c.m, v, ty, store).None?
    ensures Runs(c, At(t, store, lost), 1, Stuck)
  {
    hide Sub, Emit, ContextOk, Runs;
    VariableStages(c, t, ty, v, x);
    var tmp := Tmp(t.tmpIndex);
    var d := DroppedTmp(t, ty).s;
    var u := if v.Move? then RemoveLive(d, v.source) else d;
    ValueSticks(c, t, u, tmp, ty, v, store, lost);
  }

  lemma {:induction false} AssignVariableValue(t: State, place: Place, ty: Ty, v: Value)
    requires t.blocks != []
    ensures AssignVariable(t, place, ty, v).v == UNIT_VALUE && AssignVariable(t, place, ty, v).s.blocks != []
  {
  }

  lemma {:induction false} AssignVariableStart(c: Context, t: State, place: Place, ty: Ty, v: Value)
    requires Sub(c, AssignVariable(t, place, ty, v).s) && t.blocks != [] && t.frames != []
    ensures Sub(c, t)
  {
    hide Within;
    var tmp := Tmp(t.tmpIndex);
    var u0 := UndroppedTmp(t).s;
    var d := AddLive(u0, tmp, ty);
    LiveAdd(u0, tmp, ty);
    var u := if v.Move? then RemoveLive(d, v.source) else d;
    RemoveKeepsCode(d, if v.Move? then v.source else tmp);
    var a := EmitAssign(u, Place(tmp, ty), ty, v);
    var b := Emit(a, Drop(place, ty));
    var w := RemoveLive(b, tmp);
    RemoveKeepsCode(b, tmp);
    SubEmit(c, w, Instruction.Assign(place, ty, Move(tmp)));
    SubBlocks(c, b, w);
    SubEmit(c, a, Drop(place, ty));
    SubEmit(c, u, Instruction.Assign(Place(tmp, ty), ty, v));
    SubBlocks(c, t, u);
  }

  /** What is known of a strict operator and its operands. */
  lemma {:induction false} BinOpParts(c: Context, s: State, e: Ast.Expr, scope: Ast.Scope, env: Ast.Env, fuel: nat)
    requires Ast.Typed(c.m, e, scope) && e.BinOp? && !e.op.And? && !e.op.Or?
    ensures var tl := Ast.TypeOf(e.left);
      var x := LowerToVar(s, e.left, tl);
      var y := LowerToVar(x.s, e.right, Ast.TypeOf(e.right));
      LowerExpr(s, e) == Lowered(y.s, Value.BinOp(x.x, e.op, tl, y.x))
    ensures Ast.Typed(c.m, e.left, scope) && Ast.Typed(c.m, e.right, scope)
      && Ast.Fits(c.m, e.right, Ast.TypeOf(e.left))
    ensures var o := Ast.Held(e.left, Ast.Eval(c.m, e.left, env, fuel));
      Leaks.Leaks(c.m, e, env, fuel) ==
        (Leaks.Leaks(c.m, e.left, env, fuel) || (Ast.Completes(o) && Leaks.Leaks(c.m, e.right, o.env, fuel)))
    ensures var o := Ast.Held(e.left, Ast.Eval(c.m, e.left, env, fuel));
      Ast.Eval(c.m, e, env, fuel) ==
        if !Ast.Completes(o) then o else
          var p := Ast.Held(e.right, Ast.Eval(c.m, e.right, o.env, fuel));
          if !Ast.Completes(p) then p
          else if o.Normal? && p.Normal? then Ast.Normal(c.m.binop(e.op, o.val, p.val), p.env) else Ast.Void(p.env)
  {
  }

  lemma {:induction false} BinOpStart(c: Context, s: State, e: Ast.Expr, scope: Ast.Scope, env: Ast.Env, store: Store)
    requires ExprReady(c, s, e, scope, env, store) && e.BinOp? && !e.op.And? && !e.op.Or?
    ensures VarReady(c, s, e.left, Ast.TypeOf(e.left), scope, env, store)
  {
    hide Lowers, Grows, FramesGrow, FramesValid, CodeValid, Added, Sub, Fit, LowerToVar, LowerExpr,
      ContextOk, Ast.Fits, Ast.Typed;
    var tl, tr := Ast.TypeOf(e.left), Ast.TypeOf(e.right);
    BinOpParts(c, s, e, scope, env, 0);
    FitParts(c, s, scope, env, store);
    ToVarLowers(s, e.left, tl);
    var x := LowerToVar(s, e.left, tl);
    ToVarLowers(x.s, e.right, tr);
    SubLowered(c, x.s, LowerToVar(x.s, e.right, tr).s);
    FitsItself(c, e.left);
  }

  lemma {:induction false} BinOpNext(c: Context, s: State, e: Ast.Expr, scope: Ast.Scope, env: Ast.Env, fuel: nat,
      store: Store, lost: bool, n: nat, d: Config)
    requires ExprReady(c, s, e, scope, env, store) && e.BinOp? && !e.op.And? && !e.op.Or?
      && Ast.Completes(Ast.Held(e.left, Ast.Eval(c.m, e.left, env, fuel)))
    requires VarRan(c, s, LowerToVar(s, e.left, Ast.TypeOf(e.left)), Ast.TypeOf(e.left), scope,
      Ast.Held(e.left, Ast.Eval(c.m, e.left, env, fuel)), Leaks.Leaks(c.m, e.left, env, fuel), fuel, store, lost, n, d)
    ensures d.Running?
    ensures VarReady(c, LowerToVar(s, e.left, Ast.TypeOf(e.left)).s, e.right, Ast.TypeOf(e.right), scope,
      Ast.Held(e.left, Ast.Eval(c.m, e.left, env, fuel)).env, d.store)
  {
    hide Runs, Tracked, TmpsKept, Added, Sub, Fit, LowerToVar, LowerExpr, ContextOk, Ast.Fits, Ast.Typed, Ast.Eval,
      Leaks.Leaks, DropsAt, At, Read;
    BinOpParts(c, s, e, scope, env, fuel);
    FitsItself(c, e.right);
  }

  lemma {:induction false} BinOpStops(c: Context, s: State, e: Ast.Expr, scope: Ast.Scope, env: Ast.Env, fuel: nat,
      store: Store, lost: bool, n: nat, d: Config)
    requires ExprReady(c, s, e, scope, env, store) && e.BinOp? && !e.op.And? && !e.op.Or?
      && !Ast.Completes(Ast.Held(e.left, Ast.Eval(c.m, e.left, env, fuel)))
    requires VarRan(c, s, LowerToVar(s, e.left, Ast.TypeOf(e.left)), Ast.TypeOf(e.left), scope,
      Ast.Held(e.left, Ast.Eval(c.m, e.left, env, fuel)), Leaks.Leaks(c.m, e.left, env, fuel), fuel, store, lost, n, d)
    ensures ExprRan(c, s, e, scope, Ast.Eval(c.m, e, env, fuel), Leaks.Leaks(c.m, e, env, fuel),
      fuel, store, lost, n, d)
  {
    hide Runs, Tracked, TmpsKept, Added, Sub, Fit, LowerToVar, LowerExpr, ContextOk, Ast.Fits, Ast.Typed, Ast.Eval,
      Leaks.Leaks, DropsAt, At, Broken;
    BinOpParts(c, s, e, scope, env, fuel);
  }

  lemma {:induction false} BinOpArrives(c: Context, s: State, e: Ast.Expr, scope: Ast.Scope, env: Ast.Env, fuel: nat,
      store: Store, lost: bool, n: nat, d: Config, k: nat, f: Config)
    returns (m: nat, g: Config)
    requires ExprReady(c, s, e, scope, env, store) && e.BinOp? && !e.op.And? && !e.op.Or?
      && Ast.Completes(Ast.Held(e.left, Ast.Eval(c.m, e.left, env, fuel))) && d.Running?
    requires VarRan(c, s, LowerToVar(s, e.left, Ast.TypeOf(e.left)), Ast.TypeOf(e.left), scope,
      Ast.Held(e.left, Ast.Eval(c.m, e.left, env, fuel)), Leaks.Leaks(c.m, e.left, env, fuel), fuel, store, lost, n, d)
    requires var x := LowerToVar(s, e.left, Ast.TypeOf(e.left));
      var inner := Ast.Held(e.left, Ast.Eval(c.m, e.left, env, fuel)).env;
      VarRan(c, x.s, LowerToVar(x.s, e.right, Ast.TypeOf(e.right)), Ast.TypeOf(e.right), scope,
        Ast.Held(e.right, Ast.Eval(c.m, e.right, inner, fuel)),
        Leaks.Leaks(c.m, e.right, inner, fuel), fuel, d.store, d.lost, k, f)
    ensures ExprRan(c, s, e, scope, Ast.Eval(c.m, e, env, fuel), Leaks.Leaks(c.m, e, env, fuel),
      fuel, store, lost, m, g)
  {
    hide Lowers, Grows, FramesGrow, FramesValid, CodeValid, Added, Within, Runs, ScopeFits, StoreFits, Tracked, Stale,
      Sub, VarsDistinct, Owned, Live, TmpsKept;
    hide Fit, LowerToVar, LowerExpr, Ast.Eval, Ast.Typed, Ast.Fits, Leaks.Leaks, Broken, DropsAt, ContextOk, Valid,
      Yields, EvalValue, IsAdded, VarRan, Read;
    var tl, tr := Ast.TypeOf(e.left), Ast.TypeOf(e.right);
    BinOpParts(c, s, e, scope, env, fuel);
    FitParts(c, s, scope, env, store);
    ToVarLowers(s, e.left, tl);
    var x := LowerToVar(s, e.left, tl);
    ToVarLowers(x.s, e.right, tr);
    var y := LowerToVar(x.s, e.right, tr);
    m, g := n + k, f;
    var o := Ast.Held(e.left, Ast.Eval(c.m, e.left, env, fuel));
    var p := Ast.Held(e.right, Ast.Eval(c.m, e.right, o.env, fuel));
    GrowsTmps(s, x.s);
    VarsJoin(c, s, x, tl, y, tr, scope, o, p, Leaks.Leaks(c.m, e.left, env, fuel),
      Leaks.Leaks(c.m, e.right, o.env, fuel), fuel, store, lost, n, d, k, f);
    if Ast.Completes(p) {
      FitParts(c, x.s, scope, o.env, d.store);
      CompletedFits(c, e.right, tl, scope, o.env, fuel);
      OperandsEvaluate(c, s, e, x, y, scope, o, p, d.store, f.store);
    }
  }

  /** The second of two variables has been computed after the first. */
  lemma {:induction false} VarsJoin(c: Context, s: State, x: LoweredVar, tx: Ty, y: LoweredVar, ty: Ty,
      scope: Ast.Scope, o: Ast.Outcome, p: Ast.Outcome, leaks: bool, more: bool,
                      fuel: nat, store: Store, lost: bool, n: nat, d: Config, k: nat, f: Config)
    requires Ast.Completes(o) && d.Running? && s.tmpIndex <= x.s.tmpIndex
    requires VarRan(c, s, x, tx, scope, o, leaks, fuel, store, lost, n, d)
      && VarRan(c, x.s, y, ty, scope, p, more, fuel, d.store, d.lost, k, f)
    ensures Runs(c, At(s, store, lost), n + k, f)
    ensures if Ast.Completes(p) then
        && f.Running? && f == At(y.s, f.store, f.lost) && TmpsKept(s.tmpIndex, store, f.store)
        && TmpsKept(x.s.tmpIndex, d.store, f.store) && Fit(c, x.s, scope, o.env, d.store)
          && Fit(c, y.s, scope, p.env, f.store)
        && (if o.Normal? then Read(d.store, x.x, tx) == Some(o.val) && (x.x, tx) in Added(s, x.s)
            else x.x !in d.store && !tx.Unit? && (x.x, Unit) in Added(s, x.s))
        && (if p.Normal? then Read(f.store, y.x, ty) == Some(p.val) else y.x !in f.store && !ty.Unit?)
        && Tracked(c, DropsAt(c, s, store, lost), DropsAt(c, y.s, f.store, f.lost), leaks || more)
      else Broken(c, p, leaks || more, fuel, DropsAt(c, s, store, lost), n + k, f)
  {
    hide Runs, Fit, Tracked, TmpsKept, DropsAt, At, Added, Read, Broken;
    RunsJoin(c, At(s, store, lost), n, d, k, f);
    if Ast.Completes(p) {
      TmpsKeptJoin(s.tmpIndex, x.s.tmpIndex, store, d.store, f.store);
      TrackedJoin(c, DropsAt(c, s, store, lost), DropsAt(c, x.s, d.store, d.lost),
        DropsAt(c, y.s, f.store, f.lost), leaks, more);
    } else {
      BrokenLater(c, p, leaks, more, fuel, DropsAt(c, s, store, lost), DropsAt(c, x.s, d.store, d.lost), k, n, f);
    }
  }

  /** Both operands are in variables: either both have a value, or one of them
      is empty and the operator cannot be evaluated. */
  lemma {:induction false} OperandsEvaluate(c: Context, s: State, e: Ast.Expr, x: LoweredVar, y: LoweredVar,
      scope: Ast.Scope, o: Ast.Outcome, p: Ast.Outcome, store: Store, later: Store)
    requires ContextOk(c) && e.BinOp? && Ast.Completes(o) && Ast.Completes(p)
      && Ast.TypeOf(e.right) == Ast.TypeOf(e.left)
    requires Lowers(s, x.s, {}, {}) && Lowers(x.s, y.s, {}, {}) && Sub(c, y.s) && x.x.Tmp?
    requires TmpsKept(x.s.tmpIndex, store, later) && Fit(c, y.s, scope, p.env, later)
    requires var tl := Ast.TypeOf(e.left);
      && (if o.Normal? then Read(store, x.x, tl) == Some(o.val) && (x.x, tl) in Added(s, x.s)
          else x.x !in store && !tl.Unit? && (x.x, Unit) in Added(s, x.s))
      && (if p.Normal? then Read(later, y.x, tl) == Some(p.val) else y.x !in later && !tl.Unit?)
    ensures var v := Value.BinOp(x.x, e.op, Ast.TypeOf(e.left), y.x);
      if o.Normal? && p.Normal? then Yields(c, v, Ast.TypeOf(e), later, c.m.binop(e.op, o.val, p.val))
      else EvalValue(c.m, v, Ast.TypeOf(e), later).None?
  {
    hide Grows, FramesGrow, Added, Sub, Fit, TmpsKept, Lowers;
    var tl := Ast.TypeOf(e.left);
    if o.Normal? {
      KeptRead(s, x.s, x.x, tl, store, later);
    } else {
      SubLowered(c, x.s, y.s);
      AddedInVars(c, s, x.s);
      UnitIsEmpty(c, y.s, scope, p.env, later, x.x);
    }
  }

  /** A temporary made live since s, read again later. */
  lemma {:induction false} KeptRead(s: State, t: State, x: Var, ty: Ty, store: Store, later: Store)
    requires Lowers(s, t, {}, {}) && x.Tmp? && (x, ty) in Added(s, t) && TmpsKept(t.tmpIndex, store, later)
    requires Read(store, x, ty).Some?
    ensures Read(later, x, ty) == Read(store, x, ty)
  {
  }
}

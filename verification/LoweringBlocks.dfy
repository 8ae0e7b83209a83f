/** Single steps of the simulation of blocks: entering, leaving and dropping
    their frame. */
module LoweringBlocks {
  import opened Collections
  import opened Mir
  import opened Lowering
  import opened LoweringShape
  import opened LoweringStages
  import opened LoweringSim
  import opened LoweringGlue
  import Ast
  import Leaks

  lemma {:induction false} BlockFinalLowers(s: State, b: Ast.Block)
    requires Valid(s)
    ensures var r := BlockFinal(s, b); Lowers(s, r.s, {}, {}) && Valid(r.s) && r.x.Tmp? && IsAdded(s, r.s, r.x)
  {
    hide Grows, FramesGrow, FramesValid, CodeValid, Added;
    if b.last.Some? {
      ToVarLowers(s, b.last.value, b.ty);
    } else {
      LowersSelf(s);
      AssignToVarLowers(s, s, {}, {}, UNIT_VALUE, b.ty);
      LowersValid(s, BlockFinal(s, b).s, {}, {});
    }
  }

  lemma {:induction false} BlockStages(c: Context, s: State, b: Ast.Block)
    requires Valid(s) && Sub(c, LowerBlock(s, b).s)
    ensures var p := PushFrame(s);
      var s1 := LowerStmts(p, b.stmts);
      var f := BlockFinal(s1, b);
      var u := RemoveLive(f.s, f.x);
      && Valid(p) && Live(p.frames) == Live(s.frames)
      && Lowers(p, s1, {}, {}) && Valid(s1)
      && Lowers(s1, f.s, {}, {}) && Valid(f.s) && f.x.Tmp? && Lowers(p, f.s, {}, {})
      && LowerBlock(s, b) == Lowered(if b.diverges then PopFrame(u) else PopAndDrop(u), Move(f.x))
      && u.blocks != [] && Sub(c, u) && Sub(c, f.s) && Sub(c, s1) && Valid(LowerBlock(s, b).s)
      && LowerBlock(s, b).s.frames == s.frames && LowerBlock(s, b).s.returnType == s.returnType
        && LowerBlock(s, b).s.blocks != []
  {
    hide Grows, FramesGrow, FramesValid, CodeValid, Added, Sub, Live, Emit;
    var p := PushFrame(s);
    PushValid(s);
    BlockLowers(s, b);
    GrowsTmps(s, LowerBlock(s, b).s);
    StmtsLower(p, b.stmts);
    var s1 := LowerStmts(p, b.stmts);
    BlockFinalLowers(s1, b);
    var f := BlockFinal(s1, b);
    LowersJoin(p, s1, f.s, {}, {});
    GrowsTmps(s1, f.s);
    var u := RemoveLive(f.s, f.x);
    RemoveKeepsCode(f.s, f.x);
    if !b.diverges {
      EmitDropsStart(c, PopFrame(u), TopFrame(u));
    }
    SubBlocks(c, u, PopFrame(u));
    SubBlocks(c, f.s, u);
    SubLowered(c, s1, f.s);
  }

  lemma {:induction false} BlockStart(c: Context, s: State, b: Ast.Block, scope: Ast.Scope, env: Ast.Env, store: Store)
    requires BlockReady(c, s, b, scope, env, store)
    ensures StmtsReady(c, PushFrame(s), b.stmts, scope, env, store)
  {
    hide Lowers, Sub, Live, Fit, LowerBlock, LowerStmts, BlockFinal, RemoveLive, PopFrame, PopAndDrop,
      ContextOk, Valid, Ast.TypedStmts;
    FitParts(c, s, scope, env, store);
    BlockStages(c, s, b);
    FitLive(c, s, PushFrame(s), scope, env, store);
  }

  /** The statements of a block have run. */
  lemma {:induction false} BlockNext(c: Context, s: State, b: Ast.Block, scope: Ast.Scope, env: Ast.Env, fuel: nat,
      store: Store, lost: bool, n: nat, d: Config)
    requires BlockReady(c, s, b, scope, env, store) && Ast.EvalStmts(c.m, b.stmts, env, fuel).Normal?
    requires StmtsRan(c, PushFrame(s), LowerStmts(PushFrame(s), b.stmts), Ast.ScopeAfter(b.stmts, scope),
      Ast.EvalStmts(c.m, b.stmts, env, fuel), Leaks.LeaksStmts(c.m, b.stmts, env, fuel), fuel, store, lost, n, d)
    ensures d.Running? && LastReady(c, LowerStmts(PushFrame(s), b.stmts), b, Ast.ScopeAfter(b.stmts, scope),
      Ast.EvalStmts(c.m, b.stmts, env, fuel).env, d.store)
  {
    hide Lowers, Sub, Live, Fit, LowerBlock, LowerStmts, BlockFinal, RemoveLive, PopFrame, PopAndDrop, ContextOk,
      Valid, Runs, Tracked, TmpsKept;
    hide Ast.TypedStmts, Ast.EvalStmts, Ast.Typed, Leaks.LeaksStmts, DropsAt, At;
    FitParts(c, s, scope, env, store);
    BlockStages(c, s, b);
  }

  lemma {:induction false} BlockStops(c: Context, s: State, b: Ast.Block, scope: Ast.Scope, env: Ast.Env, fuel: nat,
      store: Store, lost: bool, n: nat, d: Config)
    requires BlockReady(c, s, b, scope, env, store) && !Ast.EvalStmts(c.m, b.stmts, env, fuel).Normal?
    requires StmtsRan(c, PushFrame(s), LowerStmts(PushFrame(s), b.stmts), Ast.ScopeAfter(b.stmts, scope),
      Ast.EvalStmts(c.m, b.stmts, env, fuel), Leaks.LeaksStmts(c.m, b.stmts, env, fuel), fuel, store, lost, n, d)
    ensures BlockRan(c, s, b, scope, Ast.EvalBlock(c.m, b, env, fuel), Leaks.LeaksBlock(c.m, b, env, fuel),
      fuel, store, lost, n, d)
  {
    hide Lowers, Sub, Live, Fit, LowerBlock, LowerStmts, BlockFinal, RemoveLive, PopFrame, PopAndDrop, ContextOk,
      Valid, Runs, Tracked, TmpsKept;
    hide Ast.TypedStmts, Ast.EvalStmts, Ast.EvalBlock, Leaks.LeaksStmts, Leaks.LeaksBlock, Leaks.Holds,
      LastLeaks, BlockLast, DropsAt, Broken;
    FitParts(c, s, scope, env, store);
    BlockStages(c, s, b);
    BlockParts(c.m, b, env, fuel);
    SameDrops(c, s, PushFrame(s), store, lost);
  }

  /** A block whose statements have completed. */
  lemma {:induction false} BlockArrives(c: Context, s: State, b: Ast.Block, scope: Ast.Scope, env: Ast.Env, fuel: nat,
      store: Store, lost: bool, n: nat, d: Config, k: nat, f: Config)
    returns (m: nat, g: Config)
    requires BlockReady(c, s, b, scope, env, store) && Ast.EvalStmts(c.m, b.stmts, env, fuel).Normal? && d.Running?
    requires StmtsRan(c, PushFrame(s), LowerStmts(PushFrame(s), b.stmts), Ast.ScopeAfter(b.stmts, scope),
      Ast.EvalStmts(c.m, b.stmts, env, fuel), Leaks.LeaksStmts(c.m, b.stmts, env, fuel), fuel, store, lost, n, d)
    requires VarRan(c, LowerStmts(PushFrame(s), b.stmts), BlockFinal(LowerStmts(PushFrame(s), b.stmts), b), b.ty,
      Ast.ScopeAfter(b.stmts, scope), BlockLast(c.m, b, Ast.EvalStmts(c.m, b.stmts, env, fuel).env, fuel),
      LastLeaks(c.m, b, Ast.EvalStmts(c.m, b.stmts, env, fuel).env, fuel), fuel, d.store, d.lost, k, f)
    ensures BlockRan(c, s, b, scope, Ast.EvalBlock(c.m, b, env, fuel), Leaks.LeaksBlock(c.m, b, env, fuel),
      fuel, store, lost, m, g)
  {
    hide *;
    var s1 := LowerStmts(PushFrame(s), b.stmts);
    var q := BlockLast(c.m, b, Ast.EvalStmts(c.m, b.stmts, env, fuel).env, fuel);
    BlockJoins(c, s, b, scope, env, fuel, store, lost, n, d, k, f);
    Ast.CompletesIs(q);
    if q.Normal? || q.Void? {
      var final := BlockFinal(s1, b);
      var leaks := Leaks.LeaksStmts(c.m, b.stmts, env, fuel)
        || LastLeaks(c.m, b, Ast.EvalStmts(c.m, b.stmts, env, fuel).env, fuel);
      var j;
      j, g := BlockExitRuns(c, s, b, s1, final, ResultType(b, q), scope, q.env, store, f.store, f.lost, ResultOf(q));
      m := n + k + j;
      BlockEnds(c, s, b, scope, env, fuel, store, lost, n + k, f, j, g, DropsAt(c, final.s, f.store, f.lost), leaks);
    } else {
      m, g := n + k, f;
    }
  }

  /** The type with which the result of a block is live, and its value. */
  function ResultType(b: Ast.Block, q: Ast.Outcome): Ty {
    if q.Normal? then b.ty else Unit
  }

  function ResultOf(q: Ast.Outcome): Val {
    if q.Normal? then q.val else UnitVal
  }

  /** What is known once the last expression of a block has run. */
  lemma {:induction false} BlockJoins(c: Context, s: State, b: Ast.Block, scope: Ast.Scope, env: Ast.Env, fuel: nat,
      store: Store, lost: bool, n: nat, d: Config, k: nat, f: Config)
    requires BlockReady(c, s, b, scope, env, store) && Ast.EvalStmts(c.m, b.stmts, env, fuel).Normal? && d.Running?
    requires StmtsRan(c, PushFrame(s), LowerStmts(PushFrame(s), b.stmts), Ast.ScopeAfter(b.stmts, scope),
      Ast.EvalStmts(c.m, b.stmts, env, fuel), Leaks.LeaksStmts(c.m, b.stmts, env, fuel), fuel, store, lost, n, d)
    requires VarRan(c, LowerStmts(PushFrame(s), b.stmts), BlockFinal(LowerStmts(PushFrame(s), b.stmts), b), b.ty,
      Ast.ScopeAfter(b.stmts, scope), BlockLast(c.m, b, Ast.EvalStmts(c.m, b.stmts, env, fuel).env, fuel),
      LastLeaks(c.m, b, Ast.EvalStmts(c.m, b.stmts, env, fuel).env, fuel), fuel, d.store, d.lost, k, f)
    ensures var q := BlockLast(c.m, b, Ast.EvalStmts(c.m, b.stmts, env, fuel).env, fuel);
      var s1 := LowerStmts(PushFrame(s), b.stmts);
      var final := BlockFinal(s1, b);
      var leaks := Leaks.LeaksStmts(c.m, b.stmts, env, fuel)
        || LastLeaks(c.m, b, Ast.EvalStmts(c.m, b.stmts, env, fuel).env, fuel);
      if Ast.Completes(q) then
        && f.Running? && ContextOk(c) && Valid(s) && s.returnType == c.m.returnType && Sub(c, LowerBlock(s, b).s)
        && ScopeFits(scope, Live(s.frames)) && Ast.TypedStmts(c.m, b.stmts, scope)
        && Fit(c, final.s, Ast.ScopeAfter(b.stmts, scope), q.env, f.store) && TmpsKept(s.tmpIndex, store, f.store)
        && Read(f.store, final.x, ResultType(b, q)) == Some(ResultOf(q))
          && (final.x, ResultType(b, q)) in Added(s1, final.s)
        && (q.Void? ==> !b.ty.Unit?)
        && Runs(c, At(s, store, lost), n + k, At(final.s, f.store, f.lost))
        && Tracked(c, DropsAt(c, s, store, lost), DropsAt(c, final.s, f.store, f.lost), leaks)
      else BlockRan(c, s, b, scope, Ast.EvalBlock(c.m, b, env, fuel), Leaks.LeaksBlock(c.m, b, env, fuel),
        fuel, store, lost, n + k, f)
  {
    hide Lowers, Grows, FramesGrow, FramesValid, CodeValid, Added, Within, Runs, ScopeFits, StoreFits, Tracked, Stale,
      Sub, VarsDistinct, Owned, Live, TmpsKept;
    hide Fit, LowerBlock, LowerStmts, BlockFinal, RemoveLive, PopFrame, PopAndDrop, ContextOk, Valid, Read;
    hide Ast.TypedStmts, Ast.EvalStmts, Ast.EvalBlock, Leaks.LeaksStmts, Leaks.LeaksBlock, Leaks.Holds,
      LastLeaks, BlockLast, DropsAt, Broken;
    FitParts(c, s, scope, env, store);
    BlockStages(c, s, b);
    BlockParts(c.m, b, env, fuel);
    var p := PushFrame(s);
    var s1 := LowerStmts(p, b.stmts);
    var q := BlockLast(c.m, b, Ast.EvalStmts(c.m, b.stmts, env, fuel).env, fuel);
    var leaks, more := Leaks.LeaksStmts(c.m, b.stmts, env, fuel),
      LastLeaks(c.m, b, Ast.EvalStmts(c.m, b.stmts, env, fuel).env, fuel);
    SameDrops(c, s, p, store, lost);
    RunsJoin(c, At(s, store, lost), n, d, k, f);
    if Ast.Completes(q) {
      if q.Void? { UnitReads(f.store, BlockFinal(s1, b).x); }
      GrowsTmps(p, s1);
      TmpsKeptJoin(s.tmpIndex, s1.tmpIndex, store, d.store, f.store);
      TrackedJoin(c, DropsAt(c, s, store, lost), DropsAt(c, s1, d.store, d.lost),
        DropsAt(c, BlockFinal(s1, b).s, f.store, f.lost), leaks, more);
    } else {
      BrokenLater(c, q, leaks, more, fuel, DropsAt(c, s, store, lost), DropsAt(c, s1, d.store, d.lost), k, n, f);
    }
  }

  /** The frame of a block that completed has been left. */
  lemma {:induction false} BlockEnds(c: Context, s: State, b: Ast.Block, scope: Ast.Scope, env: Ast.Env, fuel: nat,
      store: Store, lost: bool, n: nat, f: Config, j: nat, g: Config, a: Drops, leaks: bool)
    requires ContextOk(c)
    requires var o := Ast.EvalStmts(c.m, b.stmts, env, fuel);
      o.Normal? && Ast.Completes(BlockLast(c.m, b, o.env, fuel))
        && (BlockLast(c.m, b, o.env, fuel).Void? ==> !b.ty.Unit?)
    requires var o := Ast.EvalStmts(c.m, b.stmts, env, fuel);
      leaks == (Leaks.LeaksStmts(c.m, b.stmts, env, fuel) || LastLeaks(c.m, b, o.env, fuel))
    requires var q := BlockLast(c.m, b, Ast.EvalStmts(c.m, b.stmts, env, fuel).env, fuel);
      BlockLeft(c, s, b, ResultType(b, q), a, scope, q.env, store, ResultOf(q), g)
    requires f.Running? && Tracked(c, DropsAt(c, s, store, lost), a, leaks)
    requires var final := BlockFinal(LowerStmts(PushFrame(s), b.stmts), b);
      Runs(c, At(s, store, lost), n, At(final.s, f.store, f.lost)) && Runs(c, At(final.s, f.store, f.lost), j, g)
    ensures BlockRan(c, s, b, scope, Ast.EvalBlock(c.m, b, env, fuel), Leaks.LeaksBlock(c.m, b, env, fuel),
      fuel, store, lost, n + j, g)
  {
    hide Fit, LowerBlock, LowerStmts, BlockFinal, Runs, Tracked, TmpsKept, Read, Take;
    hide Ast.EvalStmts, Ast.EvalBlock, Leaks.LeaksStmts, Leaks.LeaksBlock, Leaks.Holds, LastLeaks,
      BlockLast, DropsAt, Broken, At;
    BlockParts(c.m, b, env, fuel);
    var final := BlockFinal(LowerStmts(PushFrame(s), b.stmts), b);
    RunsJoin(c, At(s, store, lost), n, At(final.s, f.store, f.lost), j, g);
    var q := BlockLast(c.m, b, Ast.EvalStmts(c.m, b.stmts, env, fuel).env, fuel);
    BlockTracked(c, s, b, ResultType(b, q), DropsAt(c, s, store, lost), a, g, leaks);
    if q.Void? {
      var r := LowerBlock(s, b);
      UnitReads(g.store, r.v.source);
      UnitIsEmpty(c, r.s, scope, q.env, g.store, r.v.source);
    }
  }

  lemma {:induction false} BlockTracked(c: Context, s: State, b: Ast.Block, ty: Ty, a: Drops,
      f: Drops, g: Config, leaks: bool)
    requires g.Running? && LowerBlock(s, b).v.Move?
    requires var r := LowerBlock(s, b);
      Tracked(c, a, f, leaks)
        && Tracked(c, f, DropsAt(c, r.s, Take(g.store, r.v.source, ty), g.lost), b.diverges && Leaks.Holds(b))
    ensures var r := LowerBlock(s, b);
      Tracked(c, a, DropsAt(c, r.s, Take(g.store, r.v.source, ty), g.lost), leaks || (b.diverges && Leaks.Holds(b)))
  {
    hide LowerBlock, Stale, Leaks.Holds;
  }

  function BlockLast(m: Machine, b: Ast.Block, env: Ast.Env, fuel: nat): Ast.Outcome {
    if b.last.Some? then Ast.Held(b.last.value, Ast.Eval(m, b.last.value, env, fuel)) else Ast.Normal(UnitVal, env)
  }

  predicate LastLeaks(m: Machine, b: Ast.Block, env: Ast.Env, fuel: nat) {
    b.last.Some? && Leaks.Leaks(m, b.last.value, env, fuel)
  }

  /** What is known of a block and its parts. */
  lemma {:induction false} BlockParts(m: Machine, b: Ast.Block, env: Ast.Env, fuel: nat)
    ensures var o := Ast.EvalStmts(m, b.stmts, env, fuel);
      Ast.EvalBlock(m, b, env, fuel) == (if o.Normal? then BlockLast(m, b, o.env, fuel) else o)
    ensures var o := Ast.EvalStmts(m, b.stmts, env, fuel);
      Leaks.LeaksBlock(m, b, env, fuel) ==
        if !o.Normal? then Leaks.LeaksStmts(m, b.stmts, env, fuel)
        else
          || Leaks.LeaksStmts(m, b.stmts, env, fuel) || LastLeaks(m, b, o.env, fuel)
          || (b.diverges && Leaks.Holds(b) && Ast.Completes(BlockLast(m, b, o.env, fuel)))
    ensures Ast.EvalStmts(m, b.stmts, env, fuel).Normal? ==> Ast.EvalStmts(m, b.stmts, env, fuel).val == UnitVal
  {
    StmtsYieldUnit(m, b.stmts, env, fuel);
  }

  lemma {:induction false} StmtsYieldUnit(m: Machine, stmts: seq<Ast.Stmt>, env: Ast.Env, fuel: nat)
    ensures var o := Ast.EvalStmts(m, stmts, env, fuel); o.Normal? ==> o.val == UnitVal
    decreases |stmts|
  {
    if stmts != [] {
      var o := Ast.EvalStmt(m, stmts[0], env, fuel);
      if o.Normal? { StmtsYieldUnit(m, stmts[1..], o.env, fuel); }
    }
  }

  ghost predicate LastReady(c: Context, s1: State, b: Ast.Block, inner: Ast.Scope, env: Ast.Env, store: Store) {
    && Ready(c, s1, inner, env, store) && Sub(c, BlockFinal(s1, b).s)
    && if b.last.Some? then
         && Ast.Typed(c.m, b.last.value, inner) && Ast.TypeOf(b.last.value) == b.ty
         && HeadsOf(s1, b.last.value) <= c.heads
       else b.ty == Unit
  }

  lemma {:induction false} LastParts(c: Context, s1: State, b: Ast.Block, inner: Ast.Scope,
      env: Ast.Env, store: Store, fuel: nat)
    requires LastReady(c, s1, b, inner, env, store) && b.last.Some?
    ensures VarReady(c, s1, b.last.value, b.ty, inner, env, store) && BlockFinal(s1, b) ==
      LowerToVar(s1, b.last.value, b.ty)
    ensures BlockLast(c.m, b, env, fuel) == Ast.Held(b.last.value, Ast.Eval(c.m, b.last.value, env, fuel))
    ensures LastLeaks(c.m, b, env, fuel) == Leaks.Leaks(c.m, b.last.value, env, fuel)
  {
    hide Sub, Fit, ContextOk, Ast.Typed, Ast.Eval, Leaks.Leaks, LowerToVar;
    FitsItself(c, b.last.value);
  }

  /** A block without a last expression has the unit value. */
  lemma {:induction false} NoLastRuns(c: Context, s1: State, b: Ast.Block, inner: Ast.Scope, env: Ast.Env,
      store: Store, lost: bool, fuel: nat)
    returns (n: nat, d: Config)
    requires LastReady(c, s1, b, inner, env, store) && b.last.None?
    ensures VarRan(c, s1, BlockFinal(s1, b), b.ty, inner, BlockLast(c.m, b, env, fuel), LastLeaks(c.m, b, env, fuel),
      fuel, store, lost, n, d)
  {
    hide Grows, FramesGrow, FramesValid, CodeValid, Added, Within, Runs, ScopeFits, StoreFits, Tracked, Stale, Sub,
      VarsDistinct, Owned, Live, TmpsKept;
    hide AssignToVar, DropsAt;
    FitParts(c, s1, inner, env, store);
    LowersSelf(s1);
    BlockFinalLowers(s1, b);
    GrowsTmps(s1, BlockFinal(s1, b).s);
    var later, gone;
    n, later, gone := AssignToVarRuns(c, s1, s1, UNIT_VALUE, Unit, inner, env, store, lost, UnitVal);
    d := At(BlockFinal(s1, b).s, later, gone);
  }

  /** The frame of a block has been left; its result is in a temporary.  The
      rest of the frame has been dropped, unless the block is flagged. */
  ghost predicate BlockLeft(c: Context, s: State, b: Ast.Block, ty: Ty, a: Drops, scope: Ast.Scope, env: Ast.Env,
      first: Store, val: Val, d: Config) {
    var r := LowerBlock(s, b);
    && d.Running? && d == At(r.s, d.store, d.lost)
    && r.v.Move? && r.v.source.Tmp? && Read(d.store, r.v.source, ty) == Some(val)
    && Fit(c, r.s, scope, env, Take(d.store, r.v.source, ty))
    && TmpsKept(s.tmpIndex, first, Take(d.store, r.v.source, ty))
    && (r.v.source, ty) in c.final.vars
    && Tracked(c, a, DropsAt(c, r.s, Take(d.store, r.v.source, ty), d.lost), b.diverges && Leaks.Holds(b))
  }

  lemma {:induction false} BlockExitRuns(c: Context, s: State, b: Ast.Block, s1: State, f: LoweredVar, ty: Ty,
      scope: Ast.Scope, env: Ast.Env, first: Store, store: Store, lost: bool, val: Val)
    returns (n: nat, d: Config)
    requires ContextOk(c) && Valid(s) && s.returnType == c.m.returnType && Sub(c, LowerBlock(s, b).s)
    requires ScopeFits(scope, Live(s.frames)) && Ast.TypedStmts(c.m, b.stmts, scope)
    requires s1 == LowerStmts(PushFrame(s), b.stmts) && f == BlockFinal(s1, b)
    requires Fit(c, f.s, Ast.ScopeAfter(b.stmts, scope), env, store) && TmpsKept(s.tmpIndex, first, store)
    requires Read(store, f.x, ty) == Some(val) && (f.x, ty) in Added(s1, f.s)
    ensures Runs(c, At(f.s, store, lost), n, d)
      && BlockLeft(c, s, b, ty, DropsAt(c, f.s, store, lost), scope, env, first, val, d)
  {
    hide Lowers, Grows, FramesGrow, FramesValid, CodeValid, Added, Within, Runs, ScopeFits, StoreFits, Tracked, Stale,
      Sub, VarsDistinct, Owned, Live, TmpsKept;
    hide LowerBlock, LowerStmts, BlockFinal, RemoveLive, PopFrame, Fit, EmitDrops, TopFrame, Leaks.Holds, DropsAt;
    BlockStages(c, s, b);
    var p := PushFrame(s);
    var inner := Ast.ScopeAfter(b.stmts, scope);
    AddedIsNew(s1, f.s, f.x, ty);
    AddedInVars(c, s1, f.s);
    GrowsTmps(p, s1);
    RemoveRuns(c, s1, f.s, inner, env, store, f.x, ty);
    var u := RemoveLive(f.s, f.x);
    LowersJoin(p, s1, u, {}, {});
    PoppedLive(s, u);
    OwnedSplit(Live(s.frames), TopFrame(u));
    TakeKeepsTmps(s.tmpIndex, first, store, f.x, ty);
    if b.diverges {
      n, d := 0, At(LowerBlock(s, b).s, store, lost);
      RunsSelf(c, d);
      SkipExit(c, s, b, s1, f, ty, u, scope, env, Take(store, f.x, ty), lost);
    } else {
      n, d := DropExit(c, s, b, u, f.x, ty, scope, env, store, lost);
      PoppedStore(store, f.x, ty, Owned(TopFrame(u)));
      DropKeepsTmps(s.tmpIndex, u.tmpIndex, first, Take(store, f.x, ty), TopFrame(u));
    }
  }

  /** Out of a block that is not flagged: its frame is dropped. */
  lemma {:induction false} DropExit(c: Context, s: State, b: Ast.Block, u: State, x: Var, ty: Ty, scope: Ast.Scope,
      env: Ast.Env, store: Store, lost: bool)
    returns (n: nat, d: Config)
    requires ContextOk(c) && Valid(s) && s.returnType == c.m.returnType && Sub(c, LowerBlock(s, b).s) && !b.diverges
    requires ScopeFits(scope, Live(s.frames)) && Ast.TypedStmts(c.m, b.stmts, scope)
    requires u.blocks != [] && Valid(LowerBlock(s, b).s) && LowerBlock(s, b).s.frames == s.frames
      && LowerBlock(s, b).s.returnType == s.returnType
    requires LowerBlock(s, b).s == PopAndDrop(u) == EmitDrops(PopFrame(u), TopFrame(u))
      && PopFrame(u).blocks == u.blocks
    requires Live(u.frames) == Live(s.frames) + TopFrame(u) && LowerBlock(s, b).s.blocks != []
    requires Fit(c, u, Ast.ScopeAfter(b.stmts, scope), env, Take(store, x, ty))
    requires VarsDistinct(Live(u.frames)) && Owned(Live(u.frames)) <= store.Keys && x !in Owned(Live(u.frames))
    ensures Runs(c, At(u, store, lost), n, d) && d == At(LowerBlock(s, b).s, store - Owned(TopFrame(u)), lost)
    ensures Fit(c, LowerBlock(s, b).s, scope, env, Take(store, x, ty) - Owned(TopFrame(u)))
    ensures Tracked(c, DropsAt(c, u, Take(store, x, ty), lost),
      DropsAt(c, LowerBlock(s, b).s, Take(store, x, ty) - Owned(TopFrame(u)), lost), false)
  {
    hide Lowers, Grows, FramesGrow, FramesValid, CodeValid, Added, Within, Runs, ScopeFits, StoreFits, Tracked, Stale,
      Sub, VarsDistinct, Owned, Live;
    hide LowerBlock, PopFrame, Fit, EmitDrops, TopFrame, Valid, ContextOk, PopAndDrop;
    var top, t := TopFrame(u), LowerBlock(s, b).s;
    var left := Take(store, x, ty);
    Ast.ScopeGrows(c.m, b.stmts, scope);
    ExitFits(c, s, u, t, Ast.ScopeAfter(b.stmts, scope), scope, env, left);
    OwnedSplit(Live(s.frames), top);
    OwnedDisjoint(Live(s.frames), top);
    n := DropsRun(c, PopFrame(u), top, store, lost);
    d := At(t, store - Owned(top), lost);
    StaleDropped(c, Owned(Live(u.frames)), Owned(top), left);
    assert Owned(Live(u.frames)) - Owned(top) == Owned(Live(s.frames));
    TrackedSame(c, DropsAt(c, u, left, lost));
  }

  /** Out of a flagged block: its frame is forgotten. */
  lemma {:induction false} SkipExit(c: Context, s: State, b: Ast.Block, s1: State, f: LoweredVar, ty: Ty, u: State,
      scope: Ast.Scope, env: Ast.Env, left: Store, lost: bool)
    requires ContextOk(c) && Valid(s) && s.returnType == c.m.returnType && Sub(c, u)
    requires ScopeFits(scope, Live(s.frames)) && Ast.TypedStmts(c.m, b.stmts, scope)
    requires s1 == LowerStmts(PushFrame(s), b.stmts) && f == BlockFinal(s1, b) && u == RemoveLive(f.s, f.x)
    requires (f.x, ty) in Added(s1, f.s) && f.x.Tmp?
    requires Lowers(s1, u, {}, {}) && Lowers(PushFrame(s), u, {}, {})
    requires Valid(LowerBlock(s, b).s) && LowerBlock(s, b).s.frames == s.frames
      && LowerBlock(s, b).s.returnType == s.returnType
    requires Live(u.frames) == Live(s.frames) + TopFrame(u)
    requires Fit(c, u, Ast.ScopeAfter(b.stmts, scope), env, left)
    ensures Fit(c, LowerBlock(s, b).s, scope, env, left)
    ensures Tracked(c, DropsAt(c, u, left, lost), DropsAt(c, LowerBlock(s, b).s, left, lost), Leaks.Holds(b))
  {
    hide Lowers, Grows, FramesGrow, FramesValid, CodeValid, Added, Within, ScopeFits, StoreFits, Tracked, Stale, Sub,
      VarsDistinct, Owned, Live, TmpsKept;
    hide LowerBlock, LowerStmts, BlockFinal, RemoveLive, Fit, TopFrame, Leaks.Holds, PlainFrame, Valid, ContextOk;
    var p, top := PushFrame(s), TopFrame(u);
    Ast.ScopeGrows(c.m, b.stmts, scope);
    SkipFits(c, s, u, LowerBlock(s, b).s, Ast.ScopeAfter(b.stmts, scope), scope, env, left);
    PushedTop(s, u);
    AddedInVars(c, p, u);
    TrackedForget(c, Live(s.frames), top, left, lost);
    HoldsIsExact(s, b, s1, f, ty, u);
  }

  lemma {:induction false} PushedTop(s: State, u: State)
    ensures Added(PushFrame(s), u) == TopFrame(u)
  {
  }

  /** The store fits the outer frames even if the inner frame is not dropped. */
  lemma {:induction false} SkipFits(c: Context, s: State, u: State, t: State, inner: Ast.Scope, outer: Ast.Scope,
      env: Ast.Env, store: Store)
    requires Fit(c, u, inner, env, store) && Live(u.frames) == Live(s.frames) + TopFrame(u)
    requires ScopeFits(outer, Live(s.frames)) && forall n :: n in outer ==> n in inner && inner[n] == outer[n]
    requires Valid(t) && t.frames == s.frames && t.returnType == c.m.returnType
    ensures Fit(c, t, outer, env, store) && VarsDistinct(Live(u.frames)) && Owned(Live(u.frames)) <= store.Keys
  {
    hide VarsDistinct, Owned, Live, Valid;
    OwnedSplit(Live(s.frames), TopFrame(u));
    forall n | n in outer && !outer[n].Unit?
      ensures Explicit(n) in Owned(Live(s.frames))
    {
      OwnedMember(Live(s.frames), Explicit(n), outer[n]);
    }
  }

  /** The frame of a block holds something managed besides the result if and
      only if Holds says so. */
  lemma {:induction false} HoldsIsExact(s: State, b: Ast.Block, s1: State, f: LoweredVar, ty: Ty, u: State)
    requires Valid(s) && s1 == LowerStmts(PushFrame(s), b.stmts) && f == BlockFinal(s1, b) && u == RemoveLive(f.s, f.x)
    requires f.x.Tmp? && (f.x, ty) in Added(s1, f.s)
    ensures PlainFrame(Added(PushFrame(s), u)) <==> !Leaks.Holds(b)
  {
    hide Lowers, Grows, FramesGrow, FramesValid, CodeValid, Added, LowerStmts, LowerToVar, RemoveLive, Valid,
      PlainFrame, Leaks.RestOf, Leaks.Rest, Leaks.InVar;
    var p := PushFrame(s);
    PushValid(s);
    StmtsLower(p, b.stmts);
    StmtsRestIsExact(p, b.stmts);
    BlockFinalLowers(s1, b);
    RemoveLiveLowers(s1, f.s, {}, {}, f.x, ty);
    LowersJoin(p, s1, u, {}, {});
    PlainJoin(Added(p, s1), Added(s1, u));
    if b.last.Some? {
      InVarIsExact(s1, b.last.value, b.ty);
    } else {
      LowersSelf(s1);
      AssignToVarLowers(s1, s1, {}, {}, UNIT_VALUE, b.ty);
      WithoutNew(s1, s1, f.x, b.ty);
      PlainNone();
    }
  }

  lemma {:induction false} PlainNone()
    ensures PlainFrame([])
  {
  }

  lemma {:induction false} PoppedLive(s: State, u: State)
    requires Valid(s) && Lowers(PushFrame(s), u, {}, {})
    ensures PopFrame(u).frames == s.frames && PopFrame(u).blocks == u.blocks && u.blocks != []
    ensures PopAndDrop(u) == EmitDrops(PopFrame(u), TopFrame(u)) && Live(u.frames) == Live(s.frames) + TopFrame(u)
    ensures TmpsBetween(TopFrame(u), s.tmpIndex, u.tmpIndex)
  {
    LowersSelf(s);
    PopLowers(s, s, u, {}, {});
    assert TopFrame(u) == Added(PushFrame(s), u);
    assert PushFrame(s).frames[..|s.frames|] == s.frames;
  }

  /** The store once the frame of a block has been dropped. */
  lemma {:induction false} ExitFits(c: Context, s: State, u: State, t: State, inner: Ast.Scope, outer: Ast.Scope,
      env: Ast.Env, store: Store)
    requires Fit(c, u, inner, env, store) && Live(u.frames) == Live(s.frames) + TopFrame(u)
    requires ScopeFits(outer, Live(s.frames)) && forall n :: n in outer ==> n in inner && inner[n] == outer[n]
    requires Valid(t) && t.frames == s.frames && t.returnType == c.m.returnType
    ensures VarsDistinct(TopFrame(u)) && Owned(TopFrame(u)) <= store.Keys
    ensures Fit(c, t, outer, env, store - Owned(TopFrame(u)))
  {
    hide ScopeFits, StoreFits, VarsDistinct, Owned, Live, Valid;
    PopFits(c, inner, outer, Live(s.frames), TopFrame(u), env, store);
  }

  lemma {:induction false} DropKeepsTmps(k: nat, high: nat, store: Store, later: Store, top: Frame)
    requires TmpsKept(k, store, later) && TmpsBetween(top, k, high)
    ensures TmpsKept(k, store, later - Owned(top))
  {
    forall i | 0 <= i < k
      ensures Tmp(i) !in Owned(top)
    {
    }
  }

  lemma {:induction false} PoppedStore(store: Store, x: Var, ty: Ty, top: set<Var>)
    requires x !in top
    ensures Take(store - top, x, ty) == Take(store, x, ty) - top && Read(store - top, x, ty) == Read(store, x, ty)
  {
  }
}

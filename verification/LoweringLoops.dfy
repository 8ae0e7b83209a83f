/** Single steps of the simulation of while. */
module LoweringLoops {
  import opened Collections
  import opened Mir
  import opened Lowering
  import opened LoweringShape
  import opened LoweringStages
  import opened LoweringSim
  import opened LoweringGlue
  import opened LoweringBlocks
  import Ast
  import Leaks

  ghost predicate LoopOk(c: Context, s: State, e: Ast.Expr, g: Loop)
    requires e.While?
  {
    && g.x == LowerToVar(g.head, e.condition, Bool) && g.b == LowerBlock(g.body, e.body)
    && g.head == StartBlock(Emit(g.l.s, Jump(g.l.first)), g.l.first) && g.l.s.blocks == s.blocks && s.blocks != []
    && g.body == StartBlock(Emit(g.x.s, Switch(g.x.x, [(1, g.l.second)], Some(g.l.cont))), g.l.second)
    && Valid(g.head) && g.head.frames == s.frames && g.head.returnType == s.returnType && g.head.tmpIndex == s.tmpIndex
    && Lowers(g.head, g.x.s, {}, {}) && Valid(g.x.s) && g.x.x.Tmp? && g.x.s.returnType == s.returnType
      && g.x.s.blocks != [] && s.tmpIndex <= g.x.s.tmpIndex
    && Valid(g.body) && g.body.frames == g.x.s.frames && g.body.returnType == s.returnType
      && g.x.s.tmpIndex <= g.body.tmpIndex
    && g.b.s.frames == g.x.s.frames && g.b.s.returnType == s.returnType && g.b.s.blocks != []
    && LowerWhile(s, e) == Lowered(StartBlock(Emit(g.b.s, Jump(g.l.first)), g.l.cont), UNIT_VALUE)
    && Valid(LowerWhile(s, e).s) && LowerWhile(s, e).s.frames == g.x.s.frames
      && LowerWhile(s, e).s.returnType == s.returnType
    && Sub(c, Emit(g.b.s, Jump(g.l.first))) && Sub(c, g.b.s) && Sub(c, g.x.s)
    && Sub(c, Emit(g.x.s, Switch(g.x.x, [(1, g.l.second)], Some(g.l.cont)))) && Sub(c, Emit(g.l.s, Jump(g.l.first)))
  }

  lemma {:induction false} LoopIsOk(c: Context, s: State, e: Ast.Expr)
    requires Valid(s) && e.While? && Sub(c, LowerWhile(s, e).s)
    ensures LoopOk(c, s, e, LoopStages(s, e))
  {
    hide Grows, FramesGrow, FramesValid, CodeValid, Added, Sub, LowerToVar, LowerBlock, Live, Valid, Within;
    var g := LoopStages(s, e);
    ValidParts(s);
    WhileLowers(s, e);
    LowersValid(s, LowerWhile(s, e).s, {}, {});
    GrowsTmps(s, LowerWhile(s, e).s);
    ToVarLowers(g.head, e.condition, Bool);
    GrowsTmps(g.head, g.x.s);
    BlockLowers(g.body, e.body);
    GrowsTmps(g.body, g.b.s);
    SubStart(c, Emit(g.b.s, Jump(g.l.first)), g.l.cont);
    SubEmit(c, g.b.s, Jump(g.l.first));
    SubLowered(c, g.body, g.b.s);
    var i := Switch(g.x.x, [(1, g.l.second)], Some(g.l.cont));
    SubStart(c, Emit(g.x.s, i), g.l.second);
    SubEmit(c, g.x.s, i);
    SubLowered(c, g.head, g.x.s);
    SubStart(c, Emit(g.l.s, Jump(g.l.first)), g.l.first);
  }

  lemma {:induction false} WhileParts(c: Context, s: State, e: Ast.Expr, scope: Ast.Scope, env: Ast.Env, fuel: nat)
    requires Ast.Typed(c.m, e, scope) && e.While?
    ensures LowerExpr(s, e) == LowerWhile(s, e) && Ast.TypeOf(e) == Unit
    ensures Ast.Typed(c.m, e.condition, scope) && Ast.Fits(c.m, e.condition, Bool)
    ensures Ast.TypedBlock(c.m, e.body, scope) && Ast.BlockFits(c.m, e.body, Unit)
    ensures fuel == 0 ==> Ast.Eval(c.m, e, env, fuel) == Ast.Timeout && !Leaks.Leaks(c.m, e, env, fuel)
    ensures fuel > 0 ==>
      var o := Ast.Needed(Ast.Eval(c.m, e.condition, env, fuel));
      && Ast.Eval(c.m, e, env, fuel) ==
           (if !o.Normal? then o
            else if SwitchKey(o.val) != 1 then Ast.Normal(UnitVal, o.env)
            else Iterated(c, e, o.env, fuel))
      && Leaks.Leaks(c.m, e, env, fuel) ==
           (Leaks.Leaks(c.m, e.condition, env, fuel)
             || (o.Normal? && SwitchKey(o.val) == 1 && Leaks.LeaksIteration(c.m, e, o.env, fuel)))
  {
    hide LowerWhile, Ast.Fits, Ast.BlockFits, Ast.EvalBlock, Ast.TypedBlock, Leaks.LeaksIteration;
  }

  /** The body of a loop and all that follows. */
  function Iterated(c: Context, e: Ast.Expr, env: Ast.Env, fuel: nat): Ast.Outcome
    requires e.While? && fuel > 0
  {
    var p := Ast.EvalBlock(c.m, e.body, env, fuel);
    if !p.Normal? then Ast.Needed(p) else Ast.Eval(c.m, e, p.env, fuel - 1)
  }

  ghost predicate LoopReady(c: Context, s: State, e: Ast.Expr, scope: Ast.Scope) {
    && ContextOk(c) && Valid(s) && s.returnType == c.m.returnType && ScopeFits(scope, Live(s.frames))
    && e.While? && Ast.Typed(c.m, e, scope) && Sub(c, LowerWhile(s, e).s) && HeadsOf(s, e) <= c.heads
  }

  lemma {:induction false} WhileStart(c: Context, s: State, e: Ast.Expr, scope: Ast.Scope,
      env: Ast.Env, store: Store, lost: bool)
    requires ExprReady(c, s, e, scope, env, store) && e.While?
    ensures LoopReady(c, s, e, scope) && Fit(c, LoopStages(s, e).head, scope, env, store)
      && LoopOk(c, s, e, LoopStages(s, e))
    ensures Runs(c, At(s, store, lost), 1, At(LoopStages(s, e).head, store, lost))
  {
    hide Lowers, Runs, Sub, Live, Fit, LowerExpr, LowerWhile, ContextOk, Valid, LoopStages, Ast.Typed, Ast.Eval,
      Leaks.Leaks, Iterated, ScopeFits;
    FitParts(c, s, scope, env, store);
    WhileParts(c, s, e, scope, env, 0);
    LoopIsOk(c, s, e);
    var g := LoopStages(s, e);
    FitSame(c, s, g.head, scope, env, store);
    JumpRuns(c, g.l.s, g.l.first, store, lost);
  }

  lemma {:induction false} WhileArrives(c: Context, s: State, e: Ast.Expr, scope: Ast.Scope, env: Ast.Env, fuel: nat,
      store: Store, lost: bool, n: nat, d: Config) returns (m: nat)
    requires ExprReady(c, s, e, scope, env, store) && e.While?
    requires LoopRan(c, LoopStages(s, e).head, s.tmpIndex, LowerWhile(s, e).s, scope, Ast.Eval(c.m, e, env, fuel),
      Leaks.Leaks(c.m, e, env, fuel), fuel, store, lost, n, d)
    ensures ExprRan(c, s, e, scope, Ast.Eval(c.m, e, env, fuel), Leaks.Leaks(c.m, e, env, fuel),
      fuel, store, lost, m, d)
  {
    hide Lowers, Grows, FramesGrow, FramesValid, CodeValid, Added, Within, Runs, ScopeFits, StoreFits, Tracked, Stale,
      Sub, VarsDistinct, Owned, Live, TmpsKept;
    hide Fit, LowerExpr, LowerWhile, ContextOk, Valid, LoopStages, Ast.Typed, Ast.Eval,
      Leaks.Leaks, Iterated, DropsAt, Broken;
    WhileStart(c, s, e, scope, env, store, lost);
    WhileParts(c, s, e, scope, env, fuel);
    var g := LoopStages(s, e);
    var o, leaks := Ast.Eval(c.m, e, env, fuel), Leaks.Leaks(c.m, e, env, fuel);
    SameDrops(c, s, g.head, store, lost);
    RunsJoin(c, At(s, store, lost), 1, At(g.head, store, lost), n, d);
    m := 1 + n;
    if !o.Normal? {
      TrackedSame(c, DropsAt(c, s, store, lost));
      BrokenLater(c, o, false, leaks, fuel, DropsAt(c, s, store, lost), DropsAt(c, g.head, store, lost), n, 1, d);
    }
  }

  /** From a place in the loop on; temporaries below low were there before it. */
  ghost predicate LoopRan(c: Context, from: State, low: nat, u: State, scope: Ast.Scope,
      o: Ast.Outcome, leaks: bool, fuel: nat,
                          store: Store, lost: bool, n: nat, d: Config)
  {
    && Runs(c, At(from, store, lost), n, d)
    && if o.Normal? then
         && d.Running? && d == At(u, d.store, d.lost) && o.val == UnitVal
         && Fit(c, u, scope, o.env, d.store)
         && TmpsKept(low, store, d.store)
         && Tracked(c, DropsAt(c, from, store, lost), DropsAt(c, u, d.store, d.lost), leaks)
       else Broken(c, o, leaks, fuel, DropsAt(c, from, store, lost), n, d)
  }

  lemma {:induction false} HeadIsOne(s: State, e: Ast.Expr)
    requires e.While?
    ensures var g := LoopStages(s, e);
      && g.head in HeadsOf(s, e) && HeadsOf(g.head, e.condition) <= HeadsOf(s, e)
      && HeadsOfBlock(g.body, e.body) <= HeadsOf(s, e)
  {
    hide LoopStages;
  }

  lemma {:induction false} LoopTimesOut(c: Context, s: State, e: Ast.Expr, scope: Ast.Scope, env: Ast.Env,
      store: Store, lost: bool, fuel: nat)
    returns (n: nat, d: Config)
    requires LoopReady(c, s, e, scope) && e.While? && Fit(c, LoopStages(s, e).head, scope, env, store) && fuel == 0
    ensures LoopRan(c, LoopStages(s, e).head, s.tmpIndex, LowerWhile(s, e).s, scope, Ast.Eval(c.m, e, env, fuel),
      Leaks.Leaks(c.m, e, env, fuel), fuel, store, lost, n, d)
  {
    hide Runs, Fit, LowerExpr, LowerWhile, ContextOk, Valid, LoopStages, Ast.Typed, Ast.Eval, Leaks.Leaks, Iterated,
      DropsAt, Broken, Sub, ScopeFits, Live;
    FitParts(c, LoopStages(s, e).head, scope, env, store);
    WhileParts(c, s, e, scope, env, fuel);
    n, d := 0, At(LoopStages(s, e).head, store, lost);
    RunsSelf(c, d);
    HeadIsOne(s, e);
    BrokenAtOnce(c, LoopStages(s, e).head, scope, env, store, lost);
  }

  lemma {:induction false} LoopStart(c: Context, s: State, e: Ast.Expr, scope: Ast.Scope, env: Ast.Env, store: Store)
    requires LoopReady(c, s, e, scope) && e.While? && Fit(c, LoopStages(s, e).head, scope, env, store)
    ensures VarReady(c, LoopStages(s, e).head, e.condition, Bool, scope, env, store)
    ensures LoopStages(s, e).x == LowerToVar(LoopStages(s, e).head, e.condition, Bool)
  {
    hide Fit, LowerExpr, LowerWhile, LowerToVar, ContextOk, Valid, LoopStages, Ast.Typed, Ast.Fits, Ast.Eval,
      Leaks.Leaks, Iterated, Sub, ScopeFits, Live, LoopOk, HeadsOf, HeadsOfBlock;
    WhileParts(c, s, e, scope, env, 0);
    LoopIsOk(c, s, e);
    ConditionIsOk(c, s, e, LoopStages(s, e));
    HeadIsOne(s, e);
  }

  lemma {:induction false} ConditionIsOk(c: Context, s: State, e: Ast.Expr, g: Loop)
    requires e.While? && LoopOk(c, s, e, g)
    ensures g.x == LowerToVar(g.head, e.condition, Bool) && Sub(c, g.x.s)
  {
    hide Sub, Lowers, Valid, LowerToVar, LowerBlock, LowerWhile, Emit;
  }

  /** After the condition the run is at the start of the body. */
  lemma {:induction false} LoopNext(c: Context, s: State, e: Ast.Expr, scope: Ast.Scope, env: Ast.Env, fuel: nat,
      store: Store, lost: bool, n: nat, d: Config)
    requires LoopReady(c, s, e, scope) && e.While? && fuel > 0 && Fit(c, LoopStages(s, e).head, scope, env, store)
    requires var o := Ast.Needed(Ast.Eval(c.m, e.condition, env, fuel)); o.Normal? && SwitchKey(o.val) == 1
    requires VarRan(c, LoopStages(s, e).head, LoopStages(s, e).x, Bool, scope,
      Ast.Held(e.condition, Ast.Eval(c.m, e.condition, env, fuel)), Leaks.Leaks(c.m, e.condition, env, fuel),
      fuel, store, lost, n, d)
    ensures var g := LoopStages(s, e);
      && d.Running? && Fit(c, g.body, scope, Ast.Needed(Ast.Eval(c.m, e.condition, env, fuel)).env, d.store)
      && Runs(c, At(g.head, store, lost), n + 1, At(g.body, d.store, d.lost))
      && DropsAt(c, g.body, d.store, d.lost) == DropsAt(c, g.x.s, d.store, d.lost)
  {
    hide Lowers, Grows, FramesGrow, FramesValid, CodeValid, Added, Within, Runs, ScopeFits, StoreFits, Tracked, Stale,
      Sub, VarsDistinct, Owned, Live, TmpsKept;
    hide Fit, LowerExpr, LowerWhile, LowerToVar, LowerBlock, ContextOk, Valid, LoopStages, Ast.Typed, Ast.Eval,
      Leaks.Leaks, Iterated, DropsAt, Emit, Read;
    LoopIsOk(c, s, e);
    var g := LoopStages(s, e);
    SwitchRuns(c, g.x.s, g.x.x, 1, g.l.second, g.l.cont, d.store, d.lost,
      Ast.Needed(Ast.Eval(c.m, e.condition, env, fuel)).val);
    RunsJoin(c, At(g.head, store, lost), n, d, 1, Running(g.l.second, 0, d.store, d.lost));
    FitSame(c, g.x.s, g.body, scope, Ast.Needed(Ast.Eval(c.m, e.condition, env, fuel)).env, d.store);
    SameDrops(c, g.x.s, g.body, d.store, d.lost);
  }

  /** The condition does not hold, or does not complete. */
  lemma {:induction false} LoopLeaves(c: Context, s: State, e: Ast.Expr, scope: Ast.Scope, env: Ast.Env, fuel: nat,
      store: Store, lost: bool, n: nat, d: Config)
    returns (m: nat, f: Config)
    requires LoopReady(c, s, e, scope) && e.While? && fuel > 0 && Fit(c, LoopStages(s, e).head, scope, env, store)
    requires var o := Ast.Needed(Ast.Eval(c.m, e.condition, env, fuel)); o.Normal? ==> SwitchKey(o.val) != 1
    requires VarRan(c, LoopStages(s, e).head, LoopStages(s, e).x, Bool, scope,
      Ast.Held(e.condition, Ast.Eval(c.m, e.condition, env, fuel)), Leaks.Leaks(c.m, e.condition, env, fuel),
      fuel, store, lost, n, d)
    ensures LoopRan(c, LoopStages(s, e).head, s.tmpIndex, LowerWhile(s, e).s, scope, Ast.Eval(c.m, e, env, fuel),
      Leaks.Leaks(c.m, e, env, fuel), fuel, store, lost, m, f)
  {
    hide Lowers, Grows, FramesGrow, FramesValid, CodeValid, Added, Within, Runs, ScopeFits, StoreFits, Tracked, Stale,
      Sub, VarsDistinct, Owned, Live, TmpsKept;
    hide Fit, LowerExpr, LowerWhile, LowerToVar, LowerBlock, ContextOk, Valid, LoopStages, Ast.Typed, Ast.Eval,
      Leaks.Leaks, Iterated, DropsAt, Emit, Read;
    LoopIsOk(c, s, e);
    WhileParts(c, s, e, scope, env, fuel);
    var g, u := LoopStages(s, e), LowerWhile(s, e).s;
    m, f := n, d;
    var o := Ast.Needed(Ast.Eval(c.m, e.condition, env, fuel));
    if Ast.Held(e.condition, Ast.Eval(c.m, e.condition, env, fuel)).Void? {
      SwitchSticks(c, g.x.s, g.x.x, 1, g.l.second, g.l.cont, d.store, d.lost);
      RunsJoin(c, At(g.head, store, lost), n, d, 1, Stuck);
      m, f := n + 1, Stuck;
    } else if o.Normal? {
      SwitchRuns(c, g.x.s, g.x.x, 1, g.l.second, g.l.cont, d.store, d.lost, o.val);
      f := Running(g.l.cont, 0, d.store, d.lost);
      RunsJoin(c, At(g.head, store, lost), n, d, 1, f);
      m := n + 1;
      FitSame(c, g.x.s, u, scope, o.env, d.store);
      SameDrops(c, g.x.s, u, d.store, d.lost);
    }
  }

  /** The condition holds, and then the body and what follows. */
  lemma {:induction false} LoopArrives(c: Context, s: State, e: Ast.Expr, scope: Ast.Scope, env: Ast.Env, fuel: nat,
      store: Store, lost: bool, n: nat, d: Config, k: nat, f: Config)
    returns (m: nat, h: Config)
    requires LoopReady(c, s, e, scope) && e.While? && fuel > 0 && d.Running?
    requires var o := Ast.Needed(Ast.Eval(c.m, e.condition, env, fuel)); o.Normal? && SwitchKey(o.val) == 1
    requires VarRan(c, LoopStages(s, e).head, LoopStages(s, e).x, Bool, scope,
      Ast.Held(e.condition, Ast.Eval(c.m, e.condition, env, fuel)), Leaks.Leaks(c.m, e.condition, env, fuel),
      fuel, store, lost, n, d)
    requires var g, o := LoopStages(s, e), Ast.Needed(Ast.Eval(c.m, e.condition, env, fuel));
      && Runs(c, At(g.head, store, lost), n + 1, At(g.body, d.store, d.lost))
      && DropsAt(c, g.body, d.store, d.lost) == DropsAt(c, g.x.s, d.store, d.lost)
      && LoopRan(c, g.body, s.tmpIndex, LowerWhile(s, e).s, scope, Iterated(c, e, o.env, fuel),
        Leaks.LeaksIteration(c.m, e, o.env, fuel), fuel, d.store, d.lost, k, f)
    ensures LoopRan(c, LoopStages(s, e).head, s.tmpIndex, LowerWhile(s, e).s, scope, Ast.Eval(c.m, e, env, fuel),
      Leaks.Leaks(c.m, e, env, fuel), fuel, store, lost, m, h)
  {
    hide Lowers, Grows, FramesGrow, FramesValid, CodeValid, Added, Within, Runs, ScopeFits, StoreFits, Tracked, Stale,
      Sub, VarsDistinct, Owned, Live, TmpsKept;
    hide Fit, LowerExpr, LowerWhile, LowerToVar, LowerBlock, ContextOk, Valid, LoopStages, Ast.Typed, Ast.Eval,
      Leaks.Leaks, Leaks.LeaksIteration, Iterated, DropsAt, At, Read, Broken, Emit;
    LoopIsOk(c, s, e);
    WhileParts(c, s, e, scope, env, fuel);
    var g, u, o := LoopStages(s, e), LowerWhile(s, e).s, Ast.Needed(Ast.Eval(c.m, e.condition, env, fuel));
    RunsJoin(c, At(g.head, store, lost), n + 1, At(g.body, d.store, d.lost), k, f);
    m, h := n + 1 + k, f;
    var q, more := Iterated(c, e, o.env, fuel), Leaks.LeaksIteration(c.m, e, o.env, fuel);
    if q.Normal? {
      TmpsKeptJoin(s.tmpIndex, s.tmpIndex, store, d.store, f.store);
      TrackedJoin(c, DropsAt(c, g.head, store, lost), DropsAt(c, g.body, d.store, d.lost),
        DropsAt(c, u, f.store, f.lost), Leaks.Leaks(c.m, e.condition, env, fuel), more);
    } else {
      BrokenLater(c, q, Leaks.Leaks(c.m, e.condition, env, fuel), more, fuel, DropsAt(c, g.head, store, lost),
        DropsAt(c, g.body, d.store, d.lost), k, n + 1, f);
    }
  }

  lemma {:induction false} BrokenAtOnce(c: Context, t: State, scope: Ast.Scope, env: Ast.Env, store: Store, lost: bool)
    requires t in c.heads && Fit(c, t, scope, env, store) && t.blocks != []
    ensures Broken(c, Ast.Timeout, false, 0, DropsAt(c, t, store, lost), 0, At(t, store, lost))
  {
    hide Tracked, DropsAt, Owned;
    TrackedSame(c, DropsAt(c, t, store, lost));
    assert AtHead(t, At(t, store, lost));
  }

  lemma {:induction false} BodyStart(c: Context, s: State, e: Ast.Expr, scope: Ast.Scope, env: Ast.Env, store: Store)
    requires LoopReady(c, s, e, scope) && e.While? && Fit(c, LoopStages(s, e).body, scope, env, store)
    ensures BlockReady(c, LoopStages(s, e).body, e.body, scope, env, store)
  {
    hide Fit, LowerExpr, LowerWhile, LowerToVar, LowerBlock, ContextOk, Valid, LoopStages, Ast.Typed, Ast.TypedBlock,
      Ast.Eval, Leaks.Leaks, Iterated, Sub, ScopeFits, Live;
    WhileParts(c, s, e, scope, env, 0);
    LoopIsOk(c, s, e);
  }

  lemma {:induction false} BodyStops(c: Context, s: State, e: Ast.Expr, scope: Ast.Scope, env: Ast.Env, fuel: nat,
      store: Store, lost: bool, n: nat, d: Config)
    requires LoopReady(c, s, e, scope) && e.While? && fuel > 0 && !Ast.EvalBlock(c.m, e.body, env, fuel).Normal?
    requires Fit(c, LoopStages(s, e).body, scope, env, store)
    requires BlockRan(c, LoopStages(s, e).body, e.body, scope, Ast.EvalBlock(c.m, e.body, env, fuel),
      Leaks.LeaksBlock(c.m, e.body, env, fuel), fuel, store, lost, n, d)
    ensures LoopRan(c, LoopStages(s, e).body, s.tmpIndex, LowerWhile(s, e).s, scope, Iterated(c, e, env, fuel),
      Leaks.LeaksIteration(c.m, e, env, fuel), fuel, store, lost, n, d)
  {
    hide Runs, LowerWhile, LowerBlock, LoopStages, Ast.Eval, Ast.EvalBlock, Leaks.Leaks,
      Leaks.LeaksBlock, DropsAt, Broken;
    hide Fit, ContextOk, Valid, Ast.Typed, Ast.TypedBlock, Ast.BlockFits, Ast.Fits, Sub, ScopeFits, Live, LowerExpr;
    FitParts(c, LoopStages(s, e).body, scope, env, store);
    WhileParts(c, s, e, scope, env, fuel);
    CompletedBlockFits(c, e.body, Unit, scope, env, fuel);
  }

  /** After the body the run is at the head of the loop again; whatever the
      condition has left is not live there. */
  lemma {:induction false} BodyNext(c: Context, s: State, e: Ast.Expr, scope: Ast.Scope, env: Ast.Env, fuel: nat,
      store: Store, lost: bool, n: nat, d: Config)
    requires LoopReady(c, s, e, scope) && e.While? && fuel > 0 && Ast.EvalBlock(c.m, e.body, env, fuel).Normal?
      && Fit(c, LoopStages(s, e).body, scope, env, store)
    requires BlockRan(c, LoopStages(s, e).body, e.body, scope, Ast.EvalBlock(c.m, e.body, env, fuel),
      Leaks.LeaksBlock(c.m, e.body, env, fuel), fuel, store, lost, n, d)
    ensures var g := LoopStages(s, e);
      && d.Running? && Fit(c, g.head, scope, Ast.EvalBlock(c.m, e.body, env, fuel).env, d.store)
        && TmpsKept(s.tmpIndex, store, d.store)
      && Runs(c, At(g.body, store, lost), n + 1, At(g.head, d.store, d.lost))
      && Tracked(c, DropsAt(c, g.body, store, lost), DropsAt(c, g.head, d.store, d.lost),
        Leaks.LeaksBlock(c.m, e.body, env, fuel) || Leaks.InVar(e.condition, Bool))
    ensures Fit(c, LoopStages(s, e).x.s, scope, Ast.EvalBlock(c.m, e.body, env, fuel).env, d.store)
  {
    hide Lowers, Grows, FramesGrow, FramesValid, CodeValid, Added, Within, Runs, ScopeFits, StoreFits, Tracked, Stale,
      Sub, VarsDistinct, Owned, Live, TmpsKept;
    hide Fit, LowerExpr, LowerWhile, LowerToVar, LowerBlock, ContextOk, Valid, LoopStages, PlainFrame, Read;
    hide Ast.Typed, Ast.TypedBlock, Ast.BlockFits, Ast.Fits, Ast.Eval, Ast.EvalBlock, Leaks.Leaks, Leaks.LeaksBlock,
      Leaks.LeaksIteration, Leaks.InVar, Iterated, DropsAt, Emit, Broken;
    LoopIsOk(c, s, e);
    WhileParts(c, s, e, scope, env, fuel);
    var g, p := LoopStages(s, e), Ast.EvalBlock(c.m, e.body, env, fuel);
    FitParts(c, g.body, scope, env, store);
    CompletedBlockFits(c, e.body, Unit, scope, env, fuel);
    UnitTaken(d.store, g.b.v);
    TmpsKeptBelow(s.tmpIndex, g.body.tmpIndex, store, d.store);
    JumpRuns(c, g.b.s, g.l.first, d.store, d.lost);
    RunsJoin(c, At(g.body, store, lost), n, d, 1, At(g.head, d.store, d.lost));
    FitSame(c, g.b.s, g.x.s, scope, p.env, d.store);
    SameDrops(c, g.b.s, g.x.s, d.store, d.lost);
    InVarIsExact(g.head, e.condition, Bool);
    ShrinkFits(c, g.head, g.x.s, scope, p.env, d.store);
    TrackedJoin(c, DropsAt(c, g.body, store, lost), DropsAt(c, g.b.s, d.store, d.lost),
      DropsAt(c, g.head, d.store, d.lost), Leaks.LeaksBlock(c.m, e.body, env, fuel), Leaks.InVar(e.condition, Bool));
  }

  lemma {:induction false} UnitTaken(store: Store, v: Value)
    requires v.Move?
    ensures Take(store, v.source, Unit) == store
  {
  }

  /** The body has completed, and the loop has run again. */
  lemma {:induction false} IterationArrives(c: Context, s: State, e: Ast.Expr, scope: Ast.Scope, env: Ast.Env,
      fuel: nat, store: Store, lost: bool, n: nat, d: Config, k: nat, f: Config)
    returns (m: nat, h: Config)
    requires LoopReady(c, s, e, scope) && e.While? && fuel > 0
      && Ast.EvalBlock(c.m, e.body, env, fuel).Normal? && d.Running?
    requires var g, p := LoopStages(s, e), Ast.EvalBlock(c.m, e.body, env, fuel);
      && TmpsKept(s.tmpIndex, store, d.store)
      && Runs(c, At(g.body, store, lost), n + 1, At(g.head, d.store, d.lost))
      && Tracked(c, DropsAt(c, g.body, store, lost), DropsAt(c, g.head, d.store, d.lost),
        Leaks.LeaksBlock(c.m, e.body, env, fuel) || Leaks.InVar(e.condition, Bool))
      && LoopRan(c, g.head, s.tmpIndex, LowerWhile(s, e).s, scope, Ast.Eval(c.m, e, p.env, fuel - 1),
        Leaks.Leaks(c.m, e, p.env, fuel - 1), fuel - 1, d.store, d.lost, k, f)
    ensures LoopRan(c, LoopStages(s, e).body, s.tmpIndex, LowerWhile(s, e).s, scope, Iterated(c, e, env, fuel),
      Leaks.LeaksIteration(c.m, e, env, fuel), fuel, store, lost, m, h)
  {
    hide Lowers, Grows, FramesGrow, FramesValid, CodeValid, Added, Within, Runs, ScopeFits, StoreFits, Tracked, Stale,
      Sub, VarsDistinct, Owned, Live, TmpsKept;
    hide Fit, LowerExpr, LowerWhile, LowerToVar, LowerBlock, ContextOk, Valid, LoopStages, Ast.Typed, Ast.Eval,
      Ast.EvalBlock, Leaks.Leaks, Leaks.LeaksBlock, Leaks.InVar, DropsAt, At, Broken;
    var g, p, u := LoopStages(s, e), Ast.EvalBlock(c.m, e.body, env, fuel), LowerWhile(s, e).s;
    var leaks, more := Leaks.LeaksBlock(c.m, e.body, env, fuel) || Leaks.InVar(e.condition, Bool),
      Leaks.Leaks(c.m, e, p.env, fuel - 1);
    RunsJoin(c, At(g.body, store, lost), n + 1, At(g.head, d.store, d.lost), k, f);
    m, h := n + 1 + k, f;
    var q := Ast.Eval(c.m, e, p.env, fuel - 1);
    if q.Normal? {
      TmpsKeptJoin(s.tmpIndex, s.tmpIndex, store, d.store, f.store);
      TrackedJoin(c, DropsAt(c, g.body, store, lost), DropsAt(c, g.head, d.store, d.lost),
        DropsAt(c, u, f.store, f.lost), leaks, more);
    } else {
      BrokenNext(c, q, leaks, more, fuel - 1, DropsAt(c, g.body, store, lost),
        DropsAt(c, g.head, d.store, d.lost), k, n + 1, f);
    }
  }

  lemma {:induction false} BrokenNext(c: Context, o: Ast.Outcome, leaks: bool, more: bool, fuel: nat, a: Drops,
      b: Drops, n: nat, k: nat, d: Config)
    requires Tracked(c, a, b, leaks) && Broken(c, o, more, fuel, b, n, d) && k > 0
    ensures Broken(c, o, leaks || more, fuel + 1, a, k + n, d)
  {
  }
}

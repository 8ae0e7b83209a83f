/** Single steps of the simulation of && and ||. */
module LoweringLogic {
  import opened Collections
  import opened Mir
  import opened Lowering
  import opened LoweringShape
  import opened LoweringStages
  import opened LoweringSim
  import opened LoweringGlue
  import opened LoweringBlocks
  import Ast
  import Leaks

  lemma {:induction false} ShortcircuitKinds(e: Ast.Expr)
    ensures e.BinOp? && e.op.And? ==> Shortcircuits(e, 1)
    ensures e.BinOp? && e.op.Or? ==> Shortcircuits(e, 0)
  {
  }

  /** An operand of && or || has run: its value is in the shared temporary,
      its own temporaries are gone. */
  ghost predicate OperandRan(c: Context, t: State, u: State, tmp: Var, scope: Ast.Scope,
      o: Ast.Outcome, leaks: bool, fuel: nat,
                             store: Store, lost: bool, n: nat, d: Config)
  {
    && tmp.Tmp? && Runs(c, At(t, store, lost), n, d)
    && if o.Normal? then
         && d.Running? && d == At(u, d.store, d.lost)
         && Fit(c, u, scope, o.env, d.store)
         && TmpsKept(tmp.index, store, d.store)
         && Read(d.store, tmp, Bool) == Some(o.val)
         && Tracked(c, DropsAt(c, t, store, lost), DropsAt(c, u, d.store, d.lost), leaks)
       else Broken(c, o, leaks, fuel, DropsAt(c, t, store, lost), n, d)
  }

  ghost predicate OperandReady(c: Context, t: State, tmp: Var, operand: Ast.Expr, scope: Ast.Scope,
      env: Ast.Env, store: Store) {
    && Ready(c, t, scope, env, store) && Ast.Typed(c.m, operand, scope)
    && Ast.Fits(c.m, operand, Bool) && Sub(c, LowerOperand(t, Place(tmp, Bool), operand))
    && tmp.Tmp? && (tmp, Bool) in c.final.vars && tmp.index < t.tmpIndex
    && (forall i :: 0 <= i < |Live(t.frames)| ==> Live(t.frames)[i].0 != tmp)
    && HeadsOf(PushFrame(t), operand) <= c.heads
  }

  lemma {:induction false} OperandParts(c: Context, t: State, tmp: Var, operand: Ast.Expr, scope: Ast.Scope,
      env: Ast.Env, store: Store)
    requires OperandReady(c, t, tmp, operand, scope, env, store)
    ensures ExprReady(c, PushFrame(t), operand, scope, env, store)
  {
    hide Lowers, Grows, FramesGrow, FramesValid, CodeValid, Sub, Fit, LowerExpr, DoAssign, PopAndDrop,
      ContextOk, Ast.Typed, Ast.Fits, Live;
    FitParts(c, t, scope, env, store);
    var p := PushFrame(t);
    PushValid(t);
    ExprLowers(p, operand);
    var r := LowerExpr(p, operand);
    OperandStart(c, p, r.s, Place(tmp, Bool), r.v);
    FitLive(c, t, p, scope, env, store);
  }

  lemma {:induction false} OperandArrives(c: Context, t: State, tmp: Var, operand: Ast.Expr, scope: Ast.Scope,
      env: Ast.Env, fuel: nat, store: Store, lost: bool, n: nat, d: Config)
    returns (m: nat, f: Config)
    requires OperandReady(c, t, tmp, operand, scope, env, store)
    requires ExprRan(c, PushFrame(t), operand, scope, Ast.Eval(c.m, operand, env, fuel),
      Leaks.Leaks(c.m, operand, env, fuel), fuel, store, lost, n, d)
    ensures OperandRan(c, t, LowerOperand(t, Place(tmp, Bool), operand), tmp, scope,
      Ast.Needed(Ast.Eval(c.m, operand, env, fuel)), Leaks.Leaks(c.m, operand, env, fuel), fuel, store, lost, m, f)
  {
    hide *;
    var o := Ast.Eval(c.m, operand, env, fuel);
    Ast.CompletesIs(o);
    if o.Normal? {
      var r := LowerExpr(PushFrame(t), operand);
      OperandValue(c, t, tmp, operand, scope, env, fuel, store, lost, n, d);
      m, f := OperandStoreRuns(c, t, r.s, tmp, r.v, scope, o.env, store, d.store, d.lost, o.val);
      RunsJoin(c, At(t, store, lost), n, At(r.s, d.store, d.lost), m, f);
      m := n + m;
      OperandStored(c, t, tmp, operand, scope, o, Leaks.Leaks(c.m, operand, env, fuel), fuel, store,
        lost, d.store, d.lost, m, f);
    } else if o.Void? {
      OperandSticks(c, t, tmp, operand, scope, env, fuel, store, lost, n, d);
      m, f := n + 1, Stuck;
    } else {
      m, f := n, d;
      OperandStops(c, t, tmp, operand, scope, env, fuel, store, lost, n, d);
    }
  }

  lemma {:induction false} OperandStops(c: Context, t: State, tmp: Var, operand: Ast.Expr, scope: Ast.Scope,
      env: Ast.Env, fuel: nat, store: Store, lost: bool, n: nat, d: Config)
    requires OperandReady(c, t, tmp, operand, scope, env, store) && !Ast.Completes(Ast.Eval(c.m, operand, env, fuel))
    requires ExprRan(c, PushFrame(t), operand, scope, Ast.Eval(c.m, operand, env, fuel),
      Leaks.Leaks(c.m, operand, env, fuel), fuel, store, lost, n, d)
    ensures OperandRan(c, t, LowerOperand(t, Place(tmp, Bool), operand), tmp, scope,
      Ast.Needed(Ast.Eval(c.m, operand, env, fuel)), Leaks.Leaks(c.m, operand, env, fuel), fuel, store, lost, n, d)
  {
    hide Live, Stale, Runs, Tracked, LowerOperand, LowerExpr, Ast.Eval, Leaks.Leaks, Broken;
    PushValid(t);
    SameDrops(c, t, PushFrame(t), store, lost);
  }

  /** The value of an operand is missing. */
  lemma {:induction false} OperandSticks(c: Context, t: State, tmp: Var, operand: Ast.Expr, scope: Ast.Scope,
      env: Ast.Env, fuel: nat, store: Store, lost: bool, n: nat, d: Config)
    requires OperandReady(c, t, tmp, operand, scope, env, store) && Ast.Eval(c.m, operand, env, fuel).Void?
    requires ExprRan(c, PushFrame(t), operand, scope, Ast.Eval(c.m, operand, env, fuel),
      Leaks.Leaks(c.m, operand, env, fuel), fuel, store, lost, n, d)
    ensures OperandRan(c, t, LowerOperand(t, Place(tmp, Bool), operand), tmp, scope,
      Ast.Needed(Ast.Eval(c.m, operand, env, fuel)), Leaks.Leaks(c.m, operand, env, fuel),
      fuel, store, lost, n + 1, Stuck)
  {
    hide Lowers, Grows, FramesGrow, FramesValid, CodeValid, Added, Within, Runs, ScopeFits, StoreFits, Tracked, Stale,
      Sub, VarsDistinct, Owned, Live, TmpsKept;
    hide Fit, LowerExpr, DoAssign, PopAndDrop, Ast.Eval, Ast.Typed, Ast.Fits, Leaks.Leaks, DropsAt,
      Valid, ContextOk, ValueOk, Emit;
    FitParts(c, t, scope, env, store);
    var p := PushFrame(t);
    PushValid(t);
    ExprLowers(p, operand);
    var r := LowerExpr(p, operand);
    CompletedFits(c, operand, Bool, scope, env, fuel);
    OperandStart(c, p, r.s, Place(tmp, Bool), r.v);
    var u := if r.v.Move? then RemoveLive(r.s, r.v.source) else r.s;
    ValueSticks(c, r.s, u, tmp, Bool, r.v, d.store, d.lost);
    RunsJoin(c, At(t, store, lost), n, d, 1, Stuck);
  }

  /** The value of an operand is pending, in a frame of its own. */
  lemma {:induction false} OperandValue(c: Context, t: State, tmp: Var, operand: Ast.Expr, scope: Ast.Scope,
      env: Ast.Env, fuel: nat, store: Store, lost: bool, n: nat, d: Config)
    requires OperandReady(c, t, tmp, operand, scope, env, store) && Ast.Eval(c.m, operand, env, fuel).Normal?
    requires ExprRan(c, PushFrame(t), operand, scope, Ast.Eval(c.m, operand, env, fuel),
      Leaks.Leaks(c.m, operand, env, fuel), fuel, store, lost, n, d)
    ensures var r, o := LowerExpr(PushFrame(t), operand), Ast.Eval(c.m, operand, env, fuel);
      && d.Running? && Ready(c, r.s, scope, o.env, d.store) && Valid(t) && t.returnType == c.m.returnType
      && Lowers(PushFrame(t), r.s, {}, {}) && ValueOk(PushFrame(t), r.s, r.v)
      && Sub(c, PopAndDrop(DoAssign(r.s, Place(tmp, Bool), Bool, r.v)))
      && Yields(c, r.v, Bool, d.store, o.val) && (r.v.Move? ==> (r.v.source, Bool) in Added(PushFrame(t), r.s))
      && ScopeFits(scope, Live(t.frames)) && TmpsKept(tmp.index, store, d.store)
      && Runs(c, At(t, store, lost), n, At(r.s, d.store, d.lost))
      && Tracked(c, DropsAt(c, t, store, lost), DropsAt(c, r.s, d.store, d.lost), Leaks.Leaks(c.m, operand, env, fuel))
      && tmp.Tmp? && (tmp, Bool) in c.final.vars && tmp.index < t.tmpIndex && forall i :: 0 <= i < |Live(t.frames)| ==>
        Live(t.frames)[i].0 != tmp
  {
    hide Lowers, Grows, FramesGrow, FramesValid, CodeValid, Added, Within, Runs, ScopeFits, StoreFits, Tracked, Stale,
      Sub, VarsDistinct, Owned, Live, TmpsKept;
    hide Fit, LowerExpr, Yields, DoAssign, PopAndDrop, Ast.Eval, Ast.Typed, Ast.Fits, Leaks.Leaks,
      DropsAt, Valid, ContextOk, ValueOk;
    FitParts(c, t, scope, env, store);
    var p := PushFrame(t);
    PushValid(t);
    SameDrops(c, t, p, store, lost);
    ExprLowers(p, operand);
    CompletedFits(c, operand, Bool, scope, env, fuel);
    TmpsKeptBelow(tmp.index, p.tmpIndex, store, d.store);
  }

  /** The value of an operand has been stored. */
  lemma {:induction false} OperandStored(c: Context, t: State, tmp: Var, operand: Ast.Expr, scope: Ast.Scope,
      o: Ast.Outcome, leaks: bool, fuel: nat, store: Store, lost: bool,
                      inner: Store, gone: bool, m: nat, f: Config)
    requires tmp.Tmp? && o.Normal? && Runs(c, At(t, store, lost), m, f) && f.Running?
    requires var r := LowerExpr(PushFrame(t), operand);
      var u := PopAndDrop(DoAssign(r.s, Place(tmp, Bool), Bool, r.v));
      && f == At(u, f.store, gone) && Fit(c, u, scope, o.env, f.store) && Read(f.store, tmp, Bool) == Some(o.val)
      && TmpsKept(tmp.index, store, f.store) && DropsAt(c, u, f.store, gone) == DropsAt(c, r.s, inner, gone)
      && Tracked(c, DropsAt(c, t, store, lost), DropsAt(c, r.s, inner, gone), leaks)
    ensures OperandRan(c, t, LowerOperand(t, Place(tmp, Bool), operand), tmp, scope, o, leaks, fuel, store, lost, m, f)
  {
    hide Runs, Tracked, DropsAt, Fit, TmpsKept, LowerExpr, PopAndDrop, DoAssign, Read;
  }

  lemma {:induction false} OperandStart(c: Context, p: State, t: State, place: Place, v: Value)
    requires Valid(p) && Lowers(p, t, {}, {}) && ValueOk(p, t, v) && Sub(c, PopAndDrop(DoAssign(t, place, Bool, v)))
    ensures var u := if v.Move? then RemoveLive(t, v.source) else t;
      u.blocks == t.blocks && t.blocks != [] && DoAssign(t, place, Bool, v) == EmitAssign(u, place, Bool, v)
    ensures Sub(c, DoAssign(t, place, Bool, v)) && Sub(c, t)
  {
    hide Grows, FramesGrow, FramesValid, CodeValid, Added, Sub;
    GrowsTmps(p, t);
    var u := if v.Move? then RemoveLive(t, v.source) else t;
    if v.Move? {
      RemoveKeepsCode(t, v.source);
    }
    var a := DoAssign(t, place, Bool, v);
    EmitDropsStart(c, PopFrame(a), TopFrame(a));
    SubBlocks(c, a, PopFrame(a));
    SubEmit(c, u, Instruction.Assign(place, Bool, v));
    SubBlocks(c, t, u);
  }

  /** The value of an operand is stored, and its frame dropped. */
  lemma {:induction false} OperandStoreRuns(c: Context, s: State, t: State, tmp: Var, v: Value, scope: Ast.Scope,
      env: Ast.Env, first: Store, store: Store, lost: bool, val: Val)
    returns (n: nat, d: Config)
    requires Ready(c, t, scope, env, store) && Valid(s) && s.returnType == c.m.returnType
    requires Lowers(PushFrame(s), t, {}, {}) && ValueOk(PushFrame(s), t, v)
    requires Sub(c, PopAndDrop(DoAssign(t, Place(tmp, Bool), Bool, v)))
    requires Yields(c, v, Bool, store, val) && (v.Move? ==> (v.source, Bool) in Added(PushFrame(s), t))
    requires tmp.Tmp? && (tmp, Bool) in c.final.vars && tmp.index < s.tmpIndex && forall i ::
      0 <= i < |Live(s.frames)| ==> Live(s.frames)[i].0 != tmp
    requires ScopeFits(scope, Live(s.frames)) && TmpsKept(tmp.index, first, store)
    ensures Runs(c, At(t, store, lost), n, d) && d.Running?
    ensures var u := PopAndDrop(DoAssign(t, Place(tmp, Bool), Bool, v));
      && d == At(u, d.store, lost) && Fit(c, u, scope, env, d.store) && Read(d.store, tmp, Bool) == Some(val)
      && TmpsKept(tmp.index, first, d.store)
      && DropsAt(c, u, d.store, lost) == DropsAt(c, t, store, lost)
  {
    hide Lowers, Grows, FramesGrow, FramesValid, CodeValid, Added, Within, Runs, ScopeFits, StoreFits, Tracked, Stale,
      Sub, VarsDistinct, Owned, Live, TmpsKept;
    hide Fit, Yields, DoAssign, PopFrame, PopAndDrop, EmitDrops, TopFrame, Valid, RemoveLive;
    var p := PushFrame(s);
    PushValid(s);
    var place := Place(tmp, Bool);
    OperandStart(c, p, t, place, v);
    var z := SpentFits(c, p, t, v, Bool, scope, env, store);
    var base := Spent(store, v, Bool);
    var w := if v.Move? then RemoveLive(t, v.source) else t;
    var a := DoAssign(t, place, Bool, v);
    AssignRuns(c, w, tmp, Bool, v, store, lost, val);
    OldTmpNotLive(p, t, v, tmp);
    FitKeeps(c, z, scope, env, base, tmp, val);
    var held := base[tmp := val];
    DoAssignLowers(p, t, {}, {}, place, Bool, v);
    LowersValid(p, a, {}, {});
    GrowsTmps(p, a);
    FitLive(c, z, a, scope, env, held);
    PoppedLive(s, a);
    LowersSelf(s);
    PopLowers(s, s, a, {}, {});
    var u := PopAndDrop(a);
    LowersValid(s, u, {}, {});
    GrowsTmps(s, u);
    ExitFits(c, s, a, u, scope, scope, env, held);
    var top := TopFrame(a);
    n := DropsRun(c, PopFrame(a), top, held, lost);
    d := At(u, held - Owned(top), lost);
    RunsJoin(c, At(t, store, lost), 1, At(a, held, lost), n, d);
    n := 1 + n;
    OwnedSplit(Live(s.frames), top);
    PoppedStale(c, a, scope, env, Live(s.frames), top, held);
    OperandTmps(p, s, t, a, v, store, base, first, tmp, val, top);
  }

  lemma {:induction false} PoppedStale(c: Context, u: State, scope: Ast.Scope, env: Ast.Env,
      below: Frame, top: Frame, store: Store)
    requires Fit(c, u, scope, env, store) && Live(u.frames) == below + top
    ensures Stale(c, Owned(below), store - Owned(top)) == Stale(c, Owned(below + top), store)
  {
    hide StoreFits, VarsDistinct, Owned, Live, Stale;
    OwnedSplit(below, top);
    OwnedDisjoint(below, top);
    StaleDropped(c, Owned(below + top), Owned(top), store);
    assert Owned(below + top) - Owned(top) == Owned(below);
  }

  lemma {:induction false} OperandTmps(p: State, s: State, t: State, a: State, v: Value, store: Store, base: Store,
      first: Store, tmp: Var, val: Val, top: Frame)
    requires Lowers(p, t, {}, {}) && ValueOk(p, t, v) && base == Spent(store, v, Bool) && p.tmpIndex == s.tmpIndex
    requires tmp.Tmp? && tmp.index < s.tmpIndex && TmpsKept(tmp.index, first, store)
      && TmpsBetween(top, s.tmpIndex, a.tmpIndex)
    ensures TmpsKept(tmp.index, first, base[tmp := val] - Owned(top)) && tmp !in Owned(top)
  {
    hide Lowers, TmpsKept, TmpsBetween, Owned, Spent, ValueOk;
    SpentKeepsTmps(p, t, v, Bool, store);
    TmpsKeptBelow(tmp.index, p.tmpIndex, store, base);
    TmpsKeptJoin(tmp.index, tmp.index, first, store, base);
    StoredKeepsTmps(tmp.index, first, base, tmp, Bool, val);
    TmpsBetweenBelow(top, tmp.index, s.tmpIndex, a.tmpIndex);
    DropKeepsTmps(tmp.index, a.tmpIndex, first, base[tmp := val], top);
    OldNotOwned(top, s.tmpIndex, a.tmpIndex, tmp);
  }

  lemma {:induction false} OldNotOwned(frame: Frame, low: nat, high: nat, x: Var)
    requires TmpsBetween(frame, low, high) && x.Tmp? && x.index < low
    ensures x !in Owned(frame)
  {
  }

  lemma {:induction false} TmpsBetweenBelow(frame: Frame, k: nat, low: nat, high: nat)
    requires TmpsBetween(frame, low, high) && k <= low
    ensures TmpsBetween(frame, k, high)
  {
  }

  /** A temporary older than a frame, and not live then, is not live later. */
  lemma {:induction false} OldTmpNotLive(s: State, t: State, v: Value, tmp: Var)
    requires Lowers(s, t, {}, {}) && tmp.Tmp? && tmp.index < s.tmpIndex
    requires forall i :: 0 <= i < |Live(s.frames)| ==> Live(s.frames)[i].0 != tmp
    ensures var live := Live(s.frames) + Consumed(Added(s, t), v);
      && (forall i :: 0 <= i < |live| ==> live[i].0 != tmp) && tmp !in Owned(live)
  {
    var live := Live(s.frames) + Consumed(Added(s, t), v);
    forall i | 0 <= i < |live|
      ensures live[i].0 != tmp
    {
      if i >= |Live(s.frames)| {
        assert live[i] in Consumed(Added(s, t), v);
        assert live[i] in Added(s, t);
      }
    }
  }

  /** Storing a boolean into a temporary that is not live. */
  lemma {:induction false} FitKeeps(c: Context, s: State, scope: Ast.Scope, env: Ast.Env,
      store: Store, x: Var, val: Val)
    requires ContextOk(c) && Fit(c, s, scope, env, store) && x.Tmp? && (x, Bool) in c.final.vars
      && x !in Owned(Live(s.frames))
    ensures Fit(c, s, scope, env, store[x := val])
    ensures Stale(c, Owned(Live(s.frames)), store[x := val]) == Stale(c, Owned(Live(s.frames)), store)
  {
    TmpTypeUnique(c, x, Bool);
  }

  predicate Shortcircuits(e: Ast.Expr, otherIf: nat) {
    e.BinOp? && ((e.op.And? && otherIf == 1) || (e.op.Or? && otherIf == 0))
  }

  ghost predicate StagesOk(c: Context, s: State, e: Ast.Expr, otherIf: nat, g: Operands)
    requires e.BinOp?
  {
    var tmp := Tmp(s.tmpIndex);
    && g.end.blocks == g.right.blocks && (tmp, Bool) in c.final.vars
    && LowerShortcircuit(s, e, otherIf) == Lowered(StartBlock(Emit(g.end, Jump(g.cont)), g.cont), Move(tmp))
    && g.left == LowerOperand(g.start, Place(tmp, Bool), e.left) && g.right ==
      LowerOperand(g.second, Place(tmp, Bool), e.right)
    && g.second == StartBlock(Emit(g.left, Switch(tmp, [(otherIf, g.other)], Some(g.cont))), g.other)
    && g.start.blocks == s.blocks && s.blocks != [] && g.left.blocks != [] && g.end.blocks != []
    && Valid(g.start) && g.start.frames == s.frames && g.start.returnType == s.returnType
      && s.tmpIndex < g.start.tmpIndex
    && g.left.frames == s.frames && g.left.returnType == s.returnType
    && Valid(g.second) && g.second.frames == s.frames && g.second.returnType == s.returnType
      && s.tmpIndex < g.second.tmpIndex
    && g.right.frames == s.frames && g.right.returnType == s.returnType
    && Sub(c, g.left) && Sub(c, g.right) && Sub(c, Emit(g.end, Jump(g.cont)))
    && Sub(c, Emit(g.left, Switch(tmp, [(otherIf, g.other)], Some(g.cont))))
  }

  lemma {:induction false} StagesAreOk(c: Context, s: State, e: Ast.Expr, otherIf: nat)
    requires Valid(s) && e.BinOp? && Sub(c, LowerShortcircuit(s, e, otherIf).s)
    ensures StagesOk(c, s, e, otherIf, OperandStages(s, e, otherIf))
  {
    hide Grows, FramesGrow, FramesValid, CodeValid, Added, Sub, LowerOperand, Live, Valid, Within;
    ShortcircuitLowers(s, e, otherIf);
    ValidParts(s);
    var tmp := Tmp(s.tmpIndex);
    var place := Place(tmp, Bool);
    var g := OperandStages(s, e, otherIf);
    LowersSelf(g.start);
    OperandLowers(g.start, g.start, {}, {}, place, e.left);
    GrowsTmps(g.start, g.left);
    LowersSelf(g.second);
    OperandLowers(g.second, g.second, {}, {}, place, e.right);
    GrowsTmps(g.second, g.right);
    LiveAdd(g.right, tmp, Bool);
    SubStart(c, Emit(g.end, Jump(g.cont)), g.cont);
    SubEmit(c, g.end, Jump(g.cont));
    SubVars(c, g.end, (tmp, Bool));
    SubBlocks(c, g.right, g.end);
    SubLowered(c, g.second, g.right);
    var i := Switch(tmp, [(otherIf, g.other)], Some(g.cont));
    SubStart(c, Emit(g.left, i), g.other);
    SubEmit(c, g.left, i);
    GrowsTmps(s, LowerShortcircuit(s, e, otherIf).s);
  }

  /** What is known of && and || and their operands. */
  lemma {:induction false} ShortcircuitParts(c: Context, s: State, e: Ast.Expr, otherIf: nat,
      scope: Ast.Scope, env: Ast.Env, fuel: nat)
    requires Ast.Typed(c.m, e, scope) && Shortcircuits(e, otherIf)
    ensures LowerExpr(s, e) == LowerShortcircuit(s, e, otherIf) && Ast.TypeOf(e) == Bool
    ensures Ast.Typed(c.m, e.left, scope) && Ast.Typed(c.m, e.right, scope) && Ast.Fits(c.m, e.left, Bool)
      && Ast.Fits(c.m, e.right, Bool)
    ensures var o := Ast.Needed(Ast.Eval(c.m, e.left, env, fuel));
      && Ast.Eval(c.m, e, env, fuel) ==
           (if o.Normal? && SwitchKey(o.val) == otherIf then Ast.Needed(Ast.Eval(c.m, e.right, o.env, fuel)) else o)
      && Leaks.Leaks(c.m, e, env, fuel) ==
           (Leaks.Leaks(c.m, e.left, env, fuel)
             || (o.Normal? && SwitchKey(o.val) == otherIf && Leaks.Leaks(c.m, e.right, o.env, fuel)))
  {
    hide LowerShortcircuit, LowerToVar, Ast.Fits;
  }

  lemma {:induction false} ShortcircuitStart(c: Context, s: State, e: Ast.Expr, otherIf: nat, scope: Ast.Scope,
      env: Ast.Env, store: Store)
    requires ExprReady(c, s, e, scope, env, store) && Shortcircuits(e, otherIf)
    ensures e.BinOp? && StagesOk(c, s, e, otherIf, OperandStages(s, e, otherIf))
    ensures OperandReady(c, OperandStages(s, e, otherIf).start, Tmp(s.tmpIndex), e.left, scope, env, store)
    ensures var g, place := OperandStages(s, e, otherIf), Place(Tmp(s.tmpIndex), Bool);
      g.left == LowerOperand(g.start, place, e.left) && g.right == LowerOperand(g.second, place, e.right)
  {
    hide Sub, Live, Valid, Fit, LowerExpr, LowerShortcircuit, LowerOperand, ContextOk,
      Ast.Typed, Ast.Fits, OperandStages;
    FitParts(c, s, scope, env, store);
    ShortcircuitParts(c, s, e, otherIf, scope, env, 0);
    StagesAreOk(c, s, e, otherIf);
    ValidTmpNotLive(s);
    FitSame(c, s, OperandStages(s, e, otherIf).start, scope, env, store);
  }

  /** Where the run goes on after the first operand. */
  lemma {:induction false} ShortcircuitNext(c: Context, s: State, e: Ast.Expr, otherIf: nat, scope: Ast.Scope,
      env: Ast.Env, fuel: nat, store: Store, lost: bool, n: nat, d: Config)
    requires ExprReady(c, s, e, scope, env, store) && Shortcircuits(e, otherIf)
    requires var o := Ast.Needed(Ast.Eval(c.m, e.left, env, fuel)); o.Normal? && SwitchKey(o.val) == otherIf
    requires OperandRan(c, OperandStages(s, e, otherIf).start, OperandStages(s, e, otherIf).left, Tmp(s.tmpIndex),
      scope, Ast.Needed(Ast.Eval(c.m, e.left, env, fuel)), Leaks.Leaks(c.m, e.left, env, fuel), fuel, store, lost, n, d)
    ensures e.BinOp? && d.Running?
    ensures OperandReady(c, OperandStages(s, e, otherIf).second, Tmp(s.tmpIndex), e.right, scope,
      Ast.Needed(Ast.Eval(c.m, e.left, env, fuel)).env, d.store)
    ensures Runs(c, At(s, store, lost), n + 1, At(OperandStages(s, e, otherIf).second, d.store, d.lost))
  {
    hide Lowers, Grows, FramesGrow, FramesValid, CodeValid, Added, Within, Runs, ScopeFits, StoreFits, Tracked, Stale,
      Sub, VarsDistinct, Owned, Live, TmpsKept;
    hide Valid, Fit, LowerExpr, LowerShortcircuit, LowerOperand, ContextOk, Ast.Typed, Ast.Fits, Ast.Eval,
      Leaks.Leaks, OperandStages, Emit, Read;
    ShortcircuitStart(c, s, e, otherIf, scope, env, store);
    ShortcircuitParts(c, s, e, otherIf, scope, env, fuel);
    FitParts(c, s, scope, env, store);
    ValidTmpNotLive(s);
    var g := OperandStages(s, e, otherIf);
    var o := Ast.Needed(Ast.Eval(c.m, e.left, env, fuel));
    SwitchRuns(c, g.left, Tmp(s.tmpIndex), otherIf, g.other, g.cont, d.store, d.lost, o.val);
    RunsJoin(c, At(s, store, lost), n, d, 1, Running(g.other, 0, d.store, d.lost));
    FitSame(c, g.left, g.second, scope, o.env, d.store);
  }

  /** The first operand decides, or does not complete. */
  lemma {:induction false} FirstArrives(c: Context, s: State, e: Ast.Expr, otherIf: nat, scope: Ast.Scope,
      env: Ast.Env, fuel: nat, store: Store, lost: bool, n: nat, d: Config)
    returns (m: nat, f: Config)
    requires ExprReady(c, s, e, scope, env, store) && Shortcircuits(e, otherIf)
    requires var o := Ast.Needed(Ast.Eval(c.m, e.left, env, fuel)); !(o.Normal? && SwitchKey(o.val) == otherIf)
    requires OperandRan(c, OperandStages(s, e, otherIf).start, OperandStages(s, e, otherIf).left, Tmp(s.tmpIndex),
      scope, Ast.Needed(Ast.Eval(c.m, e.left, env, fuel)), Leaks.Leaks(c.m, e.left, env, fuel), fuel, store, lost, n, d)
    ensures ExprRan(c, s, e, scope, Ast.Eval(c.m, e, env, fuel), Leaks.Leaks(c.m, e, env, fuel),
      fuel, store, lost, m, f)
  {
    hide Lowers, Grows, FramesGrow, FramesValid, CodeValid, Added, Within, Runs, ScopeFits, StoreFits, Tracked, Stale,
      Sub, VarsDistinct, Owned, Live, TmpsKept;
    hide Valid, Fit, LowerExpr, LowerShortcircuit, LowerOperand, ContextOk, Ast.Typed, Ast.Fits, Ast.Eval, Leaks.Leaks,
      OperandStages, Emit, Read, DropsAt, Broken, Arrived;
    ShortcircuitStart(c, s, e, otherIf, scope, env, store);
    ShortcircuitParts(c, s, e, otherIf, scope, env, fuel);
    FitParts(c, s, scope, env, store);
    var g := OperandStages(s, e, otherIf);
    var o := Ast.Needed(Ast.Eval(c.m, e.left, env, fuel));
    SameDrops(c, s, g.start, store, lost);
    m, f := n, d;
    if o.Normal? {
      SwitchRuns(c, g.left, Tmp(s.tmpIndex), otherIf, g.other, g.cont, d.store, d.lost, o.val);
      f := Running(g.cont, 0, d.store, d.lost);
      RunsJoin(c, At(s, store, lost), n, d, 1, f);
      m := n + 1;
      ShortcircuitArrives(c, s, e, otherIf, g.left, scope, o.env, o.val,
        Leaks.Leaks(c.m, e.left, env, fuel), store, lost, f);
    }
  }

  /** The second operand decides, or does not complete. */
  lemma {:induction false} SecondArrives(c: Context, s: State, e: Ast.Expr, otherIf: nat, scope: Ast.Scope,
      env: Ast.Env, fuel: nat, store: Store, lost: bool, n: nat, d: Config, k: nat, f: Config)
    returns (m: nat, h: Config)
    requires ExprReady(c, s, e, scope, env, store) && Shortcircuits(e, otherIf) && d.Running?
    requires var o := Ast.Needed(Ast.Eval(c.m, e.left, env, fuel)); o.Normal? && SwitchKey(o.val) == otherIf
    requires OperandRan(c, OperandStages(s, e, otherIf).start, OperandStages(s, e, otherIf).left, Tmp(s.tmpIndex),
      scope, Ast.Needed(Ast.Eval(c.m, e.left, env, fuel)), Leaks.Leaks(c.m, e.left, env, fuel), fuel, store, lost, n, d)
    requires Runs(c, At(s, store, lost), n + 1, At(OperandStages(s, e, otherIf).second, d.store, d.lost))
    requires var g, inner := OperandStages(s, e, otherIf), Ast.Needed(Ast.Eval(c.m, e.left, env, fuel)).env;
      OperandRan(c, g.second, g.right, Tmp(s.tmpIndex), scope, Ast.Needed(Ast.Eval(c.m, e.right, inner, fuel)),
        Leaks.Leaks(c.m, e.right, inner, fuel), fuel, d.store, d.lost, k, f)
    ensures ExprRan(c, s, e, scope, Ast.Eval(c.m, e, env, fuel), Leaks.Leaks(c.m, e, env, fuel),
      fuel, store, lost, m, h)
  {
    hide Lowers, Grows, FramesGrow, FramesValid, CodeValid, Added, Within, Runs, ScopeFits, StoreFits, Tracked, Stale,
      Sub, VarsDistinct, Owned, Live, TmpsKept;
    hide Valid, Fit, LowerExpr, LowerShortcircuit, LowerOperand, ContextOk, Ast.Typed, Ast.Fits, Ast.Eval, Leaks.Leaks,
      OperandStages, Emit, Read, DropsAt, Broken, Arrived;
    ShortcircuitStart(c, s, e, otherIf, scope, env, store);
    ShortcircuitParts(c, s, e, otherIf, scope, env, fuel);
    FitParts(c, s, scope, env, store);
    var g := OperandStages(s, e, otherIf);
    var o := Ast.Needed(Ast.Eval(c.m, e.left, env, fuel));
    var p := Ast.Needed(Ast.Eval(c.m, e.right, o.env, fuel));
    var leaks, more := Leaks.Leaks(c.m, e.left, env, fuel), Leaks.Leaks(c.m, e.right, o.env, fuel);
    SecondDrops(c, s, g, d, store, lost);
    RunsJoin(c, At(s, store, lost), n + 1, At(g.second, d.store, d.lost), k, f);
    if p.Normal? {
      TmpsKeptJoin(s.tmpIndex, s.tmpIndex, store, d.store, f.store);
      TrackedJoin(c, DropsAt(c, s, store, lost), DropsAt(c, g.left, d.store, d.lost),
        DropsAt(c, g.right, f.store, f.lost), leaks, more);
      JumpRuns(c, g.end, g.cont, f.store, f.lost);
      h := Running(g.cont, 0, f.store, f.lost);
      RunsJoin(c, At(s, store, lost), n + 1 + k, f, 1, h);
      m := n + 1 + k + 1;
      ShortcircuitArrives(c, s, e, otherIf, g.right, scope, p.env, p.val, leaks || more, store, lost, h);
    } else {
      BrokenLater(c, p, leaks, more, fuel, DropsAt(c, s, store, lost),
        DropsAt(c, g.left, d.store, d.lost), k, n + 1, f);
      m, h := n + 1 + k, f;
    }
  }

  lemma {:induction false} SecondDrops(c: Context, s: State, g: Operands, d: Config, store: Store, lost: bool)
    requires d.Running? && g.start.frames == s.frames && g.left.frames == s.frames && g.second.frames == s.frames
    ensures DropsAt(c, g.start, store, lost) == DropsAt(c, s, store, lost)
    ensures DropsAt(c, g.second, d.store, d.lost) == DropsAt(c, g.left, d.store, d.lost)
  {
    hide Live, Owned, Stale;
  }

  lemma {:induction false} ValidTmpNotLive(s: State)
    requires Valid(s)
    ensures forall i :: 0 <= i < |Live(s.frames)| ==> Live(s.frames)[i].0 != Tmp(s.tmpIndex)
  {
    NewTmpNotLive(s, s.tmpIndex);
  }

  /** Behind && or ||, from either path: the shared temporary becomes live. */
  lemma {:induction false} ShortcircuitArrives(c: Context, s: State, e: Ast.Expr, otherIf: nat, t: State,
      scope: Ast.Scope, env: Ast.Env, val: Val, leaks: bool,
                            store: Store, lost: bool, d: Config)
    requires ContextOk(c) && (Tmp(s.tmpIndex), Bool) in c.final.vars
    requires Valid(s) && e.BinOp? && s.returnType == t.returnType && t.frames == s.frames && d.Running?
    requires var r := LowerShortcircuit(s, e, otherIf);
      r.v == Move(Tmp(s.tmpIndex)) && d == At(r.s, d.store, d.lost)
    requires Fit(c, t, scope, env, d.store) && Read(d.store, Tmp(s.tmpIndex), Bool) == Some(val)
    requires TmpsKept(s.tmpIndex, store, d.store)
      && Tracked(c, DropsAt(c, s, store, lost), DropsAt(c, t, d.store, d.lost), leaks)
    ensures Arrived(c, s, LowerShortcircuit(s, e, otherIf), Bool, scope, env, val, leaks, store, lost, d)
  {
    hide Lowers, Grows, FramesGrow, FramesValid, CodeValid, Added, ScopeFits, StoreFits, Live, TmpsKept,
      LowerShortcircuit, Fit, Tracked, Stale, Owned;
    hide ContextOk, Valid;
    var tmp := Tmp(s.tmpIndex);
    var r := LowerShortcircuit(s, e, otherIf);
    ShortcircuitLowers(s, e, otherIf);
    LowersValid(s, r.s, {}, {});
    GrowsTmps(s, r.s);
    ValidTmpNotLive(s);
    assert Stored(d.store, tmp, Bool, val) == d.store;
    FitAddsTmp(c, t, r.s, scope, env, d.store, tmp, Bool, val);
    TrackedTmp(c, t, r.s, d.store, d.lost, tmp, Bool, val);
    TrackedJoin(c, DropsAt(c, s, store, lost), DropsAt(c, t, d.store, d.lost),
      DropsAt(c, r.s, d.store, d.lost), leaks, false);
    assert [(tmp, Bool)][0] == (tmp, Bool);
  }
}

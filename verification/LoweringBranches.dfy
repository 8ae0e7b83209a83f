/** Single steps of the simulation of if, with and without else. */
module LoweringBranches {
  import opened Collections
  import opened Mir
  import opened Lowering
  import opened LoweringShape
  import opened LoweringStages
  import opened LoweringSim
  import opened LoweringGlue
  import opened LoweringBlocks
  import Ast
  import Leaks

  /** The drops with the result of an if stored; x is the state behind the
      condition. */
  ghost function ResultDrops(c: Context, x: State, res: Var, ty: Ty, base: Store, val: Val, lost: bool): Drops {
    Drops(lost, Stale(c, Owned(Live(x.frames)) + (if ty.Unit? then {} else {res}), Stored(base, res, ty, val)))
  }

  /** One branch of an if has run: behind the if, with the value of the branch
      stored in the shared temporary res; base is the store without it. */
  ghost predicate BranchRan(c: Context, x: State, start: State, res: Var, ty: Ty, cont: Label, scope: Ast.Scope,
      o: Ast.Outcome, leaks: bool, fuel: nat,
                            store: Store, lost: bool, n: nat, d: Config, base: Store)
  {
    && Runs(c, At(start, store, lost), n, d)
    && if o.Normal? then
         && d.Running? && d == Running(cont, 0, Stored(base, res, ty, o.val), d.lost)
         && Fit(c, x, scope, o.env, base)
         && TmpsKept(x.tmpIndex, store, base)
         && (ty.Unit? ==> o.val == UnitVal)
         && Tracked(c, DropsAt(c, x, store, lost), ResultDrops(c, x, res, ty, base, o.val, d.lost), leaks)
       else Broken(c, o, leaks, fuel, DropsAt(c, x, store, lost), n, d)
  }

  ghost predicate BranchReady(c: Context, x: State, start: State, b: Ast.Block, u: State, res: Var, ty: Ty, cont: Label,
                              scope: Ast.Scope, env: Ast.Env, store: Store)
  {
    && Ready(c, start, scope, env, store) && Ast.TypedBlock(c.m, b, scope)
      && (Ast.BlockFits(c.m, b, ty) || Ast.Slippery(b, ty))
    && Sub(c, EndBranch(u, Place(res, ty), LowerBlock(start, b).v, cont))
    && u.blocks == LowerBlock(start, b).s.blocks && LowerBlock(start, b).s.vars <= u.vars
    && Valid(x) && x.frames == start.frames && x.returnType == start.returnType && x.tmpIndex <= start.tmpIndex
    && res.Tmp? && (forall i :: 0 <= i < |Live(x.frames)| ==> Live(x.frames)[i].0 != res)
    && (res, ty) in c.final.vars && HeadsOfBlock(start, b) <= c.heads
  }

  lemma {:induction false} BranchStart(c: Context, x: State, start: State, b: Ast.Block, u: State, res: Var, ty: Ty,
      cont: Label, scope: Ast.Scope, env: Ast.Env, store: Store)
    requires BranchReady(c, x, start, b, u, res, ty, cont, scope, env, store)
    ensures BlockReady(c, start, b, scope, env, store)
    ensures var r := LowerBlock(start, b);
      && r.v.Move? && Sub(c, EmitAssign(u, Place(res, ty), ty, r.v)) && Sub(c, u)
      && r.s.blocks != [] && r.s.frames == start.frames && r.s.returnType == start.returnType
  {
    hide Lowers, Sub, Live, Fit, LowerBlock, ContextOk, Valid, Emit, EndBranch, Ast.TypedBlock, Ast.BlockFits;
    FitParts(c, start, scope, env, store);
    BlockLowers(start, b);
    var r := LowerBlock(start, b);
    GrowsTmps(start, r.s);
    BranchEnd(c, u, res, ty, r.v, cont);
    SubBlocks(c, r.s, u);
  }

  /** The end of a branch, after its block. */
  lemma {:induction false} BranchStores(c: Context, x: State, start: State, b: Ast.Block, u: State,
      res: Var, ty: Ty, cont: Label,
                      scope: Ast.Scope, env: Ast.Env, fuel: nat, store: Store, lost: bool, n: nat, d: Config)
    returns (m: nat, f: Config, base: Store)
    requires BranchReady(c, x, start, b, u, res, ty, cont, scope, env, store)
    requires BlockRan(c, start, b, scope, Ast.EvalBlock(c.m, b, env, fuel), Leaks.LeaksBlock(c.m, b, env, fuel),
      fuel, store, lost, n, d)
    ensures BranchRan(c, x, start, res, ty, cont, scope, Ast.Expecting(Ast.EvalBlock(c.m, b, env, fuel), b.ty, ty),
      Leaks.LeaksBlock(c.m, b, env, fuel), fuel, store, lost, m, f, base)
  {
    hide Lowers, Runs, Tracked, TmpsKept, Live, Fit, LowerBlock, ContextOk, Valid, Emit, EndBranch, Ast.TypedBlock,
      Ast.BlockFits, Ast.Slippery, Ast.EvalBlock, Leaks.LeaksBlock;
    hide Sub, DropsAt, At, Read, Take, ResultDrops;
    BranchStart(c, x, start, b, u, res, ty, cont, scope, env, store);
    FitParts(c, start, scope, env, store);
    m, f, base := n, d, store;
    var o := Ast.EvalBlock(c.m, b, env, fuel);
    if !Ast.Completes(o) {
      SameDrops(c, x, start, store, lost);
    } else if o.Void? {
      VoidFits(c, b, ty, env, fuel);
      VoidBranchSticks(c, start, b, u, res, scope, o, Leaks.LeaksBlock(c.m, b, env, fuel), fuel, store, lost, n, d);
      m, f := n + 1, Stuck;
    } else if b.ty != ty {
      OnlyUnitSlips(c, b, ty, scope, env, fuel);
      BlockSlips(c, start, b, u, res, ty, scope, o, Leaks.LeaksBlock(c.m, b, env, fuel), fuel, store, lost, n, d);
      m, f := n + 1, Stuck;
    } else {
      CompletedBlockFits(c, b, ty, scope, env, fuel);
      m, f, base := ValueStores(c, x, start, b, u, res, cont, scope, o, Leaks.LeaksBlock(c.m, b, env, fuel),
        fuel, store, lost, n, d);
    }
  }

  /** A block without a value has the type that is expected of it. */
  lemma {:induction false} VoidFits(c: Context, b: Ast.Block, ty: Ty, env: Ast.Env, fuel: nat)
    requires (Ast.BlockFits(c.m, b, ty) || Ast.Slippery(b, ty)) && Ast.EvalBlock(c.m, b, env, fuel).Void?
    ensures b.ty == ty
  {
    hide Ast.EvalStmts;
    BlockParts(c.m, b, env, fuel);
  }

  lemma {:induction false} VoidBranchSticks(c: Context, start: State, b: Ast.Block, u: State, res: Var,
      scope: Ast.Scope, o: Ast.Outcome, leaks: bool, fuel: nat,
                      store: Store, lost: bool, n: nat, d: Config)
    requires ContextOk(c) && o.Void? && BlockRan(c, start, b, scope, o, leaks, fuel, store, lost, n, d)
    requires var r := LowerBlock(start, b);
      Sub(c, EmitAssign(u, Place(res, b.ty), b.ty, r.v)) && u.blocks == r.s.blocks && r.s.blocks != []
    ensures Runs(c, At(start, store, lost), n + 1, Stuck)
  {
    hide Fit, LowerBlock, Runs, Sub, TmpsKept, Tracked, Stale, ContextOk, Emit;
    var r := LowerBlock(start, b);
    EmptyMove(c, r.v.source, b.ty, d.store);
    ValueSticks(c, r.s, u, res, b.ty, r.v, d.store, d.lost);
    RunsJoin(c, At(start, store, lost), n, d, 1, Stuck);
  }

  /** The unit value of a block where another type is expected: the run gets
      stuck. */
  lemma {:induction false} BlockSlips(c: Context, start: State, b: Ast.Block, u: State, res: Var, ty: Ty,
      scope: Ast.Scope, o: Ast.Outcome, leaks: bool, fuel: nat,
                      store: Store, lost: bool, n: nat, d: Config)
    requires ContextOk(c) && o.Normal? && BlockRan(c, start, b, scope, o, leaks, fuel, store, lost, n, d)
      && b.ty == Unit != ty
    requires var r := LowerBlock(start, b);
      Sub(c, EmitAssign(u, Place(res, ty), ty, r.v)) && u.blocks == r.s.blocks && r.s.blocks != []
    ensures Runs(c, At(start, store, lost), n + 1, Stuck)
  {
    hide Fit, LowerBlock, Runs, Sub, TmpsKept, Tracked, Stale, ContextOk, Emit;
    var r := LowerBlock(start, b);
    UnitIsEmpty(c, r.s, scope, o.env, d.store, r.v.source);
    EmptyMove(c, r.v.source, ty, d.store);
    ValueSticks(c, r.s, u, res, ty, r.v, d.store, d.lost);
    RunsJoin(c, At(start, store, lost), n, d, 1, Stuck);
  }

  /** A branch that has completed stores its value and goes on behind the if. */
  lemma {:induction false} ValueStores(c: Context, x: State, start: State, b: Ast.Block,
      u: State, res: Var, cont: Label,
                      scope: Ast.Scope, o: Ast.Outcome, leaks: bool, fuel: nat, store: Store,
                        lost: bool, n: nat, d: Config)
    returns (m: nat, f: Config, base: Store)
    requires ContextOk(c) && o.Normal? && BlockRan(c, start, b, scope, o, leaks, fuel, store, lost, n, d)
      && (b.ty.Unit? ==> o.val == UnitVal)
    requires var r := LowerBlock(start, b);
      && u.blocks == r.s.blocks && r.s.blocks != [] && r.s.frames == start.frames && r.s.returnType == start.returnType
      && Sub(c, EndBranch(u, Place(res, b.ty), r.v, cont)) && Sub(c, u)
    requires Valid(x) && x.frames == start.frames && x.returnType == start.returnType && x.tmpIndex <= start.tmpIndex
    requires res.Tmp? && (forall i :: 0 <= i < |Live(x.frames)| ==> Live(x.frames)[i].0 != res)
    requires (res, b.ty) in c.final.vars
    ensures BranchRan(c, x, start, res, b.ty, cont, scope, o, leaks, fuel, store, lost, m, f, base)
  {
    hide Lowers, Grows, FramesGrow, FramesValid, CodeValid, Added, Within, Runs, ScopeFits, StoreFits, Tracked, Stale,
      Sub, VarsDistinct, Owned, Live, TmpsKept;
    hide Fit, LowerBlock, Valid, ContextOk, Emit, Take, Stored, Read, Broken;
    var r, ty := LowerBlock(start, b), b.ty;
    var from := r.v.source;
    BranchEnd(c, u, res, ty, r.v, cont);
    var a := EmitAssign(u, Place(res, ty), ty, r.v);
    var gone := MoveRuns(c, r.s, u, res, ty, from, d.store, d.lost, o.val);
    base := Take(d.store, from, ty);
    var later := Stored(base, res, ty, o.val);
    JumpRuns(c, a, cont, later, gone);
    f := Running(cont, 0, later, gone);
    RunsJoin(c, At(start, store, lost), n, d, 1, At(a, later, gone));
    RunsJoin(c, At(start, store, lost), n + 1, At(a, later, gone), 1, f);
    FitSame(c, r.s, x, scope, o.env, base);
    TmpsKeptBelow(x.tmpIndex, start.tmpIndex, store, base);
    NotOwned(Live(x.frames), res);
    TrackedAssign(c, Owned(Live(x.frames)), base, d.lost, res, ty, o.val);
    TrackedJoin(c, DropsAt(c, x, store, lost), DropsAt(c, x, base, d.lost),
      ResultDrops(c, x, res, ty, base, o.val, gone), leaks, false);
    m := n + 2;
  }

  lemma {:induction false} BranchEnd(c: Context, u: State, res: Var, ty: Ty, v: Value, cont: Label)
    requires Sub(c, EndBranch(u, Place(res, ty), v, cont)) && u.blocks != []
    ensures var a := EmitAssign(u, Place(res, ty), ty, v);
      a.blocks != [] && Sub(c, a) && Sub(c, u) && EndBranch(u, Place(res, ty), v, cont) == Emit(a, Jump(cont))
  {
    hide Within;
    var a := EmitAssign(u, Place(res, ty), ty, v);
    SubEmit(c, a, Jump(cont));
    SubEmit(c, u, Instruction.Assign(Place(res, ty), ty, v));
  }

  function IfSwitch(e: Ast.Expr, g: Branches): Instruction
    requires e.IfElse?
  {
    Switch(g.x.x, [(1, g.l.first)], Some(if e.elseBlock.Some? then g.l.second else g.l.cont))
  }

  ghost predicate BranchesOk(s: State, e: Ast.Expr, g: Branches)
    requires e.IfElse?
  {
    && g.l == FreshLabels(g.x.s) && g.l.s.blocks == g.x.s.blocks && g.l.s.vars == g.x.s.vars
      && g.x == LowerToVar(s, e.condition, Bool)
    && g.start == StartBlock(Emit(g.l.s, IfSwitch(e, g)), g.l.first) && g.t == LowerBlock(g.start, e.thenBlock)
    && g.res == UndroppedTmp(g.t.s) && g.res.x.Tmp? && g.mid ==
      EndBranch(g.res.s, Place(g.res.x, e.ty), g.t.v, g.l.cont) && g.second == StartBlock(g.mid, g.l.second)
    && Valid(g.x.s) && g.x.x.Tmp? && Valid(g.start) && g.start.frames == g.x.s.frames && g.start.returnType ==
      g.x.s.returnType == s.returnType
    && s.tmpIndex <= g.x.s.tmpIndex <= g.start.tmpIndex <= g.res.x.index && g.x.s.blocks != [] && g.mid.blocks != []
      && g.mid.returnType == s.returnType
    && LowerIfElse(s, e).v == Move(g.res.x)
    && (e.elseBlock.None? ==> LowerIfElse(s, e).s == AddLive(StartBlock(g.mid, g.l.cont), g.res.x, e.ty))
    && (e.elseBlock.Some? ==>
          var f := LowerBlock(g.second, e.elseBlock.value);
          var last := EndBranch(f.s, Place(g.res.x, e.ty), f.v, g.l.cont);
          && Valid(g.second) && g.second.frames == g.x.s.frames && g.x.s.tmpIndex <= g.second.tmpIndex
            && f.s.blocks != [] && last.blocks != []
          && f.s.frames != []
          && LowerIfElse(s, e).s == AddLive(StartBlock(last, g.l.cont), g.res.x, e.ty))
  }

  lemma {:induction false} BranchesAreOk(s: State, e: Ast.Expr)
    requires Valid(s) && e.IfElse?
    ensures BranchesOk(s, e, BranchStages(s, e))
  {
    hide Grows, FramesGrow, FramesValid, CodeValid, Added, LowerToVar, LowerBlock, Live, Valid, Within;
    var g := BranchStages(s, e);
    ToVarLowers(s, e.condition, Bool);
    GrowsTmps(s, g.x.s);
    IfElseLowers(s, e);
    BlockLowers(g.start, e.thenBlock);
    GrowsTmps(g.start, g.t.s);
    if e.elseBlock.Some? {
      BlockLowers(g.second, e.elseBlock.value);
      GrowsTmps(g.second, LowerBlock(g.second, e.elseBlock.value).s);
    }
  }

  /** Every stage of an if is an earlier stage of the finished code. */
  ghost predicate BranchesFinal(c: Context, e: Ast.Expr, g: Branches)
    requires e.IfElse?
  {
    && Sub(c, g.mid) && Sub(c, Emit(g.l.s, IfSwitch(e, g))) && Sub(c, g.x.s) && (g.res.x, e.ty) in c.final.vars
    && (e.elseBlock.Some? ==>
          var f := LowerBlock(g.second, e.elseBlock.value);
          Sub(c, EndBranch(f.s, Place(g.res.x, e.ty), f.v, g.l.cont)))
  }

  lemma {:induction false} BranchesAreFinal(c: Context, s: State, e: Ast.Expr, g: Branches)
    requires e.IfElse? && Sub(c, LowerIfElse(s, e).s) && BranchesOk(s, e, g)
    ensures BranchesFinal(c, e, g)
  {
    hide Grows, FramesGrow, FramesValid, CodeValid, Added, Sub, LowerToVar, LowerBlock, Live, Valid, Within,
      LowerIfElse, FreshLabels, IfSwitch;
    BlockLowers(g.start, e.thenBlock);
    GrowsTmps(g.start, g.t.s);
    var place := Place(g.res.x, e.ty);
    if e.elseBlock.Some? {
      var f := LowerBlock(g.second, e.elseBlock.value);
      var last := EndBranch(f.s, place, f.v, g.l.cont);
      IfElseEnd(c, last, g.res.x, e.ty, g.l.cont);
      BranchEnd(c, f.s, g.res.x, e.ty, f.v, g.l.cont);
      BlockLowers(g.second, e.elseBlock.value);
      SubLowered(c, g.second, f.s);
      SubStart(c, g.mid, g.l.second);
    } else {
      IfElseEnd(c, g.mid, g.res.x, e.ty, g.l.cont);
    }
    BranchEnd(c, g.res.s, g.res.x, e.ty, g.t.v, g.l.cont);
    SubBlocks(c, g.t.s, g.res.s);
    SubLowered(c, g.start, g.t.s);
    SubStart(c, Emit(g.l.s, IfSwitch(e, g)), g.l.first);
    SubEmit(c, g.l.s, IfSwitch(e, g));
    SubBlocks(c, g.x.s, g.l.s);
  }

  lemma {:induction false} IfElseEnd(c: Context, last: State, res: Var, ty: Ty, cont: Label)
    requires Sub(c, AddLive(StartBlock(last, cont), res, ty)) && last.blocks != [] && last.frames != []
    ensures Sub(c, last) && (res, ty) in c.final.vars
  {
    hide Within;
    var q := StartBlock(last, cont);
    LiveAdd(q, res, ty);
    SubVars(c, AddLive(q, res, ty), (res, ty));
    SubBlocks(c, q, AddLive(q, res, ty));
    SubStart(c, last, cont);
  }

  /** What is known of if and its parts. */
  lemma {:induction false} IfElseParts(c: Context, s: State, e: Ast.Expr, scope: Ast.Scope, env: Ast.Env, fuel: nat)
    requires Ast.Typed(c.m, e, scope) && e.IfElse?
    ensures LowerExpr(s, e) == LowerIfElse(s, e) && Ast.TypeOf(e) == e.ty
    ensures Ast.Typed(c.m, e.condition, scope) && Ast.Fits(c.m, e.condition, Bool)
    ensures Ast.TypedBlock(c.m, e.thenBlock, scope)
      && (Ast.BlockFits(c.m, e.thenBlock, e.ty) || Ast.Slippery(e.thenBlock, e.ty))
    ensures if e.elseBlock.Some? then Ast.TypedBlock(c.m, e.elseBlock.value, scope)
      && (Ast.BlockFits(c.m, e.elseBlock.value, e.ty) || Ast.Slippery(e.elseBlock.value, e.ty))
            else e.ty == Unit
    ensures var o := Ast.Needed(Ast.Eval(c.m, e.condition, env, fuel));
      && (!o.Normal? ==>
            && Ast.Eval(c.m, e, env, fuel) == o
            && Leaks.Leaks(c.m, e, env, fuel) == Leaks.Leaks(c.m, e.condition, env, fuel))
      && (o.Normal? ==>
            && Ast.Eval(c.m, e, env, fuel) == BranchOutcome(c.m, e, o, fuel)
            && Leaks.Leaks(c.m, e, env, fuel) ==
              (Leaks.Leaks(c.m, e.condition, env, fuel) || BranchLeaks(c.m, e, o, fuel)))
  {
    hide LowerIfElse, Ast.Fits, Ast.BlockFits, Ast.Slippery, Ast.EvalBlock, Ast.TypedBlock, Leaks.LeaksBlock;
  }

  /** The branch an if takes, after its condition. */
  function Taken(e: Ast.Expr, o: Ast.Outcome): Option<Ast.Block>
    requires e.IfElse? && o.Normal?
  {
    if SwitchKey(o.val) == 1 then Some(e.thenBlock) else e.elseBlock
  }

  function BranchOutcome(m: Machine, e: Ast.Expr, o: Ast.Outcome, fuel: nat): Ast.Outcome
    requires e.IfElse? && o.Normal?
  {
    var b := Taken(e, o);
    if b.None? then Ast.Normal(UnitVal, o.env)
      else Ast.Expecting(Ast.EvalBlock(m, b.value, o.env, fuel), b.value.ty, e.ty)
  }

  predicate BranchLeaks(m: Machine, e: Ast.Expr, o: Ast.Outcome, fuel: nat)
    requires e.IfElse? && o.Normal?
  {
    var b := Taken(e, o);
    b.Some? && Leaks.LeaksBlock(m, b.value, o.env, fuel)
  }

  lemma {:induction false} IfElseStart(c: Context, s: State, e: Ast.Expr, scope: Ast.Scope, env: Ast.Env, store: Store)
    requires ExprReady(c, s, e, scope, env, store) && e.IfElse?
    ensures VarReady(c, s, e.condition, Bool, scope, env, store)
    ensures Valid(s) && s.returnType == c.m.returnType && s.blocks != []
    ensures BranchesOk(s, e, BranchStages(s, e)) && BranchesFinal(c, e, BranchStages(s, e))
  {
    hide Lowers, Sub, Live, Fit, LowerExpr, LowerIfElse, LowerToVar, ContextOk, Valid, BranchStages, Ast.Typed,
      Ast.Fits, Ast.Eval, Leaks.Leaks, BranchOutcome, BranchLeaks;
    FitParts(c, s, scope, env, store);
    IfElseParts(c, s, e, scope, env, 0);
    BranchesAreOk(s, e);
    BranchesAreFinal(c, s, e, BranchStages(s, e));
  }

  /** After the condition the run is at the start of the first branch. */
  lemma {:induction false} ThenNext(c: Context, s: State, e: Ast.Expr, scope: Ast.Scope, env: Ast.Env, fuel: nat,
      store: Store, lost: bool, n: nat, d: Config)
    requires ExprReady(c, s, e, scope, env, store) && e.IfElse?
    requires var o := Ast.Needed(Ast.Eval(c.m, e.condition, env, fuel)); o.Normal? && SwitchKey(o.val) == 1
    requires VarRan(c, s, LowerToVar(s, e.condition, Bool), Bool, scope,
      Ast.Held(e.condition, Ast.Eval(c.m, e.condition, env, fuel)), Leaks.Leaks(c.m, e.condition, env, fuel),
      fuel, store, lost, n, d)
    ensures var g := BranchStages(s, e);
      && d.Running? && Runs(c, At(s, store, lost), n + 1, At(g.start, d.store, d.lost))
      && BranchReady(c, g.x.s, g.start, e.thenBlock, g.res.s, g.res.x, e.ty, g.l.cont, scope,
        Ast.Needed(Ast.Eval(c.m, e.condition, env, fuel)).env, d.store)
    ensures BranchOutcome(c.m, e, Ast.Needed(Ast.Eval(c.m, e.condition, env, fuel)), fuel) ==
      Ast.Expecting(Ast.EvalBlock(c.m, e.thenBlock, Ast.Needed(Ast.Eval(c.m, e.condition, env, fuel)).env, fuel),
      e.thenBlock.ty, e.ty)
    ensures BranchLeaks(c.m, e, Ast.Needed(Ast.Eval(c.m, e.condition, env, fuel)), fuel) ==
      Leaks.LeaksBlock(c.m, e.thenBlock, Ast.Needed(Ast.Eval(c.m, e.condition, env, fuel)).env, fuel)
  {
    hide Lowers, Grows, FramesGrow, FramesValid, CodeValid, Added, Within, Runs, ScopeFits, StoreFits, Tracked, Stale,
      Sub, VarsDistinct, Owned, Live, TmpsKept;
    hide Fit, LowerExpr, LowerIfElse, LowerToVar, LowerBlock, ContextOk, Valid, BranchStages, Ast.Typed,
      Ast.TypedBlock, Ast.BlockFits, Ast.Fits, Ast.Slippery;
    hide Ast.Eval, Leaks.Leaks, Ast.EvalBlock, Leaks.LeaksBlock, Emit, EndBranch, DropsAt, Read, FreshLabels;
    IfElseStart(c, s, e, scope, env, store);
    IfElseParts(c, s, e, scope, env, fuel);
    var g := BranchStages(s, e);
    BranchEndStart(c, e, g);
    LaterTmpNotLive(g.x.s, g.res.x);
    SwitchRuns(c, g.l.s, g.x.x, 1, g.l.first, if e.elseBlock.Some? then g.l.second else g.l.cont, d.store, d.lost,
      Ast.Needed(Ast.Eval(c.m, e.condition, env, fuel)).val);
    RunsJoin(c, At(s, store, lost), n, d, 1, Running(g.l.first, 0, d.store, d.lost));
    FitSame(c, g.x.s, g.start, scope, Ast.Needed(Ast.Eval(c.m, e.condition, env, fuel)).env, d.store);
  }

  lemma {:induction false} BranchEndStart(c: Context, e: Ast.Expr, g: Branches)
    requires e.IfElse? && g.t == LowerBlock(g.start, e.thenBlock) && g.res == UndroppedTmp(g.t.s)
    ensures g.res.s.blocks == g.t.s.blocks && g.t.s.vars <= g.res.s.vars
  {
    hide LowerBlock;
  }

  /** After the condition the run is at the start of the other branch. */
  lemma {:induction false} ElseNext(c: Context, s: State, e: Ast.Expr, scope: Ast.Scope, env: Ast.Env, fuel: nat,
      store: Store, lost: bool, n: nat, d: Config)
    requires ExprReady(c, s, e, scope, env, store) && e.IfElse? && e.elseBlock.Some?
    requires var o := Ast.Needed(Ast.Eval(c.m, e.condition, env, fuel)); o.Normal? && SwitchKey(o.val) != 1
    requires VarRan(c, s, LowerToVar(s, e.condition, Bool), Bool, scope,
      Ast.Held(e.condition, Ast.Eval(c.m, e.condition, env, fuel)), Leaks.Leaks(c.m, e.condition, env, fuel),
      fuel, store, lost, n, d)
    ensures var g := BranchStages(s, e);
      && d.Running? && Runs(c, At(s, store, lost), n + 1, At(g.second, d.store, d.lost))
      && BranchReady(c, g.x.s, g.second, e.elseBlock.value, LowerBlock(g.second, e.elseBlock.value).s, g.res.x, e.ty,
        g.l.cont, scope, Ast.Needed(Ast.Eval(c.m, e.condition, env, fuel)).env, d.store)
    ensures BranchOutcome(c.m, e, Ast.Needed(Ast.Eval(c.m, e.condition, env, fuel)), fuel) ==
      Ast.Expecting(Ast.EvalBlock(c.m, e.elseBlock.value, Ast.Needed(Ast.Eval(c.m, e.condition, env, fuel)).env, fuel),
      e.elseBlock.value.ty, e.ty)
    ensures BranchLeaks(c.m, e, Ast.Needed(Ast.Eval(c.m, e.condition, env, fuel)), fuel) ==
      Leaks.LeaksBlock(c.m, e.elseBlock.value, Ast.Needed(Ast.Eval(c.m, e.condition, env, fuel)).env, fuel)
  {
    hide Lowers, Grows, FramesGrow, FramesValid, CodeValid, Added, Within, Runs, ScopeFits, StoreFits, Tracked, Stale,
      Sub, VarsDistinct, Owned, Live, TmpsKept;
    hide Fit, LowerExpr, LowerIfElse, LowerToVar, LowerBlock, ContextOk, Valid, BranchStages, Ast.Typed,
      Ast.TypedBlock, Ast.BlockFits, Ast.Fits, Ast.Slippery;
    hide Ast.Eval, Leaks.Leaks, Ast.EvalBlock, Leaks.LeaksBlock, Emit, EndBranch, DropsAt, Read, FreshLabels;
    IfElseStart(c, s, e, scope, env, store);
    IfElseParts(c, s, e, scope, env, fuel);
    var g := BranchStages(s, e);
    LaterTmpNotLive(g.x.s, g.res.x);
    SwitchRuns(c, g.l.s, g.x.x, 1, g.l.first, g.l.second, d.store, d.lost,
      Ast.Needed(Ast.Eval(c.m, e.condition, env, fuel)).val);
    RunsJoin(c, At(s, store, lost), n, d, 1, Running(g.l.second, 0, d.store, d.lost));
    FitSame(c, g.x.s, g.second, scope, Ast.Needed(Ast.Eval(c.m, e.condition, env, fuel)).env, d.store);
  }

  /** The condition does not complete, or there is no branch for it. */
  lemma {:induction false} NoBranchArrives(c: Context, s: State, e: Ast.Expr, scope: Ast.Scope, env: Ast.Env,
      fuel: nat, store: Store, lost: bool, n: nat, d: Config)
    returns (m: nat, f: Config)
    requires ExprReady(c, s, e, scope, env, store) && e.IfElse?
    requires var o := Ast.Needed(Ast.Eval(c.m, e.condition, env, fuel)); o.Normal? ==>
      SwitchKey(o.val) != 1 && e.elseBlock.None?
    requires VarRan(c, s, LowerToVar(s, e.condition, Bool), Bool, scope,
      Ast.Held(e.condition, Ast.Eval(c.m, e.condition, env, fuel)), Leaks.Leaks(c.m, e.condition, env, fuel),
      fuel, store, lost, n, d)
    ensures ExprRan(c, s, e, scope, Ast.Eval(c.m, e, env, fuel), Leaks.Leaks(c.m, e, env, fuel),
      fuel, store, lost, m, f)
  {
    hide Lowers, Grows, FramesGrow, FramesValid, CodeValid, Added, Within, Runs, ScopeFits, StoreFits, Tracked, Stale,
      Sub, VarsDistinct, Owned, Live, TmpsKept;
    hide Fit, LowerExpr, LowerIfElse, LowerToVar, LowerBlock, ContextOk, Valid, BranchStages, Ast.Typed,
      Ast.TypedBlock, Ast.BlockFits, Ast.Fits, Ast.Slippery;
    hide Ast.Eval, Leaks.Leaks, Emit, EndBranch, DropsAt, Read, FreshLabels, Arrived, ResultDrops, Stored, AddLive;
    IfElseStart(c, s, e, scope, env, store);
    IfElseParts(c, s, e, scope, env, fuel);
    var g := BranchStages(s, e);
    var o := Ast.Needed(Ast.Eval(c.m, e.condition, env, fuel));
    m, f := n, d;
    if Ast.Held(e.condition, Ast.Eval(c.m, e.condition, env, fuel)).Void? {
      SwitchSticks(c, g.l.s, g.x.x, 1, g.l.first, if e.elseBlock.Some? then g.l.second else g.l.cont, d.store, d.lost);
      RunsJoin(c, At(s, store, lost), n, d, 1, Stuck);
      m, f := n + 1, Stuck;
    } else if o.Normal? {
      SwitchRuns(c, g.l.s, g.x.x, 1, g.l.first, g.l.cont, d.store, d.lost, o.val);
      f := Running(g.l.cont, 0, d.store, d.lost);
      RunsJoin(c, At(s, store, lost), n, d, 1, f);
      m := n + 1;
      NoBranch(c, g.x.s, g.res.x, d.store, d.lost);
      IfElseArrives(c, s, e, g, scope, o.env, UnitVal, Leaks.Leaks(c.m, e.condition, env, fuel),
        store, d.store, lost, d.lost);
    }
  }

  lemma {:induction false} NoBranch(c: Context, x: State, res: Var, store: Store, lost: bool)
    ensures Stored(store, res, Unit, UnitVal) == store && ResultDrops(c, x, res, Unit, store, UnitVal, lost) ==
      DropsAt(c, x, store, lost)
  {
    hide Stale, Owned, Live;
    assert Owned(Live(x.frames)) + {} == Owned(Live(x.frames));
  }

  lemma {:induction false} LaterTmpNotLive(s: State, x: Var)
    requires Valid(s) && x.Tmp? && s.tmpIndex <= x.index
    ensures forall i :: 0 <= i < |Live(s.frames)| ==> Live(s.frames)[i].0 != x
  {
    NewTmpNotLive(s, x.index);
  }

  /** A branch and what came before it. */
  lemma {:induction false} BranchArrives(c: Context, s: State, e: Ast.Expr, start: State, scope: Ast.Scope,
      env: Ast.Env, fuel: nat, store: Store, lost: bool, n: nat, d: Config, k: nat, f: Config, base: Store)
    returns (m: nat, h: Config)
    requires ExprReady(c, s, e, scope, env, store) && e.IfElse?
      && Ast.Needed(Ast.Eval(c.m, e.condition, env, fuel)).Normal? && d.Running?
    requires VarRan(c, s, LowerToVar(s, e.condition, Bool), Bool, scope,
      Ast.Held(e.condition, Ast.Eval(c.m, e.condition, env, fuel)), Leaks.Leaks(c.m, e.condition, env, fuel),
      fuel, store, lost, n, d)
    requires Runs(c, At(s, store, lost), n + 1, At(start, d.store, d.lost))
    requires var g, o := BranchStages(s, e), Ast.Needed(Ast.Eval(c.m, e.condition, env, fuel));
      BranchRan(c, g.x.s, start, g.res.x, e.ty, g.l.cont, scope, BranchOutcome(c.m, e, o, fuel),
        BranchLeaks(c.m, e, o, fuel), fuel, d.store, d.lost, k, f, base)
    ensures ExprRan(c, s, e, scope, Ast.Eval(c.m, e, env, fuel), Leaks.Leaks(c.m, e, env, fuel),
      fuel, store, lost, m, h)
  {
    hide Lowers, Grows, FramesGrow, FramesValid, CodeValid, Added, Within, Runs, ScopeFits, StoreFits, Tracked, Stale,
      Sub, VarsDistinct, Owned, Live, TmpsKept;
    hide Fit, LowerExpr, LowerIfElse, LowerToVar, LowerBlock, ContextOk, Valid, BranchStages, Ast.Typed,
      Ast.TypedBlock, Ast.BlockFits, Ast.Fits, Ast.Slippery;
    hide Ast.Eval, Leaks.Leaks, BranchOutcome, BranchLeaks, Emit, EndBranch, DropsAt, Read, FreshLabels, Broken,
      Arrived, ResultDrops, Stored, At;
    IfElseStart(c, s, e, scope, env, store);
    IfElseParts(c, s, e, scope, env, fuel);
    var g, o := BranchStages(s, e), Ast.Needed(Ast.Eval(c.m, e.condition, env, fuel));
    var p, more := BranchOutcome(c.m, e, o, fuel), BranchLeaks(c.m, e, o, fuel);
    RunsJoin(c, At(s, store, lost), n + 1, At(start, d.store, d.lost), k, f);
    m, h := n + 1 + k, f;
    if p.Normal? {
      TmpsKeptBelow(s.tmpIndex, g.x.s.tmpIndex, d.store, base);
      TmpsKeptJoin(s.tmpIndex, s.tmpIndex, store, d.store, base);
      TrackedJoin(c, DropsAt(c, s, store, lost), DropsAt(c, g.x.s, d.store, d.lost),
        ResultDrops(c, g.x.s, g.res.x, e.ty, base, p.val, f.lost), Leaks.Leaks(c.m, e.condition, env, fuel), more);
      IfElseArrives(c, s, e, g, scope, p.env, p.val, Leaks.Leaks(c.m, e.condition, env, fuel) || more,
        store, base, lost, f.lost);
    } else {
      BrokenLater(c, p, Leaks.Leaks(c.m, e.condition, env, fuel), more, fuel, DropsAt(c, s, store, lost),
        DropsAt(c, g.x.s, d.store, d.lost), k, n + 1, f);
    }
  }

  /** Behind an if, on every path: the result temporary becomes live. */
  lemma {:induction false} IfElseArrives(c: Context, s: State, e: Ast.Expr, g: Branches, scope: Ast.Scope,
      env: Ast.Env, val: Val, leaks: bool,
                      store: Store, base: Store, lost: bool, gone: bool)
    requires ContextOk(c) && Valid(s) && s.returnType == c.m.returnType && e.IfElse? && BranchesOk(s, e, g)
      && BranchesFinal(c, e, g)
    requires Fit(c, g.x.s, scope, env, base) && TmpsKept(s.tmpIndex, store, base)
    requires Tracked(c, DropsAt(c, s, store, lost), ResultDrops(c, g.x.s, g.res.x, e.ty, base, val, gone), leaks)
    requires e.ty.Unit? ==> val == UnitVal
    ensures Arrived(c, s, LowerIfElse(s, e), e.ty, scope, env, val, leaks, store, lost,
      Running(g.l.cont, 0, Stored(base, g.res.x, e.ty, val), gone))
  {
    hide Lowers, Grows, FramesGrow, FramesValid, CodeValid, Added, ScopeFits, StoreFits, Live, TmpsKept, LowerIfElse,
      LowerToVar, Fit, Valid, Sub;
    hide Tracked, Stale, Owned, ContextOk, FreshLabels, Stored, LowerBlock, UndroppedTmp, Emit, EndBranch, AddLive;
    var r, x, res := LowerIfElse(s, e), g.x, g.res.x;
    IfElseShape(s, e, x, g.l, res);
    LaterTmpNotLive(x.s, res);
    FitAddsTmp(c, x.s, r.s, scope, env, base, res, e.ty, val);
    StoredKeepsTmps(s.tmpIndex, store, base, res, e.ty, val);
    OwnedSplit(Live(x.s.frames), [(res, e.ty)]);
    OwnedOne(res, e.ty);
    StoredYields(c, base, res, e.ty, val);
  }

  lemma {:induction false} StoredYields(c: Context, base: Store, res: Var, ty: Ty, val: Val)
    requires ty.Unit? ==> val == UnitVal
    ensures Yields(c, Move(res), ty, Stored(base, res, ty, val), val)
  {
  }

  /** The frames behind an if, and where its code goes on. */
  lemma {:induction false} IfElseShape(s: State, e: Ast.Expr, x: LoweredVar, l: Labels, res: Var)
    requires Valid(s) && e.IfElse? && x == LowerToVar(s, e.condition, Bool) && l == FreshLabels(x.s)
      && LowerIfElse(s, e).v == Move(res)
    ensures var r := LowerIfElse(s, e);
      && Valid(r.s) && r.s.returnType == s.returnType && r.s.blocks != []
        && r.s.blocks[|r.s.blocks| - 1] == Block(l.cont, [])
      && Live(r.s.frames) == Live(x.s.frames) + [(res, e.ty)] && (res, e.ty) in Added(s, r.s)
  {
    hide Lowers, Grows, FramesGrow, FramesValid, CodeValid, Added, Live, LowerIfElse, LowerToVar, LowerBlock, Valid,
      FreshLabels, ThenBranch, EndBranch;
    var r := LowerIfElse(s, e);
    IfElseLowers(s, e);
    IfElseAt(s, e);
    ToVarLowers(s, e.condition, Bool);
    LowersValid(s, r.s, {}, {});
    GrowsTmps(s, x.s);
    GrowsTmps(s, r.s);
    LiveAppend(Live(s.frames), Added(s, x.s), (res, e.ty));
    JustAddedEntry(Added(s, x.s), (res, e.ty));
  }

  lemma {:induction false} LiveAppend(a: Frame, b: Frame, e: (Var, Ty))
    ensures a + (b + [e]) == a + b + [e]
  {
  }

  lemma {:induction false} IfElseAt(s: State, e: Ast.Expr)
    requires Valid(s) && e.IfElse?
    ensures var r := LowerIfElse(s, e);
      var l := FreshLabels(LowerToVar(s, e.condition, Bool).s);
      var x := LowerToVar(s, e.condition, Bool);
      var t := LowerBlock(ThenBranch(x.x, l, e.elseBlock.Some?), e.thenBlock);
      r.v == Move(UndroppedTmp(t.s).x) && r.s.blocks != [] && r.s.blocks[|r.s.blocks| - 1] == Block(l.cont, [])
  {
    hide LowerToVar, LowerBlock;
  }
}

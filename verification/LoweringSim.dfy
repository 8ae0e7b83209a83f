/** Lowered code does what the source does: every evaluation is matched by a
    run of the emitted blocks, with the live variables of the lowering state
    owned by the machine. */
module LoweringSim {
  import opened Collections
  import opened Mir
  import opened Lowering
  import opened LoweringShape
  import opened LoweringStages
  import Ast

  /** The finished code of a function and its loop heads.  With tracked set
      every variable has one type, and drops are accounted for. */
  datatype Context = Context(m: Machine, final: State, heads: set<State>, tracked: bool)

  ghost predicate OneType(vars: seq<(Var, Ty)>) {
    forall i, j :: 0 <= i < |vars| && 0 <= j < |vars| && vars[i].0 == vars[j].0 ==> vars[i].1 == vars[j].1
  }

  ghost predicate ContextOk(c: Context) {
    DistinctLabels(c.final.blocks) && TmpsDistinct(c.final.vars) && (c.tracked ==> OneType(c.final.vars))
  }

  /** The state is an earlier stage of the finished code. */
  ghost predicate Sub(c: Context, s: State) {
    Within(s.blocks, c.final.blocks) && s.vars <= c.final.vars
  }

  /** The variables of a frame that need storage. */
  ghost function Owned(frame: Frame): set<Var> {
    set e | e in frame && !e.1.Unit? :: e.0
  }

  ghost predicate VarsDistinct(frame: Frame) {
    forall i, j :: 0 <= i < j < |frame| ==> frame[i].0 != frame[j].0
  }

  /** All live variables are owned, named variables have their source values,
      and a temporary of the unit type never holds anything. */
  ghost predicate StoreFits(c: Context, store: Store, env: Ast.Env, scope: Ast.Scope, owned: set<Var>) {
    && owned <= store.Keys
    && (forall n :: n in scope && !scope[n].Unit? ==> n in env && Explicit(n) in owned && store[Explicit(n)] == env[n])
    && (forall x :: x in store && x.Tmp? ==> (x, Unit) !in c.final.vars)
  }

  /** The named live variables are those in scope. */
  ghost predicate ScopeFits(scope: Ast.Scope, live: Frame) {
    && VarsDistinct(live)
    && (forall e :: e in live && e.0.Explicit? ==> e.0.name in scope && scope[e.0.name] == e.1)
    && (forall n :: n in scope ==> (Explicit(n), scope[n]) in live)
  }

  ghost predicate Fit(c: Context, s: State, scope: Ast.Scope, env: Ast.Env, store: Store) {
    && Valid(s) && s.returnType == c.m.returnType
    && ScopeFits(scope, Live(s.frames))
    && Ast.EnvFits(env, scope)
    && StoreFits(c, store, env, scope, Owned(Live(s.frames)))
  }

  /** Where the next instruction will be emitted. */
  function At(s: State, store: Store, lost: bool): Config {
    if s.blocks == [] then Stuck else
      var b := s.blocks[|s.blocks| - 1];
      Running(b.lbl, |b.instructions|, store, lost)
  }

  ghost predicate Runs(c: Context, a: Config, n: nat, b: Config) {
    Run(c.m, c.final.blocks, a, n) == b
  }

  lemma {:induction false} RunsSelf(c: Context, a: Config)
    ensures Runs(c, a, 0, a)
  {
  }

  lemma {:induction false} RunsJoin(c: Context, a: Config, n: nat, b: Config, k: nat, d: Config)
    requires Runs(c, a, n, b) && Runs(c, b, k, d)
    ensures Runs(c, a, n + k, d)
  {
    RunJoin(c.m, c.final.blocks, a, n, k);
  }

  // ------------------------------------------------------------------ stages

  lemma {:induction false} SubBefore(c: Context, s: State, t: State)
    requires Sub(c, t) && Within(s.blocks, t.blocks) && s.vars <= t.vars
    ensures Sub(c, s)
  {
    WithinJoin(s.blocks, t.blocks, c.final.blocks);
  }

  lemma {:induction false} SubGrown(c: Context, s: State, t: State)
    requires Sub(c, t) && Grows(s, t, {}, {})
    ensures Sub(c, s)
  {
    SubBefore(c, s, t);
  }

  lemma {:induction false} SubEmit(c: Context, s: State, i: Instruction)
    requires Sub(c, Emit(s, i)) && s.blocks != []
    ensures Sub(c, s)
  {
    var t := Emit(s, i);
    assert Within(s.blocks, t.blocks);
    SubBefore(c, s, t);
  }

  lemma {:induction false} SubStart(c: Context, s: State, l: Label)
    requires Sub(c, StartBlock(s, l)) && s.blocks != []
    ensures Sub(c, s)
  {
    assert Within(s.blocks, StartBlock(s, l).blocks);
    SubBefore(c, s, StartBlock(s, l));
  }

  /** The instruction emitted at a stage is the one executed there. */
  lemma {:induction false} EmitRuns(c: Context, s: State, i: Instruction, store: Store, lost: bool)
    requires ContextOk(c) && Sub(c, Emit(s, i)) && s.blocks != []
    ensures Runs(c, At(s, store, lost), 1, Execute(c.m, i, At(s, store, lost)))
  {
    var k := |s.blocks| - 1;
    var b := c.final.blocks[k];
    var j := IndexOf(c.final.blocks, s.blocks[k].lbl);
    assert b.lbl == s.blocks[k].lbl;
    assert j == k;
    var code := s.blocks[k].instructions;
    assert Emit(s, i).blocks[k].instructions == code + [i];
    assert code + [i] <= b.instructions;
    assert b.instructions[|code|] == (code + [i])[|code|] == i;
    var a := At(s, store, lost);
    assert Step(c.m, c.final.blocks, a) == Execute(c.m, i, a);
    assert Run(c.m, c.final.blocks, a, 1) == Run(c.m, c.final.blocks, Step(c.m, c.final.blocks, a), 0);
  }

  lemma {:induction false} DropRuns(c: Context, s: State, x: Var, ty: Ty, store: Store, lost: bool)
    requires ContextOk(c) && Sub(c, Emit(s, Drop(Place(x, ty), ty))) && s.blocks != []
    requires !ty.Unit? ==> x in store
    ensures Runs(c, At(s, store, lost), 1, At(Emit(s, Drop(Place(x, ty), ty)), Take(store, x, ty), lost))
  {
    EmitRuns(c, s, Drop(Place(x, ty), ty), store, lost);
  }

  lemma {:induction false} OwnedSplit(a: Frame, b: Frame)
    ensures Owned(a + b) == Owned(a) + Owned(b)
  {
    assert forall e :: e in a + b <==> e in a || e in b;
  }

  /** The drops of a frame take its variables out of the store. */
  lemma {:induction false} DropsRun(c: Context, s: State, frame: Frame, store: Store, lost: bool) returns (n: nat)
    requires ContextOk(c) && Sub(c, EmitDrops(s, frame)) && s.blocks != []
    requires VarsDistinct(frame) && Owned(frame) <= store.Keys
    ensures Runs(c, At(s, store, lost), n, At(EmitDrops(s, frame), store - Owned(frame), lost)) && Sub(c, s)
    decreases |frame|
  {
    hide Runs, Sub, ContextOk, At, VarsDistinct, Owned, Emit, Take;
    n := 0;
    if frame == [] {
      OwnedNone();
      assert store - Owned(frame) == store;
      RunsSelf(c, At(s, store, lost));
    } else {
      var k := |frame| - 1;
      var x, ty := frame[k].0, frame[k].1;
      var t := Emit(s, Drop(Place(x, ty), ty));
      var after := Take(store, x, ty);
      DropsSplit(frame, store);
      EmitBlocks(s, Drop(Place(x, ty), ty));
      n := DropsRun(c, t, frame[..k], after, lost);
      SubEmit(c, s, Drop(Place(x, ty), ty));
      DropRuns(c, s, x, ty, store, lost);
      RunsJoin(c, At(s, store, lost), 1, At(t, after, lost), n, At(EmitDrops(s, frame), store - Owned(frame), lost));
      n := 1 + n;
    }
  }

  lemma {:induction false} EmitBlocks(s: State, i: Instruction)
    requires s.blocks != []
    ensures Emit(s, i).blocks != []
  {
  }

  /** The last variable of a frame is taken first, then the others. */
  lemma {:induction false} DropsSplit(frame: Frame, store: Store)
    requires frame != [] && VarsDistinct(frame) && Owned(frame) <= store.Keys
    ensures var k := |frame| - 1;
      var after := Take(store, frame[k].0, frame[k].1);
      && (!frame[k].1.Unit? ==> frame[k].0 in store)
      && VarsDistinct(frame[..k]) && Owned(frame[..k]) <= after.Keys
      && after - Owned(frame[..k]) == store - Owned(frame)
  {
    hide VarsDistinct, Owned;
    var k := |frame| - 1;
    var x, ty, rest := frame[k].0, frame[k].1, frame[..k];
    assert frame == rest + [frame[k]];
    OwnedSplit(rest, [frame[k]]);
    OwnedOne(x, ty);
    DistinctSplit(rest, [frame[k]]);
    OwnedDisjoint(rest, [frame[k]]);
    assert Take(store, x, ty) - Owned(rest) == store - Owned(frame);
  }

  lemma {:induction false} AllDropsRun(c: Context, s: State, frames: seq<Frame>, store: Store,
      lost: bool) returns (n: nat)
    requires ContextOk(c) && Sub(c, EmitAllDrops(s, frames)) && s.blocks != []
    requires VarsDistinct(Live(frames)) && Owned(Live(frames)) <= store.Keys
    ensures Runs(c, At(s, store, lost), n, At(EmitAllDrops(s, frames), store - Owned(Live(frames)), lost)) && Sub(c, s)
    decreases |frames|
  {
    hide Runs, Sub, ContextOk, At;
    n := 0;
    if frames == [] {
      assert store - Owned(Live(frames)) == store;
      RunsSelf(c, At(s, store, lost));
    } else {
      var k := |frames| - 1;
      var outer, top := Live(frames[..k]), frames[k];
      assert Live(frames) == outer + top;
      OwnedSplit(outer, top);
      DistinctSplit(outer, top);
      OwnedDisjoint(outer, top);
      var after := store - Owned(top);
      EmitDropsBlocks(s, top);
      n := AllDropsRun(c, EmitDrops(s, top), frames[..k], after, lost);
      var m := DropsRun(c, s, top, store, lost);
      RunsJoin(c, At(s, store, lost), m, At(EmitDrops(s, top), after, lost), n,
        At(EmitAllDrops(s, frames), after - Owned(outer), lost));
      assert after - Owned(outer) == store - Owned(Live(frames));
      n := m + n;
    }
  }

  lemma {:induction false} OwnedNone()
    ensures Owned([]) == {}
  {
  }

  lemma {:induction false} DistinctSplit(a: Frame, b: Frame)
    requires VarsDistinct(a + b)
    ensures VarsDistinct(a) && VarsDistinct(b)
  {
    assert forall i :: 0 <= i < |a| ==> (a + b)[i] == a[i];
    assert forall i :: 0 <= i < |b| ==> (a + b)[|a| + i] == b[i];
  }

  lemma {:induction false} OwnedDisjoint(a: Frame, b: Frame)
    requires VarsDistinct(a + b)
    ensures Owned(a) !! Owned(b)
  {
    forall d, e | d in a && e in b
      ensures d.0 != e.0
    {
      DistinctAcross(a, b, d, e);
    }
  }

  lemma {:induction false} DistinctAcross(a: Frame, b: Frame, d: (Var, Ty), e: (Var, Ty))
    requires VarsDistinct(a + b) && d in a && e in b
    ensures d.0 != e.0
  {
    var i :| 0 <= i < |a| && a[i] == d;
    var j :| 0 <= j < |b| && b[j] == e;
    assert (a + b)[i] == d && (a + b)[|a| + j] == e;
  }

  lemma {:induction false} EmitDropsBlocks(s: State, frame: Frame)
    requires s.blocks != []
    ensures EmitDrops(s, frame).blocks != []
    decreases |frame|
  {
    if frame != [] {
      var last := frame[|frame| - 1];
      EmitDropsBlocks(Emit(s, Drop(Place(last.0, last.1), last.1)), frame[..|frame| - 1]);
    }
  }

  // ------------------------------------------------------------------- drops

  /** Whether a managed value has been overwritten, and which managed variables
      hold a value without being live: nothing will drop them. */
  datatype Drops = Drops(lost: bool, stale: set<Var>)

  ghost predicate IsManaged(c: Context, x: Var) {
    (x, Managed) in c.final.vars
  }

  ghost function Stale(c: Context, owned: set<Var>, store: Store): set<Var> {
    set x | x in store && x !in owned && IsManaged(c, x)
  }

  ghost function DropsAt(c: Context, s: State, store: Store, lost: bool): Drops {
    Drops(lost, Stale(c, Owned(Live(s.frames)), store))
  }

  ghost predicate Clean(a: Drops) {
    !a.lost && a.stale == {}
  }

  /** What was lost stays lost and what was stale stays stale or is overwritten;
      a leak shows, and without one nothing new turns up. */
  ghost predicate Tracked(c: Context, a: Drops, b: Drops, leaks: bool) {
    c.tracked ==>
      && (a.lost ==> b.lost)
      && (b.lost || a.stale <= b.stale)
      && (leaks ==> !Clean(b))
      && (Clean(a) && !leaks ==> Clean(b))
  }

  lemma {:induction false} TrackedJoin(c: Context, a: Drops, b: Drops, d: Drops, leaks: bool, more: bool)
    requires Tracked(c, a, b, leaks) && Tracked(c, b, d, more)
    ensures Tracked(c, a, d, leaks || more)
  {
  }

  lemma {:induction false} TrackedSame(c: Context, a: Drops)
    ensures Tracked(c, a, a, false)
  {
  }

  lemma {:induction false} ManagedIs(c: Context, x: Var, ty: Ty)
    requires ContextOk(c) && c.tracked && (x, ty) in c.final.vars
    ensures IsManaged(c, x) <==> ty.Managed?
  {
    var i :| 0 <= i < |c.final.vars| && c.final.vars[i] == (x, ty);
  }

  /** A variable that is not live is assigned and becomes live. */
  lemma {:induction false} TrackedAssign(c: Context, owned: set<Var>, store: Store,
      lost: bool, x: Var, ty: Ty, val: Val)
    requires ContextOk(c) && (x, ty) in c.final.vars && x !in owned
    ensures Tracked(c, Drops(lost, Stale(c, owned, store)),
      Drops(lost || (ty.Managed? && x in store),
        Stale(c, owned + (if ty.Unit? then {} else {x}), Stored(store, x, ty, val))), false)
  {
    if c.tracked {
      ManagedIs(c, x, ty);
      if ty.Managed? && x in store {
        assert x in Stale(c, owned, store);
      } else {
        assert Stale(c, owned + (if ty.Unit? then {} else {x}), Stored(store, x, ty, val)) == Stale(c, owned, store);
      }
    }
  }

  lemma {:induction false} StaleTaken(c: Context, owned: set<Var>, store: Store, x: Var, ty: Ty)
    requires !ty.Unit? ==> x in owned
    ensures Stale(c, if ty.Unit? then owned else owned - {x}, Take(store, x, ty)) == Stale(c, owned, store)
  {
  }

  lemma {:induction false} StaleDropped(c: Context, owned: set<Var>, top: set<Var>, store: Store)
    requires top <= owned
    ensures Stale(c, owned - top, store - top) == Stale(c, owned, store)
  {
  }

  /** Variables that are forgotten without a drop. */
  lemma {:induction false} TrackedForget(c: Context, below: Frame, top: Frame, store: Store, lost: bool)
    requires ContextOk(c) && VarsDistinct(below + top) && Owned(below + top) <= store.Keys
    requires forall e :: e in top ==> e in c.final.vars
    ensures Tracked(c, Drops(lost, Stale(c, Owned(below + top), store)),
      Drops(lost, Stale(c, Owned(below), store)), !PlainFrame(top))
  {
    OwnedSplit(below, top);
    OwnedDisjoint(below, top);
    if c.tracked {
      var before, after := Stale(c, Owned(below + top), store), Stale(c, Owned(below), store);
      if PlainFrame(top) {
        forall x | x in Owned(top)
          ensures !IsManaged(c, x)
        {
          var e :| e in top && !e.1.Unit? && e.0 == x;
          var i :| 0 <= i < |top| && top[i] == e;
          ManagedIs(c, x, e.1);
        }
        assert after == before;
      } else {
        var i :| 0 <= i < |top| && top[i].1.Managed?;
        assert top[i] in top;
        assert top[i].0 in Owned(top);
        assert top[i].0 in after;
      }
    }
  }

  // ------------------------------------------------------------- assignments

  /** The pending value evaluates to val. */
  ghost predicate Yields(c: Context, v: Value, ty: Ty, store: Store, val: Val) {
    var e := EvalValue(c.m, v, ty, store);
    e.Some? && e.value.val == val
  }

  function Stored(store: Store, x: Var, ty: Ty, val: Val): Store {
    if ty.Unit? then store else store[x := val]
  }

  /** The store once the value has been taken out of where it was. */
  function Spent(store: Store, v: Value, ty: Ty): Store {
    if v.Move? then Take(store, v.source, ty) else store
  }

  lemma {:induction false} AssignRuns(c: Context, s: State, x: Var, ty: Ty, v: Value,
      store: Store, lost: bool, val: Val)
    requires ContextOk(c) && Sub(c, EmitAssign(s, Place(x, ty), ty, v)) && s.blocks != []
    requires Yields(c, v, ty, store, val)
    ensures Sub(c, s)
    ensures Runs(c, At(s, store, lost), 1,
      At(EmitAssign(s, Place(x, ty), ty, v), Stored(Spent(store, v, ty), x, ty, val),
        lost || (ty.Managed? && x in Spent(store, v, ty))))
  {
    EmitRuns(c, s, Assign(Place(x, ty), ty, v), store, lost);
    SubEmit(c, s, Assign(Place(x, ty), ty, v));
  }

  /** A temporary is declared with one type only. */
  lemma {:induction false} TmpTypeUnique(c: Context, x: Var, ty: Ty)
    requires ContextOk(c) && x.Tmp? && (x, ty) in c.final.vars
    ensures forall other :: (x, other) in c.final.vars ==> other == ty
  {
    var i :| 0 <= i < |c.final.vars| && c.final.vars[i] == (x, ty);
    forall other | (x, other) in c.final.vars
      ensures other == ty
    {
      var j :| 0 <= j < |c.final.vars| && c.final.vars[j] == (x, other);
    }
  }

  lemma {:induction false} NewTmpNotLive(s: State, k: nat)
    requires FramesValid(s) && s.tmpIndex <= k
    ensures forall i :: 0 <= i < |Live(s.frames)| ==> Live(s.frames)[i].0 != Tmp(k)
    ensures Tmp(k) !in Owned(Live(s.frames))
  {
  }

  lemma {:induction false} OwnedOne(x: Var, ty: Ty)
    ensures Owned([(x, ty)]) == if ty.Unit? then {} else {x}
  {
    assert [(x, ty)][0] == (x, ty);
  }

  lemma {:induction false} ScopeAddsTmp(scope: Ast.Scope, live: Frame, x: Var, ty: Ty)
    requires ScopeFits(scope, live) && x.Tmp?
    requires forall i :: 0 <= i < |live| ==> live[i].0 != x
    ensures ScopeFits(scope, live + [(x, ty)])
  {
    var more := live + [(x, ty)];
    forall n | n in scope
      ensures (Explicit(n), scope[n]) in more
    {
      var i :| 0 <= i < |live| && live[i] == (Explicit(n), scope[n]);
      assert more[i] == live[i];
    }
  }

  /** A new live temporary with its value. */
  lemma {:induction false} FitAddsTmp(c: Context, t: State, u: State, scope: Ast.Scope, env: Ast.Env,
      store: Store, x: Var, ty: Ty, val: Val)
    requires ContextOk(c) && Fit(c, t, scope, env, store) && (x, ty) in c.final.vars
    requires Valid(u) && u.returnType == t.returnType && Live(u.frames) == Live(t.frames) + [(x, ty)]
    requires x.Tmp? && forall i :: 0 <= i < |Live(t.frames)| ==> Live(t.frames)[i].0 != x
    ensures Fit(c, u, scope, env, Stored(store, x, ty, val))
  {
    ScopeAddsTmp(scope, Live(t.frames), x, ty);
    OwnedSplit(Live(t.frames), [(x, ty)]);
    OwnedOne(x, ty);
    TmpTypeUnique(c, x, ty);
  }

  /** Drops are tracked when a temporary becomes live with its value. */
  lemma {:induction false} TrackedTmp(c: Context, t: State, u: State, store: Store,
      lost: bool, x: Var, ty: Ty, val: Val)
    requires ContextOk(c) && (x, ty) in c.final.vars && Live(u.frames) == Live(t.frames) + [(x, ty)]
    requires forall i :: 0 <= i < |Live(t.frames)| ==> Live(t.frames)[i].0 != x
    ensures Tracked(c, DropsAt(c, t, store, lost),
      DropsAt(c, u, Stored(store, x, ty, val), lost || (ty.Managed? && x in store)), false)
  {
    OwnedSplit(Live(t.frames), [(x, ty)]);
    OwnedOne(x, ty);
    NotOwned(Live(t.frames), x);
    TrackedAssign(c, Owned(Live(t.frames)), store, lost, x, ty, val);
  }

  lemma {:induction false} NotOwned(frame: Frame, x: Var)
    requires forall i :: 0 <= i < |frame| ==> frame[i].0 != x
    ensures x !in Owned(frame)
  {
    forall e | e in frame
      ensures e.0 != x
    {
      var i :| 0 <= i < |frame| && frame[i] == e;
    }
  }

  lemma {:induction false} WithoutMembers(frame: Frame, x: Var, ty: Ty)
    requires VarsDistinct(frame) && (x, ty) in frame
    ensures forall e :: e in Without(frame, x) <==> e in frame && e.0 != x
    ensures forall e :: e in frame && e.0 == x ==> e.1 == ty
    ensures VarsDistinct(Without(frame, x))
  {
    hide Without;
    var i, w := PositionOf(frame, x), Without(frame, x);
    EntryIsUnique(frame, x, ty);
    WithoutIs(frame, x);
    forall k | 0 <= k < |w|
      ensures w[k] in frame && w[k].0 != x
    {
      assert w[k] == frame[if k < i then k else k + 1];
    }
    forall e | e in frame && e.0 != x
      ensures e in w
    {
      WithoutStays(frame, x, e);
    }
  }

  lemma {:induction false} EntryIsUnique(frame: Frame, x: Var, ty: Ty)
    requires VarsDistinct(frame) && (x, ty) in frame
    ensures PositionOf(frame, x) < |frame| && frame[PositionOf(frame, x)] == (x, ty)
    ensures forall e :: e in frame && e.0 == x ==> e.1 == ty
  {
    var i := PositionOf(frame, x);
    var j :| 0 <= j < |frame| && frame[j] == (x, ty);
    forall e | e in frame && e.0 == x
      ensures e.1 == ty
    {
      var k :| 0 <= k < |frame| && frame[k] == e;
      assert k == j;
    }
  }

  lemma {:induction false} OwnedWithout(frame: Frame, x: Var, ty: Ty)
    requires VarsDistinct(frame) && (x, ty) in frame
    ensures Owned(Without(frame, x)) == if ty.Unit? then Owned(frame) else Owned(frame) - {x}
  {
    WithoutMembers(frame, x, ty);
  }

  /** A live temporary is taken off its frame together with its value. */
  lemma {:induction false} FitTakesTmp(c: Context, t: State, u: State, scope: Ast.Scope, env: Ast.Env, store: Store,
      a: Frame, b: Frame, x: Var, ty: Ty)
    requires Fit(c, t, scope, env, store)
    requires Valid(u) && u.returnType == t.returnType
    requires Live(t.frames) == a + b && Live(u.frames) == a + Without(b, x) && x.Tmp? && (x, ty) in b
    ensures Fit(c, u, scope, env, Take(store, x, ty))
    ensures Read(store, x, ty).Some?
    ensures forall lost :: DropsAt(c, u, Take(store, x, ty), lost) == DropsAt(c, t, store, lost)
  {
    var w := Without(b, x);
    DistinctSplit(a, b);
    OwnedWithout(b, x, ty);
    OwnedSplit(a, b);
    OwnedSplit(a, w);
    OwnedDisjoint(a, b);
    TakeKeepsScope(scope, a, b, x, ty);
    if !ty.Unit? {
      OwnedMember(b, x, ty);
    }
    assert Owned(a + w) == if ty.Unit? then Owned(a + b) else Owned(a + b) - {x};
    StaleTaken(c, Owned(a + b), store, x, ty);
  }

  lemma {:induction false} OwnedMember(frame: Frame, x: Var, ty: Ty)
    requires (x, ty) in frame && !ty.Unit?
    ensures x in Owned(frame)
  {
  }

  lemma {:induction false} TakeKeepsScope(scope: Ast.Scope, a: Frame, b: Frame, x: Var, ty: Ty)
    requires ScopeFits(scope, a + b) && x.Tmp? && (x, ty) in b
    ensures ScopeFits(scope, a + Without(b, x))
  {
    var w := Without(b, x);
    DistinctSplit(a, b);
    WithoutMembers(b, x, ty);
    DistinctJoin(a, b, w);
    forall n | n in scope
      ensures (Explicit(n), scope[n]) in a + w
    {
      assert (Explicit(n), scope[n]) in a + b;
    }
  }

  lemma {:induction false} DistinctJoin(a: Frame, b: Frame, w: Frame)
    requires VarsDistinct(a + b) && VarsDistinct(w) && forall e :: e in w ==> e in b
    ensures VarsDistinct(a + w)
  {
    DistinctSplit(a, b);
    forall i, j | 0 <= i < j < |a + w|
      ensures (a + w)[i].0 != (a + w)[j].0
    {
      if i < |a| <= j {
        assert w[j - |a|] in b;
        var k :| 0 <= k < |b| && b[k] == w[j - |a|];
        assert (a + b)[i] == a[i] && (a + b)[|a| + k] == b[k];
      }
    }
  }

  /** Temporaries below k keep their values. */
  ghost predicate TmpsKept(k: nat, store: Store, later: Store) {
    forall i :: 0 <= i < k && Tmp(i) in store ==> Tmp(i) in later && later[Tmp(i)] == store[Tmp(i)]
  }

  /** assign_to_var: the value ends up in a live temporary. */
  lemma {:induction false} AssignToVarRuns(c: Context, s: State, t: State, v: Value, ty: Ty, scope: Ast.Scope,
      env: Ast.Env, store: Store, lost: bool, val: Val)
    returns (n: nat, later: Store, gone: bool)
    requires ContextOk(c) && Valid(s) && Lowers(s, t, {}, {}) && ValueOk(s, t, v)
    requires Fit(c, t, scope, env, store) && Sub(c, AssignToVar(t, v, ty).s)
    requires Yields(c, v, ty, store, val) && (ty.Unit? ==> val == UnitVal)
    requires v.Move? ==> (v.source, ty) in Added(s, t)
    ensures var r := AssignToVar(t, v, ty);
      && Runs(c, At(t, store, lost), n, At(r.s, later, gone))
      && (r.x, ty) in Added(s, r.s) && Read(later, r.x, ty) == Some(val)
      && Fit(c, r.s, scope, env, later) && TmpsKept(t.tmpIndex, store, later)
      && Tracked(c, DropsAt(c, t, store, lost), DropsAt(c, r.s, later, gone), false)
    ensures Sub(c, t)
  {
    hide Lowers, Grows, FramesGrow, Added, Within;
    if v.Move? {
      AssignToVarLowers(s, t, {}, {}, v, ty);
      n, later, gone := 0, store, lost;
      RunsSelf(c, At(t, store, lost));
      TrackedSame(c, DropsAt(c, t, store, lost));
    } else {
      n, later, gone := AssignTmpRuns(c, s, t, v, ty, scope, env, store, lost, val);
    }
  }

  lemma {:induction false} LiveAdd(s: State, x: Var, ty: Ty)
    requires s.frames != []
    ensures Live(AddLive(s, x, ty).frames) == Live(s.frames) + [(x, ty)]
    ensures (x, ty) in AddLive(s, x, ty).vars && s.vars <= AddLive(s, x, ty).vars
  {
    var t := AddLive(s, x, ty);
    var k := |s.frames| - 1;
    assert t.frames[..k] == s.frames[..k];
    assert t.vars[|s.vars|] == (x, ty);
  }

  lemma {:induction false} AssignTmpRuns(c: Context, s: State, t: State, v: Value, ty: Ty, scope: Ast.Scope,
      env: Ast.Env, store: Store, lost: bool, val: Val)
    returns (n: nat, later: Store, gone: bool)
    requires ContextOk(c) && Valid(s) && Lowers(s, t, {}, {}) && !v.Move?
    requires Fit(c, t, scope, env, store) && Sub(c, AssignToVar(t, v, ty).s)
    requires Yields(c, v, ty, store, val) && (ty.Unit? ==> val == UnitVal)
    ensures var r := AssignToVar(t, v, ty);
      && Runs(c, At(t, store, lost), n, At(r.s, later, gone))
      && (r.x, ty) in Added(s, r.s) && Read(later, r.x, ty) == Some(val)
      && Fit(c, r.s, scope, env, later) && TmpsKept(t.tmpIndex, store, later)
      && Tracked(c, DropsAt(c, t, store, lost), DropsAt(c, r.s, later, gone), false)
    ensures Sub(c, t)
  {
    hide Lowers, Grows, FramesGrow, Added, Within, Runs, ScopeFits, StoreFits, CodeValid, Tracked, Stale, Owned, Live,
      VarsDistinct, ContextOk, Sub;
    var r := AssignToVar(t, v, ty);
    AssignToVarLowers(s, t, {}, {}, v, ty);
    LowersValid(s, r.s, {}, {});
    var x := Tmp(t.tmpIndex);
    var u := UndroppedTmp(t).s;
    var d := AddLive(u, x, ty);
    n, later, gone := 1, Stored(store, x, ty, val), lost || (ty.Managed? && x in store);
    LiveAdd(u, x, ty);
    AssignRuns(c, d, x, ty, v, store, lost, val);
    SubBlocks(c, t, d);
    NewTmpNotLive(t, t.tmpIndex);
    SubVars(c, r.s, (x, ty));
    FitAddsTmp(c, t, r.s, scope, env, store, x, ty, val);
    TrackedTmp(c, t, r.s, store, lost, x, ty, val);
    JustAddedEntry(Added(s, t), (x, ty));
  }

  lemma {:induction false} JustAddedEntry(frame: Frame, e: (Var, Ty))
    ensures e in frame + [e]
  {
    assert (frame + [e])[|frame|] == e;
  }

  lemma {:induction false} SubVars(c: Context, s: State, e: (Var, Ty))
    requires Sub(c, s) && e in s.vars
    ensures e in c.final.vars
  {
  }

  lemma {:induction false} SubBlocks(c: Context, s: State, t: State)
    requires Sub(c, t) && s.blocks == t.blocks && s.vars <= t.vars
    ensures Sub(c, s)
  {
  }

  // ---------------------------------------------------------------- outcomes

  /** The run has arrived where lowering went on, with the value of the
      expression pending. */
  ghost predicate Arrived(c: Context, s: State, r: Lowered, ty: Ty, scope: Ast.Scope,
      env: Ast.Env, val: Val, leaks: bool,
                          store: Store, lost: bool, d: Config)
  {
    && d.Running? && d == At(r.s, d.store, d.lost)
    && Fit(c, r.s, scope, env, d.store)
    && TmpsKept(s.tmpIndex, store, d.store)
    && Yields(c, r.v, ty, d.store, val)
    && (r.v.Move? ==> (r.v.source, ty) in Added(s, r.s))
    && Tracked(c, DropsAt(c, s, store, lost), DropsAt(c, r.s, d.store, d.lost), leaks)
  }

  /** The run has arrived where lowering went on, but the pending value cannot
      be evaluated. */
  ghost predicate ArrivedVoid(c: Context, s: State, r: Lowered, ty: Ty, scope: Ast.Scope, env: Ast.Env, leaks: bool,
                              store: Store, lost: bool, d: Config)
  {
    && d.Running? && d == At(r.s, d.store, d.lost)
    && Fit(c, r.s, scope, env, d.store)
    && TmpsKept(s.tmpIndex, store, d.store)
    && EvalValue(c.m, r.v, ty, d.store).None?
    && (r.v.Move? ==> (r.v.source, Unit) in Added(s, r.s))
    && Tracked(c, DropsAt(c, s, store, lost), DropsAt(c, r.s, d.store, d.lost), leaks)
  }

  /** The drops once a run is over, when nothing is live any more. */
  ghost function EndDrops(c: Context, d: Config): Drops
    requires d.Finished?
  {
    Drops(d.lost, Stale(c, {}, d.store))
  }

  /** The run is at the head of a loop, where all live variables are owned. */
  ghost predicate AtHead(t: State, d: Config) {
    d.Running? && d == At(t, d.store, d.lost) && Owned(Live(t.frames)) <= d.store.Keys
  }

  /** The run is at the head of a loop; drops are accounted for up to there. */
  ghost predicate Paused(c: Context, a: Drops, leaks: bool, d: Config)
    requires d.Running?
  {
    exists t :: t in c.heads && AtHead(t, d) && Tracked(c, a, DropsAt(c, t, d.store, d.lost), leaks)
  }

  /** The run is over, or has gone on for as long as the fuel allows; a tells
      about drops where it began. */
  ghost predicate Broken(c: Context, o: Ast.Outcome, leaks: bool, fuel: nat, a: Drops, n: nat, d: Config) {
    match o
    case Normal(_, _) => false
    case Void(_) => false
    case Returned(v) => d.Finished? && d.result == v && Tracked(c, a, EndDrops(c, d), leaks)
    case Slipped => d.Stuck?
    case Timeout => d.Running? && n >= fuel && Paused(c, a, leaks, d)
  }

  ghost predicate ExprRan(c: Context, s: State, e: Ast.Expr, scope: Ast.Scope, o: Ast.Outcome, leaks: bool, fuel: nat,
                          store: Store, lost: bool, n: nat, d: Config)
  {
    && Runs(c, At(s, store, lost), n, d)
    && if o.Normal? then Arrived(c, s, LowerExpr(s, e), Ast.TypeOf(e), scope, o.env, o.val, leaks, store, lost, d)
       else if o.Void? then ArrivedVoid(c, s, LowerExpr(s, e), Ast.TypeOf(e), scope, o.env, leaks, store, lost, d)
       else Broken(c, o, leaks, fuel, DropsAt(c, s, store, lost), n, d)
  }

  /** Like ExprRan, with the value in a live temporary of type ty, or with an
      empty one of the unit type. */
  ghost predicate VarRan(c: Context, s: State, r: LoweredVar, ty: Ty, scope: Ast.Scope,
      o: Ast.Outcome, leaks: bool, fuel: nat,
                         store: Store, lost: bool, n: nat, d: Config)
  {
    && Runs(c, At(s, store, lost), n, d)
    && if o.Normal? then
         && d.Running? && d == At(r.s, d.store, d.lost)
         && Fit(c, r.s, scope, o.env, d.store)
         && TmpsKept(s.tmpIndex, store, d.store)
         && Read(d.store, r.x, ty) == Some(o.val)
         && (r.x, ty) in Added(s, r.s)
         && Tracked(c, DropsAt(c, s, store, lost), DropsAt(c, r.s, d.store, d.lost), leaks)
       else if o.Void? then
         && d.Running? && d == At(r.s, d.store, d.lost)
         && Fit(c, r.s, scope, o.env, d.store)
         && TmpsKept(s.tmpIndex, store, d.store)
         && r.x !in d.store && !ty.Unit?
         && (r.x, Unit) in Added(s, r.s)
         && Tracked(c, DropsAt(c, s, store, lost), DropsAt(c, r.s, d.store, d.lost), leaks)
       else Broken(c, o, leaks, fuel, DropsAt(c, s, store, lost), n, d)
  }

  ghost predicate Ready(c: Context, s: State, scope: Ast.Scope, env: Ast.Env, store: Store) {
    ContextOk(c) && Fit(c, s, scope, env, store)
  }

  ghost predicate ExprReady(c: Context, s: State, e: Ast.Expr, scope: Ast.Scope, env: Ast.Env, store: Store) {
    && Ready(c, s, scope, env, store)
    && Ast.Typed(c.m, e, scope)
    && Sub(c, LowerExpr(s, e).s) && HeadsOf(s, e) <= c.heads
  }

  lemma {:induction false} BrokenLater(c: Context, o: Ast.Outcome, leaks: bool, more: bool, fuel: nat, a: Drops,
      b: Drops, n: nat, k: nat, d: Config)
    requires Tracked(c, a, b, leaks) && Broken(c, o, more, fuel, b, n, d)
    ensures Broken(c, o, leaks || more, fuel, a, k + n, d)
  {
    hide Tracked, AtHead, DropsAt;
    if o.Timeout? {
      var t :| t in c.heads && AtHead(t, d) && Tracked(c, b, DropsAt(c, t, d.store, d.lost), more);
      TrackedJoin(c, a, b, DropsAt(c, t, d.store, d.lost), leaks, more);
    } else if o.Returned? {
      TrackedJoin(c, a, b, EndDrops(c, d), leaks, more);
    }
  }

  lemma {:induction false} TmpsKeptJoin(k: nat, l: nat, a: Store, b: Store, d: Store)
    requires k <= l && TmpsKept(k, a, b) && TmpsKept(l, b, d)
    ensures TmpsKept(k, a, d)
  {
  }

  // ------------------------------------------------------------------ return

  lemma {:induction false} ReturnRuns(c: Context, s: State, t: State, v: Value, scope: Ast.Scope, env: Ast.Env,
      store: Store, lost: bool, val: Val, fuel: nat)
    returns (n: nat, d: Config)
    requires Ready(c, t, scope, env, store) && Valid(s) && Lowers(s, t, {}, {}) && ValueOk(s, t, v)
    requires Sub(c, ReturnValue(t, v).s)
    requires Yields(c, v, t.returnType, store, val) && (t.returnType.Unit? ==> val == UnitVal)
    requires v.Move? ==> (v.source, t.returnType) in Added(s, t)
    ensures Runs(c, At(t, store, lost), n, d)
      && Broken(c, Ast.Returned(val), false, fuel, DropsAt(c, t, store, lost), n, d)
  {
    hide Lowers, Grows, FramesGrow, FramesValid, CodeValid, Added, Within, Runs, ScopeFits, StoreFits,
      Sub, Yields, Tracked, Stale;
    hide VarsDistinct, Owned, Live, TmpsKept, RemoveLive, AssignToVar, EmitAllDrops, Emit, Broken, Take, Read;
    RemoveKeepsCode(AssignToVar(t, v, t.returnType).s, AssignToVar(t, v, t.returnType).x);
    var ty := t.returnType;
    var a := AssignToVar(t, v, ty);
    var u := RemoveLive(a.s, a.x);
    ReturnStages(c, s, t, v);
    var k, later, gone := AssignToVarRuns(c, s, t, v, ty, scope, env, store, lost, val);
    RemoveRuns(c, s, a.s, scope, env, later, a.x, ty);
    var m;
    m, d := ReturnTailRuns(c, u, a.x, ty, scope, env, later, gone, val, fuel);
    n := k + m;
    RunsJoin(c, At(t, store, lost), k, At(a.s, later, gone), m, d);
    BrokenLater(c, Ast.Returned(val), false, false, fuel, DropsAt(c, t, store, lost),
      DropsAt(c, a.s, later, gone), m, k, d);
  }

  /** A value that cannot be evaluated is returned. */
  lemma {:induction false} ReturnSticks(c: Context, s: State, t: State, v: Value, scope: Ast.Scope,
      env: Ast.Env, store: Store, lost: bool)
    returns (n: nat)
    requires Ready(c, t, scope, env, store) && Valid(s) && Lowers(s, t, {}, {}) && ValueOk(s, t, v)
    requires Sub(c, ReturnValue(t, v).s) && t.blocks != []
    requires EvalValue(c.m, v, t.returnType, store).None?
    requires v.Move? ==> (v.source, Unit) in Added(s, t)
    ensures Runs(c, At(t, store, lost), n, Stuck)
  {
    hide Lowers, Grows, FramesGrow, FramesValid, CodeValid, Added, Within, Runs, ScopeFits, StoreFits, Sub, Stale,
      VarsDistinct, Owned, Live, TmpsKept;
    hide RemoveLive, EmitAllDrops, Emit, ContextOk, AddLive;
    ReturnStages(c, s, t, v);
    var ty := t.returnType;
    if v.Move? {
      var u := RemoveLive(t, v.source);
      RemoveRuns(c, s, t, scope, env, store, v.source, Unit);
      n := AllDropsRun(c, u, u.frames, store, lost);
      var w, left := EmitAllDrops(u, u.frames), store - Owned(Live(u.frames));
      EmitRuns(c, w, Return(v.source), left, lost);
      RunsJoin(c, At(t, store, lost), n, At(w, left, lost), 1, Stuck);
      n := n + 1;
    } else {
      var d := DroppedTmp(t, ty).s;
      TmpKeepsBlocks(t, ty);
      ValueSticks(c, t, d, Tmp(t.tmpIndex), ty, v, store, lost);
      n := 1;
    }
  }

  lemma {:induction false} TmpKeepsBlocks(s: State, ty: Ty)
    ensures DroppedTmp(s, ty).s.blocks == s.blocks
  {
  }

  /** The drops of all frames and the return itself: the result has been taken
      off the frames, so it is the only owned value left. */
  lemma {:induction false} ReturnTailRuns(c: Context, u: State, x: Var, ty: Ty, scope: Ast.Scope, env: Ast.Env,
      store: Store, lost: bool, val: Val, fuel: nat)
    returns (n: nat, d: Config)
    requires ContextOk(c) && ty == c.m.returnType && u.blocks != []
    requires var w := EmitAllDrops(u, u.frames); w.blocks != [] && Sub(c, w) && Sub(c, Emit(w, Return(x)))
    requires StoreFits(c, Take(store, x, ty), env, scope, Owned(Live(u.frames)))
    requires VarsDistinct(Live(u.frames)) && Owned(Live(u.frames)) <= store.Keys && x !in Owned(Live(u.frames))
    requires Read(store, x, ty) == Some(val)
    ensures Runs(c, At(u, store, lost), n, d)
    ensures Broken(c, Ast.Returned(val), false, fuel, DropsAt(c, u, Take(store, x, ty), lost), n, d)
  {
    hide Within, Runs, VarsDistinct, Owned, Live, Tracked;
    var w := EmitAllDrops(u, u.frames);
    var m := AllDropsRun(c, u, u.frames, store, lost);
    var left := store - Owned(Live(u.frames));
    EmitRuns(c, w, Return(x), left, lost);
    d := Finished(val, Take(left, x, ty), lost);
    RunsJoin(c, At(u, store, lost), m, At(w, left, lost), 1, d);
    n := m + 1;
    var owned := Owned(Live(u.frames));
    StaleDropped(c, owned, owned, Take(store, x, ty));
    assert owned - owned == {};
    assert Take(left, x, ty) == Take(store, x, ty) - owned;
    TrackedSame(c, EndDrops(c, d));
  }

  lemma {:induction false} ReturnStages(c: Context, s: State, t: State, v: Value)
    requires Valid(s) && Lowers(s, t, {}, {}) && ValueOk(s, t, v)
    requires Sub(c, ReturnValue(t, v).s)
    ensures var a := AssignToVar(t, v, t.returnType);
      var u := RemoveLive(a.s, a.x);
      var w := EmitAllDrops(u, u.frames);
      && Lowers(s, a.s, {}, {}) && Valid(a.s) && a.x.Tmp?
      && Sub(c, w) && Sub(c, u) && Sub(c, a.s) && u.blocks != [] && w.blocks != []
  {
    hide Grows, FramesGrow, Within, FramesValid;
    var a := AssignToVar(t, v, t.returnType);
    AssignToVarLowers(s, t, {}, {}, v, t.returnType);
    LowersValid(s, a.s, {}, {});
    var tx :| (a.x, tx) in Added(s, a.s);
    var u := RemoveLive(a.s, a.x);
    RemoveLiveLowers(s, a.s, {}, {}, a.x, tx);
    LowersValid(s, u, {}, {});
    LowersSelf(u);
    EmitAllDropsLowers(u, u, {}, {}, u.frames);
    var w := EmitAllDrops(u, u.frames);
    LowersValid(u, w, {}, {});
    SubEmit(c, w, Return(a.x));
    SubGrown(c, u, w);
    RemoveKeepsCode(a.s, a.x);
    SubBlocks(c, a.s, u);
  }

  lemma {:induction false} RemoveKeepsCode(s: State, x: Var)
    ensures RemoveLive(s, x).blocks == s.blocks && RemoveLive(s, x).vars == s.vars
      && RemoveLive(s, x).returnType == s.returnType
  {
  }

  /** Taking a live temporary off its frame emits nothing. */
  lemma {:induction false} RemoveRuns(c: Context, s: State, t: State, scope: Ast.Scope, env: Ast.Env,
      store: Store, x: Var, ty: Ty)
    requires Valid(s) && Lowers(s, t, {}, {}) && Fit(c, t, scope, env, store)
    requires x.Tmp? && (x, ty) in Added(s, t)
    ensures var u := RemoveLive(t, x);
      && Fit(c, u, scope, env, Take(store, x, ty)) && Read(store, x, ty).Some?
      && u.blocks == t.blocks && u.vars == t.vars && Lowers(s, u, {}, {})
      && VarsDistinct(Live(u.frames)) && Owned(Live(u.frames)) <= store.Keys && x !in Owned(Live(u.frames))
      && forall lost :: DropsAt(c, u, Take(store, x, ty), lost) == DropsAt(c, t, store, lost)
  {
    var u := RemoveLive(t, x);
    RemoveLiveLowers(s, t, {}, {}, x, ty);
    LowersValid(s, u, {}, {});
    LiveGrows(s, t);
    LiveGrows(s, u);
    FitTakesTmp(c, t, u, scope, env, store, Live(s.frames), Added(s, t), x, ty);
    RemovedNotOwned(Live(s.frames), Added(s, t), x, ty);
  }

  lemma {:induction false} RemovedNotOwned(a: Frame, b: Frame, x: Var, ty: Ty)
    requires VarsDistinct(a + b) && (x, ty) in b
    ensures x !in Owned(a + Without(b, x))
  {
    DistinctSplit(a, b);
    WithoutMembers(b, x, ty);
    forall e | e in a
      ensures e.0 != x
    {
      DistinctAcross(a, b, e, (x, ty));
    }
  }

  // -------------------------------------------------------------- single steps

  lemma {:induction false} SubAssignToVar(c: Context, t: State, v: Value, ty: Ty)
    requires Sub(c, AssignToVar(t, v, ty).s) && t.blocks != []
    ensures Sub(c, t)
  {
    if !v.Move? && t.frames != [] {
      var u := UndroppedTmp(t).s;
      var d := AddLive(u, Tmp(t.tmpIndex), ty);
      LiveAdd(u, Tmp(t.tmpIndex), ty);
      SubEmit(c, d, Assign(Place(Tmp(t.tmpIndex), ty), ty, v));
      SubBlocks(c, t, d);
    } else if !v.Move? {
      var d := DroppedTmp(t, ty).s;
      SubEmit(c, d, Assign(Place(Tmp(t.tmpIndex), ty), ty, v));
      SubBlocks(c, t, d);
    }
  }

  ghost predicate BlockReady(c: Context, s: State, b: Ast.Block, scope: Ast.Scope, env: Ast.Env, store: Store) {
    && Ready(c, s, scope, env, store)
    && Ast.TypedBlock(c.m, b, scope)
    && Sub(c, LowerBlock(s, b).s) && HeadsOfBlock(s, b) <= c.heads
  }

  /** A block has run: its result is in a temporary that is no longer live,
      and without that result the store fits the frames outside the block. */
  ghost predicate BlockRan(c: Context, s: State, b: Ast.Block, scope: Ast.Scope, o: Ast.Outcome, leaks: bool, fuel: nat,
                           store: Store, lost: bool, n: nat, d: Config)
  {
    var r := LowerBlock(s, b);
    && Runs(c, At(s, store, lost), n, d)
    && if o.Normal? then
         && d.Running? && d == At(r.s, d.store, d.lost)
         && r.v.Move? && r.v.source.Tmp? && Read(d.store, r.v.source, b.ty) == Some(o.val)
         && Fit(c, r.s, scope, o.env, Take(d.store, r.v.source, b.ty))
         && TmpsKept(s.tmpIndex, store, Take(d.store, r.v.source, b.ty))
         && (r.v.source, b.ty) in c.final.vars
         && Tracked(c, DropsAt(c, s, store, lost), DropsAt(c, r.s, Take(d.store, r.v.source, b.ty), d.lost), leaks)
       else if o.Void? then
         && d.Running? && d == At(r.s, d.store, d.lost)
         && r.v.Move? && r.v.source.Tmp? && r.v.source !in d.store && !b.ty.Unit?
         && Fit(c, r.s, scope, o.env, d.store)
         && TmpsKept(s.tmpIndex, store, d.store)
         && (r.v.source, Unit) in c.final.vars
         && Tracked(c, DropsAt(c, s, store, lost), DropsAt(c, r.s, d.store, d.lost), leaks)
       else Broken(c, o, leaks, fuel, DropsAt(c, s, store, lost), n, d)
  }

  /** A moved value is stored in a temporary that is not live yet. */
  lemma {:induction false} MoveRuns(c: Context, t: State, u: State, res: Var, ty: Ty, x: Var,
      store: Store, lost: bool, val: Val)
    returns (gone: bool)
    requires ContextOk(c) && Sub(c, EmitAssign(u, Place(res, ty), ty, Move(x)))
      && u.blocks == t.blocks && t.blocks != []
    requires Read(store, x, ty) == Some(val)
    ensures Runs(c, At(t, store, lost), 1,
      At(EmitAssign(u, Place(res, ty), ty, Move(x)), Stored(Take(store, x, ty), res, ty, val), gone))
    ensures gone == (lost || (ty.Managed? && res in Take(store, x, ty))) && Sub(c, u)
  {
    gone := lost || (ty.Managed? && res in Take(store, x, ty));
    AssignRuns(c, u, res, ty, Move(x), store, lost, val);
  }

  /** A value that cannot be evaluated is assigned: the run gets stuck. */
  lemma {:induction false} ValueSticks(c: Context, t: State, u: State, x: Var, ty: Ty,
      v: Value, store: Store, lost: bool)
    requires ContextOk(c) && Sub(c, EmitAssign(u, Place(x, ty), ty, v)) && u.blocks == t.blocks && t.blocks != []
    requires EvalValue(c.m, v, ty, store).None?
    ensures Runs(c, At(t, store, lost), 1, Stuck)
  {
    EmitRuns(c, u, Assign(Place(x, ty), ty, v), store, lost);
  }

  /** The variable of a value of the unit type is moved to where another type
      is expected. */
  lemma {:induction false} EmptyMove(c: Context, x: Var, ty: Ty, store: Store)
    requires x !in store && !ty.Unit?
    ensures EvalValue(c.m, Move(x), ty, store).None?
  {
  }

  lemma {:induction false} UnitIsEmpty(c: Context, s: State, scope: Ast.Scope, env: Ast.Env, store: Store, x: Var)
    requires Fit(c, s, scope, env, store) && x.Tmp? && (x, Unit) in c.final.vars
    ensures x !in store
  {
  }

  lemma {:induction false} BlockResultRuns(c: Context, s: State, b: Ast.Block, scope: Ast.Scope, o: Ast.Outcome,
      leaks: bool, store: Store, lost: bool, n: nat, d: Config, fuel: nat)
    returns (f: Config)
    requires ContextOk(c) && Valid(s) && o.Normal? && BlockRan(c, s, b, scope, o, leaks, fuel, store, lost, n, d)
    requires var r := LowerBlock(s, b); Sub(c, BlockResult(r.s, b.ty, r.v).s)
    ensures Runs(c, At(s, store, lost), n + 1, f)
    ensures var r := LowerBlock(s, b);
      Arrived(c, s, BlockResult(r.s, b.ty, r.v), b.ty, scope, o.env, o.val, leaks, store, lost, f)
  {
    hide Lowers, Grows, FramesGrow, FramesValid, CodeValid, Added, Within, Runs, ScopeFits, StoreFits, Tracked, Stale,
      Sub, VarsDistinct, Owned, Live, TmpsKept;
    hide LowerBlock;
    var r := LowerBlock(s, b);
    BlockLowers(s, b);
    var x := r.v.source;
    var res := Tmp(r.s.tmpIndex);
    var u := UndroppedTmp(r.s).s;
    var w := EmitAssign(u, Place(res, b.ty), b.ty, r.v);
    var t := BlockResult(r.s, b.ty, r.v).s;
    BlockResultLowers(s, r.s, b.ty, r.v);
    LowersValid(s, t, {}, {});
    GrowsTmps(s, r.s);
    LiveAdd(w, res, b.ty);
    SubVars(c, t, (res, b.ty));
    SubBlocks(c, w, t);
    NewTmpNotLive(r.s, r.s.tmpIndex);
    var gone := MoveRuns(c, r.s, u, res, b.ty, x, d.store, d.lost, o.val);
    var later := Stored(Take(d.store, x, b.ty), res, b.ty, o.val);
    f := At(t, later, gone);
    RunsJoin(c, At(s, store, lost), n, d, 1, f);
    FitAddsTmp(c, r.s, t, scope, o.env, Take(d.store, x, b.ty), res, b.ty, o.val);
    TrackedTmp(c, r.s, t, Take(d.store, x, b.ty), d.lost, res, b.ty, o.val);
    TrackedJoin(c, DropsAt(c, s, store, lost), DropsAt(c, r.s, Take(d.store, x, b.ty), d.lost),
      DropsAt(c, t, later, gone), leaks, false);
    JustAddedEntry(Added(s, r.s), (res, b.ty));
    GrowsTmps(s, r.s);
    StoredKeepsTmps(s.tmpIndex, store, Take(d.store, x, b.ty), res, b.ty, o.val);
  }

  lemma {:induction false} GrowsTmps(s: State, t: State)
    requires Lowers(s, t, {}, {})
    ensures s.tmpIndex <= t.tmpIndex && s.vars <= t.vars && s.returnType == t.returnType
    ensures s.frames != [] && t.frames != [] && t.blocks != [] && Live(t.frames) == Live(s.frames) + Added(s, t)
  {
    LiveGrows(s, t);
  }

  lemma {:induction false} StoredKeepsTmps(k: nat, store: Store, later: Store, x: Var, ty: Ty, val: Val)
    requires TmpsKept(k, store, later) && (x.Tmp? ==> x.index >= k)
    ensures TmpsKept(k, store, Stored(later, x, ty, val))
  {
  }

  lemma {:induction false} TakeKeepsTmps(k: nat, store: Store, later: Store, x: Var, ty: Ty)
    requires TmpsKept(k, store, later) && (x.Tmp? ==> x.index >= k)
    ensures TmpsKept(k, store, Take(later, x, ty))
  {
  }

  /** x = e, once e has been evaluated: through a temporary, dropping the old
      value of x. */
  lemma {:induction false} AssignVariableRuns(c: Context, s: State, t: State, n: Name, ty: Ty, v: Value,
      scope: Ast.Scope, env: Ast.Env, store: Store, lost: bool, val: Val)
    returns (later: Store, gone: bool)
    requires Ready(c, t, scope, env, store) && Valid(s) && Lowers(s, t, {}, {}) && ValueOk(s, t, v)
    requires n in scope && scope[n] == ty
    requires Sub(c, AssignVariable(t, Place(Explicit(n), ty), ty, v).s)
    requires Yields(c, v, ty, store, val) && (ty.Unit? ==> val == UnitVal)
    requires v.Move? ==> (v.source, ty) in Added(s, t)
    ensures var r := AssignVariable(t, Place(Explicit(n), ty), ty, v);
      && Runs(c, At(t, store, lost), 3, At(r.s, later, gone))
      && Fit(c, r.s, scope, env[n := val], later)
      && (v.Move? ==> v.source.Tmp? && v.source.index >= s.tmpIndex)
      && TmpsKept(s.tmpIndex, store, later)
      && Tracked(c, DropsAt(c, t, store, lost), DropsAt(c, r.s, later, gone), false)
  {
    hide Lowers, Grows, FramesGrow, FramesValid, CodeValid, Added, Within, Runs, ScopeFits, StoreFits, Tracked, Stale,
      Sub, VarsDistinct, Owned, Live, TmpsKept;
    hide Yields, Take, Stored, Spent, RemoveLive, AddLive, Emit, AssignVariable, DroppedTmp;
    var x := Explicit(n);
    var place := Place(x, ty);
    var tmp := Tmp(t.tmpIndex);
    var r := AssignVariable(t, place, ty, v);
    var base := Spent(store, v, ty);
    GrowsTmps(s, t);
    var z := SpentFits(c, s, t, v, ty, scope, env, store);
    NewTmpNotLive(z, t.tmpIndex);
    NamedIsStored(c, base, env, scope, Owned(Live(z.frames)), n);
    VariableStages(c, t, ty, v, x);
    later, gone := VariableSteps(c, t, x, ty, v, store, lost, val);
    VariableTracked(c, Owned(Live(z.frames)), base, lost, n, tmp, ty, val);
    AssignVariableLowers(s, t, place, ty, v);
    LowersValid(s, r.s, {}, {});
    GrowsTmps(s, r.s);
    VariableStored(c, base, env, scope, Owned(Live(z.frames)), n, tmp, ty, val);
    SpentKeepsTmps(s, t, v, ty, store);
    StoredKeepsTmps(s.tmpIndex, store, base, tmp, ty, val);
    var store1 := Stored(base, tmp, ty, val);
    TakeKeepsTmps(s.tmpIndex, store, store1, x, ty);
    TakeKeepsTmps(s.tmpIndex, store, Take(store1, x, ty), tmp, ty);
    StoredKeepsTmps(s.tmpIndex, store, Take(Take(store1, x, ty), tmp, ty), x, ty, val);
  }

  /** The three instructions of an assignment. */
  lemma {:induction false} VariableSteps(c: Context, t: State, x: Var, ty: Ty, v: Value,
      store: Store, lost: bool, val: Val)
    returns (later: Store, gone: bool)
    requires ContextOk(c) && t.blocks != [] && t.frames != []
    requires var r := AssignVariable(t, Place(x, ty), ty, v); Sub(c, r.s)
    requires Yields(c, v, ty, store, val) && (ty.Unit? ==> val == UnitVal)
    requires x.Explicit? && (!ty.Unit? ==> x in Spent(store, v, ty))
    ensures var tmp := Tmp(t.tmpIndex);
      var base := Spent(store, v, ty);
      && later == Stored(Take(Take(Stored(base, tmp, ty, val), x, ty), tmp, ty), x, ty, val)
      && gone == (lost || (ty.Managed? && tmp in base))
    ensures Runs(c, At(t, store, lost), 3, At(AssignVariable(t, Place(x, ty), ty, v).s, later, gone))
  {
    hide Lowers, Grows, FramesGrow, FramesValid, CodeValid, Added, Within, Runs, ScopeFits, StoreFits, Tracked, Stale,
      Sub, VarsDistinct, Owned, Live, TmpsKept;
    hide Yields, Take, Stored, Spent, RemoveLive, AddLive, Emit, ContextOk;
    var place := Place(x, ty);
    var tmp := Tmp(t.tmpIndex);
    var d := DroppedTmp(t, ty).s;
    var u := if v.Move? then RemoveLive(d, v.source) else d;
    var a := EmitAssign(u, Place(tmp, ty), ty, v);
    var b := Emit(a, Drop(place, ty));
    var w := RemoveLive(b, tmp);
    var r := AssignVariable(t, place, ty, v);
    assert r.s == EmitAssign(w, place, ty, Move(tmp));
    VariableStages(c, t, ty, v, x);
    var store1 := Stored(Spent(store, v, ty), tmp, ty, val);
    var lost1 := lost || (ty.Managed? && tmp in Spent(store, v, ty));
    AssignRuns(c, u, tmp, ty, v, store, lost, val);
    var store2 := Take(store1, x, ty);
    HeldApart(c, Spent(store, v, ty), x, tmp, ty, val);
    DropRuns(c, a, x, ty, store1, lost1);
    later, gone := Stored(Take(store2, tmp, ty), x, ty, val), lost1;
    SpentMove(store2, tmp, ty);
    AssignRuns(c, w, x, ty, Move(tmp), store2, lost1, val);
    RunsJoin(c, At(t, store, lost), 1, At(a, store1, lost1), 1, At(b, store2, lost1));
    RunsJoin(c, At(t, store, lost), 2, At(b, store2, lost1), 1, At(r.s, later, gone));
  }

  /** The old value of x is dropped while the new one waits in a temporary. */
  lemma {:induction false} HeldApart(c: Context, base: Store, x: Var, tmp: Var, ty: Ty, val: Val)
    requires x != tmp && (ty.Unit? ==> val == UnitVal) && (!ty.Unit? ==> x in base)
    ensures var held := Stored(base, tmp, ty, val);
      && (!ty.Unit? ==> x in held)
      && Yields(c, Move(tmp), ty, Take(held, x, ty), val)
      && !(ty.Managed? && x in Take(Take(held, x, ty), tmp, ty))
  {
  }

  lemma {:induction false} SpentMove(store: Store, x: Var, ty: Ty)
    ensures Spent(store, Move(x), ty) == Take(store, x, ty)
  {
  }

  lemma {:induction false} SpentKeepsTmps(s: State, t: State, v: Value, ty: Ty, store: Store)
    requires Lowers(s, t, {}, {}) && ValueOk(s, t, v)
    ensures v.Move? ==> v.source.Tmp? && v.source.index >= s.tmpIndex
    ensures TmpsKept(s.tmpIndex, store, Spent(store, v, ty))
  {
    if v.Move? {
      var tx :| (v.source, tx) in Added(s, t);
    }
  }

  lemma {:induction false} VariableStages(c: Context, t: State, ty: Ty, v: Value, x: Var)
    requires t.blocks != [] && t.frames != []
    requires Sub(c, AssignVariable(t, Place(x, ty), ty, v).s)
    ensures var tmp := Tmp(t.tmpIndex);
      var d := DroppedTmp(t, ty).s;
      var u := if v.Move? then RemoveLive(d, v.source) else d;
      var a := EmitAssign(u, Place(tmp, ty), ty, v);
      var b := Emit(a, Drop(Place(x, ty), ty));
      var w := RemoveLive(b, tmp);
      && u.blocks == t.blocks && w.blocks == b.blocks && a.blocks != [] && b.blocks != []
      && Sub(c, a) && Sub(c, b) && (tmp, ty) in c.final.vars
  {
    hide Within;
    var tmp := Tmp(t.tmpIndex);
    var u0 := UndroppedTmp(t).s;
    var d := AddLive(u0, tmp, ty);
    LiveAdd(u0, tmp, ty);
    var u := if v.Move? then RemoveLive(d, v.source) else d;
    RemoveKeepsCode(d, if v.Move? then v.source else tmp);
    var a := EmitAssign(u, Place(tmp, ty), ty, v);
    var b := Emit(a, Drop(Place(x, ty), ty));
    var w := RemoveLive(b, tmp);
    RemoveKeepsCode(b, tmp);
    SubEmit(c, w, Assign(Place(x, ty), ty, Move(tmp)));
    SubBlocks(c, b, w);
    SubEmit(c, a, Drop(Place(x, ty), ty));
    SubEmit(c, u, Assign(Place(tmp, ty), ty, v));
    SubBlocks(c, d, u);
    assert (tmp, ty) in d.vars;
  }

  /** The frames, and the store, once the value has been taken. */
  lemma {:induction false} SpentFits(c: Context, s: State, t: State, v: Value, ty: Ty, scope: Ast.Scope, env: Ast.Env,
      store: Store) returns (z: State)
    requires Ready(c, t, scope, env, store) && Valid(s) && Lowers(s, t, {}, {}) && ValueOk(s, t, v)
    requires v.Move? ==> (v.source, ty) in Added(s, t)
    ensures Fit(c, z, scope, env, Spent(store, v, ty)) && z.tmpIndex == t.tmpIndex && z.blocks == t.blocks
    ensures Live(z.frames) == Live(s.frames) + Consumed(Added(s, t), v)
    ensures forall lost :: DropsAt(c, z, Spent(store, v, ty), lost) == DropsAt(c, t, store, lost)
  {
    hide Grows, FramesGrow, Within, StoreFits, ScopeFits, CodeValid, Stale;
    GrowsTmps(s, t);
    z := t;
    if v.Move? {
      RemoveRuns(c, s, t, scope, env, store, v.source, ty);
      z := RemoveLive(t, v.source);
      RemoveLiveLowers(s, t, {}, {}, v.source, ty);
      GrowsTmps(s, z);
    }
  }

  lemma {:induction false} NamedIsStored(c: Context, store: Store, env: Ast.Env,
      scope: Ast.Scope, owned: set<Var>, n: Name)
    requires StoreFits(c, store, env, scope, owned) && n in scope
    ensures !scope[n].Unit? ==> Explicit(n) in store && Explicit(n) in owned
  {
  }

  lemma {:induction false} VariableTracked(c: Context, owned: set<Var>, base: Store, lost: bool,
      n: Name, tmp: Var, ty: Ty, val: Val)
    requires ContextOk(c) && (tmp, ty) in c.final.vars && tmp.Tmp? && tmp !in owned
      && (!ty.Unit? ==> Explicit(n) in owned)
    ensures var x := Explicit(n);
      Tracked(c, Drops(lost, Stale(c, owned, base)),
        Drops(lost || (ty.Managed? && tmp in base),
          Stale(c, owned, Stored(Take(Take(Stored(base, tmp, ty, val), x, ty), tmp, ty), x, ty, val))), false)
  {
    var x := Explicit(n);
    var final := Stored(Take(Take(Stored(base, tmp, ty, val), x, ty), tmp, ty), x, ty, val);
    if c.tracked {
      ManagedIs(c, tmp, ty);
      if ty.Managed? && tmp in base {
        assert tmp in Stale(c, owned, base);
      } else {
        assert Stale(c, owned, final) == Stale(c, owned, base);
      }
    }
  }

  /** Only the named variable changes; the temporary is empty again. */
  lemma {:induction false} VariableStored(c: Context, base: Store, env: Ast.Env, scope: Ast.Scope, owned: set<Var>,
      n: Name, tmp: Var, ty: Ty, val: Val)
    requires StoreFits(c, base, env, scope, owned) && n in scope && scope[n] == ty && tmp.Tmp? && tmp !in owned
    ensures var x := Explicit(n);
      StoreFits(c, Stored(Take(Take(Stored(base, tmp, ty, val), x, ty), tmp, ty), x, ty, val),
        env[n := val], scope, owned)
  {
  }

  lemma {:induction false} SwitchRuns(c: Context, s: State, x: Var, key: nat, l: Label, other: Label,
      store: Store, lost: bool, v: Val)
    requires ContextOk(c) && Sub(c, Emit(s, Switch(x, [(key, l)], Some(other)))) && s.blocks != []
    requires Read(store, x, Bool) == Some(v)
    ensures Runs(c, At(s, store, lost), 1, Running(if SwitchKey(v) == key then l else other, 0, store, lost))
      && Sub(c, s)
  {
    var i := Switch(x, [(key, l)], Some(other));
    EmitRuns(c, s, i, store, lost);
    SubEmit(c, s, i);
    assert [(key, l)][1..] == [];
    assert Choose(SwitchKey(v), [(key, l)], Some(other)) == Some(if SwitchKey(v) == key then l else other);
  }

  lemma {:induction false} SwitchSticks(c: Context, s: State, x: Var, key: nat, l: Label,
      other: Label, store: Store, lost: bool)
    requires ContextOk(c) && Sub(c, Emit(s, Switch(x, [(key, l)], Some(other)))) && s.blocks != [] && x !in store
    ensures Runs(c, At(s, store, lost), 1, Stuck)
  {
    EmitRuns(c, s, Switch(x, [(key, l)], Some(other)), store, lost);
  }

  lemma {:induction false} JumpRuns(c: Context, s: State, l: Label, store: Store, lost: bool)
    requires ContextOk(c) && Sub(c, Emit(s, Jump(l))) && s.blocks != []
    ensures Runs(c, At(s, store, lost), 1, Running(l, 0, store, lost)) && Sub(c, s)
  {
    EmitRuns(c, s, Jump(l), store, lost);
    SubEmit(c, s, Jump(l));
  }

  lemma {:induction false} FitSame(c: Context, s: State, t: State, scope: Ast.Scope, env: Ast.Env, store: Store)
    requires Fit(c, s, scope, env, store) && Valid(t) && t.frames == s.frames && t.returnType == s.returnType
    ensures Fit(c, t, scope, env, store)
  {
  }

  /** Leaving a frame: its variables have been dropped. */
  lemma {:induction false} PopFits(c: Context, inner: Ast.Scope, outer: Ast.Scope, below: Frame, top: Frame,
      env: Ast.Env, store: Store)
    requires ScopeFits(inner, below + top) && ScopeFits(outer, below)
    requires forall n :: n in outer ==> n in inner && inner[n] == outer[n]
    requires StoreFits(c, store, env, inner, Owned(below + top))
    ensures VarsDistinct(top) && Owned(top) <= store.Keys
    ensures StoreFits(c, store - Owned(top), env, outer, Owned(below))
  {
    DistinctSplit(below, top);
    OwnedDisjoint(below, top);
    OwnedSplit(below, top);
    forall n | n in outer && !outer[n].Unit?
      ensures Explicit(n) in Owned(below)
    {
      assert (Explicit(n), outer[n]) in below;
    }
  }

  /** Temporaries of a loop condition are still there when the loop starts
      over, without being live at its head. */
  lemma {:induction false} ShrinkFits(c: Context, s: State, t: State, scope: Ast.Scope, env: Ast.Env, store: Store)
    requires ContextOk(c) && Fit(c, t, scope, env, store) && Valid(s) && Lowers(s, t, {}, {}) && Sub(c, t)
    requires ScopeFits(scope, Live(s.frames)) && s.returnType == t.returnType
    ensures Fit(c, s, scope, env, store)
    ensures forall lost :: Tracked(c, DropsAt(c, t, store, lost), DropsAt(c, s, store, lost), !PlainFrame(Added(s, t)))
  {
    hide Tracked, Stale, PlainFrame;
    GrowsTmps(s, t);
    var below, top := Live(s.frames), Added(s, t);
    OwnedSplit(below, top);
    AddedInVars(c, s, t);
    forall n | n in scope && !scope[n].Unit?
      ensures Explicit(n) in Owned(below)
    {
      assert (Explicit(n), scope[n]) in below;
    }
    forall lost
      ensures Tracked(c, DropsAt(c, t, store, lost), DropsAt(c, s, store, lost), !PlainFrame(top))
    {
      TrackedForget(c, below, top, store, lost);
    }
  }

  lemma {:induction false} AddedInVars(c: Context, s: State, t: State)
    requires Lowers(s, t, {}, {}) && Sub(c, t)
    ensures forall e :: e in Added(s, t) ==> e in c.final.vars
  {
    forall e | e in Added(s, t)
      ensures e in c.final.vars
    {
      assert e in t.vars[|s.vars|..];
    }
  }
}

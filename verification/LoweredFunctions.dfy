/** Whole functions: the lowered code has the shape dead code elimination needs,
    computes what the source computes, and drops what it owns. */
module LoweredFunctions {
  import opened Collections
  import opened Mir
  import opened Lowering
  import opened LoweringShape
  import opened LoweringSim
  import opened LoweringStages
  import opened LoweringGlue
  import opened LoweringExprs
  import opened LoweringStmts
  import opened LoweringBlocks
  import opened LoweringBranches
  import opened LoweringLoops
  import opened LoweringRuns
  import Ast
  import DeadCode
  import Digraph
  import Leaks
  import LoweredNames
  import LoweringHeads

  // ------------------------------------------------------------------- shape

  function Entries(parameters: seq<(Name, Ty)>): Frame {
    seq(|parameters|, i requires 0 <= i < |parameters| => (Explicit(parameters[i].0), parameters[i].1))
  }

  lemma {:induction false} ParametersAdded(s: State, parameters: seq<(Name, Ty)>)
    requires |s.frames| == 1
    ensures AddParameters(s, parameters) ==
      s.(vars := s.vars + Entries(parameters), frames := [s.frames[0] + Entries(parameters)])
    decreases |parameters|
  {
    if parameters == [] {
      assert s.frames[0] + Entries(parameters) == s.frames[0] && s.vars + Entries(parameters) == s.vars;
      assert s.frames == [s.frames[0]];
    } else {
      var x, ty := Explicit(parameters[0].0), parameters[0].1;
      var t := AddLive(s, x, ty);
      assert t.frames == [s.frames[0] + [(x, ty)]];
      ParametersAdded(t, parameters[1..]);
      assert Entries(parameters) == [(x, ty)] + Entries(parameters[1..]);
      assert s.frames[0] + Entries(parameters) == s.frames[0] + [(x, ty)] + Entries(parameters[1..]);
      assert s.vars + Entries(parameters) == s.vars + [(x, ty)] + Entries(parameters[1..]);
    }
  }

  lemma {:induction false} StartIs(f: Function)
    ensures FunctionStart(f) ==
      State([Block(ENTRY, [])], [Entries(f.parameters)], Entries(f.parameters), 0, ENTRY + 1, f.returnType, false)
    ensures Valid(FunctionStart(f)) && Live(FunctionStart(f).frames) == Entries(f.parameters)
  {
    var e := Entries(f.parameters);
    ParametersAdded(State([Block(ENTRY, [])], [[]], [], 0, ENTRY + 1, f.returnType, false), f.parameters);
    assert [] + e == e;
    assert [e][..0] == [];
    assert Live([e]) == Live([]) + e;
  }

  /** The drops of a frame do not depend on the frames that are left. */
  lemma {:induction false} EmitDropsFrames(s: State, frames: seq<Frame>, frame: Frame)
    requires s.blocks != []
    ensures EmitDrops(s.(frames := frames), frame) == EmitDrops(s, frame).(frames := frames)
    decreases |frame|
  {
    if frame != [] {
      var last := frame[|frame| - 1];
      EmitDropsFrames(Emit(s, Drop(Place(last.0, last.1), last.1)), frames, frame[..|frame| - 1]);
    }
  }

  /** The end of a function: drops of the parameters, then the return. */
  lemma {:induction false} FunctionStages(f: Function)
    ensures var start := FunctionStart(f);
      var last := LowerBlock(start, f.body);
      var end := EmitDrops(PopFrame(last.s), Entries(f.parameters));
      && Valid(start) && last.v.Move? && last.v.source.Tmp? && Lowers(start, last.s, {}, {})
        && last.s.frames == start.frames
      && LowerFunction(f) == Emit(end, Return(last.v.source))
      && end.blocks != [] && PopFrame(last.s).blocks == last.s.blocks && last.s.blocks != []
      && Grows(start, LowerFunction(f), {}, {}) && CurrentEnds(LowerFunction(f)) && !LowerFunction(f).panicked
  {
    hide Grows, FramesGrow, FramesValid, CodeValid, LowerBlock;
    var start := FunctionStart(f);
    StartIs(f);
    BlockLowers(start, f.body);
    var last := LowerBlock(start, f.body);
    GrowsTmps(start, last.s);
    var e := Entries(f.parameters);
    EmitDropsFrames(last.s, [], e);
    assert PopFrame(last.s) == last.s.(frames := []);
    EmitDropsLowers(start, last.s, {}, {}, e);
    var full := EmitDrops(last.s, e);
    EmitLowers(start, full, {}, {}, Return(last.v.source));
    var u := Emit(full, Return(last.v.source));
    GrowsTmps(start, full);
    SameCodeGrows(start, u, LowerFunction(f), {}, {});
    LowersPanic(start, u);
  }

  lemma {:induction false} LowersPanic(s: State, t: State)
    requires Lowers(s, t, {}, {})
    ensures !t.panicked
  {
  }

  /** Lowering never panics, gives every block its own label and a terminator,
      and only jumps to blocks that exist. */
  lemma {:induction false} LoweredShape(f: Function)
    ensures var u := LowerFunction(f);
      && !u.panicked && DistinctLabels(u.blocks)
      && u.blocks != [] && u.blocks[0].lbl == ENTRY
      && (forall i :: 0 <= i < |u.blocks| ==> HasTerminator(u.blocks[i].instructions))
      && (forall l :: TargetOf(u.blocks, l) ==> HasBlock(u.blocks, l))
  {
    hide LowerFunction, FunctionStart, Valid, Lowers, Grows, CurrentEnds;
    StartIs(f);
    FunctionStages(f);
    GrownShape(FunctionStart(f), LowerFunction(f));
  }

  lemma {:induction false} GrownShape(s: State, t: State)
    requires Grows(s, t, {}, {}) && CurrentEnds(t) && s.blocks == [Block(ENTRY, [])]
    ensures DistinctLabels(t.blocks) && t.blocks != [] && t.blocks[0].lbl == ENTRY
    ensures forall i :: 0 <= i < |t.blocks| ==> HasTerminator(t.blocks[i].instructions)
    ensures forall l :: TargetOf(t.blocks, l) ==> HasBlock(t.blocks, l)
  {
    hide HasTerminator, TargetOf, HasBlock;
    forall l | TargetOf(t.blocks, l)
      ensures HasBlock(t.blocks, l)
    {
      NoTargets(s, l);
    }
  }

  lemma {:induction false} NoTargets(s: State, l: Label)
    requires s.blocks == [Block(ENTRY, [])]
    ensures !TargetOf(s.blocks, l)
  {
  }

  /** What the first pass produces is what the second pass needs. */
  lemma {:induction false} LoweredIsProcessable(f: Function)
    ensures DeadCode.Processable(LowerFunction(f).blocks)
  {
    LoweredShape(f);
    var blocks := LowerFunction(f).blocks;
    var g := DeadCode.FlowGraph(blocks);
    forall l | l in Mir.Labels(blocks)
      ensures DeadCode.Executable(blocks, l)
      ensures forall t :: t in Digraph.Successors(g, l) ==> t in Mir.Labels(blocks)
    {
      var i :| 0 <= i < |blocks| && blocks[i].lbl == l;
      DeadCode.IndexOfDistinct(blocks, i);
      forall t | t in Digraph.Successors(g, l)
        ensures t in Mir.Labels(blocks)
      {
        var k := FirstTerminator(blocks[i].instructions);
        assert t in Targets(blocks[i].instructions[k]);
        assert TargetOf(blocks, t);
        var j :| 0 <= j < |blocks| && blocks[j].lbl == t;
      }
    }
    assert Digraph.Closed(g, Mir.Labels(blocks));
    assert blocks[0].lbl in Mir.Labels(blocks);
    forall l | DeadCode.Reachable(blocks, l)
      ensures DeadCode.Executable(blocks, l)
    {
      Digraph.ClosedReaches(g, Mir.Labels(blocks), blocks[0].lbl, l);
    }
  }

  // -------------------------------------------------------------- simulation

  function ScopeOf(parameters: seq<(Name, Ty)>): Ast.Scope {
    if parameters == [] then map[] else
      var last := |parameters| - 1;
      ScopeOf(parameters[..last])[parameters[last].0 := parameters[last].1]
  }

  predicate DistinctNames(parameters: seq<(Name, Ty)>) {
    forall i, j :: 0 <= i < j < |parameters| ==> parameters[i].0 != parameters[j].0
  }

  /** What the type checker guarantees about a function. */
  ghost predicate TypedFunction(m: Machine, f: Function) {
    && m.returnType == f.returnType
    && DistinctNames(f.parameters)
    && Ast.TypedBlock(m, f.body, ScopeOf(f.parameters))
    && (Ast.BlockFits(m, f.body, f.returnType) || Ast.Slippery(f.body, f.returnType))
  }

  /** Calling the function in the source language. */
  function Called(m: Machine, f: Function, env: Ast.Env, fuel: nat): Ast.Outcome {
    Ast.Expecting(Ast.EvalBlock(m, f.body, env, fuel), f.body.ty, f.returnType)
  }

  /** The arguments, as the caller leaves them: owned by the function. */
  ghost function Arguments(f: Function, env: Ast.Env): Store {
    map x | x in Owned(Entries(f.parameters)) && x.Explicit? && x.name in env :: env[x.name]
  }

  ghost function Start(f: Function, env: Ast.Env): Config {
    Running(ENTRY, 0, Arguments(f, env), false)
  }

  ghost function ContextOf(m: Machine, f: Function, tracked: bool): Context {
    Context(m, LowerFunction(f), LoopHeads(f), tracked)
  }

  /** The lowering states at the heads of the loops of a function. */
  ghost function LoopHeads(f: Function): set<State> {
    HeadsOfBlock(FunctionStart(f), f.body)
  }

  /** Every name is declared with one type only: names are unique in the scope
      graph. */
  ghost predicate OneTypeEach(f: Function) {
    exists types :: LoweredNames.Declares(types, f)
  }

  /** Nothing that needs a drop is left behind. */
  ghost predicate NothingLeft(f: Function, store: Store) {
    forall x :: x in store ==> (x, Managed) !in LowerFunction(f).vars
  }

  /** Everything that needs a drop is live where lowering was at t, so that it
      will be dropped, moved or returned from there. */
  ghost predicate NothingAdrift(f: Function, t: State, store: Store) {
    forall x :: x in store && (x, Managed) in LowerFunction(f).vars ==> x in Owned(Live(t.frames))
  }

  lemma {:induction false} ContextIsOk(m: Machine, f: Function, tracked: bool)
    requires tracked ==> OneTypeEach(f)
    ensures ContextOk(ContextOf(m, f, tracked))
  {
    hide LowerFunction, Grows, CurrentEnds, Valid, Lowers, OneType, LoweredNames.Declares;
    LoweredShape(f);
    FunctionStages(f);
    GrowsEnd(FunctionStart(f), LowerFunction(f));
    if tracked {
      var types :| LoweredNames.Declares(types, f);
      LoweredNames.FunctionNamed(types, f);
      NamedOnce(types, LowerFunction(f).vars);
    }
  }

  lemma {:induction false} NamedOnce(types: map<Name, Ty>, vars: seq<(Var, Ty)>)
    requires LoweredNames.Named(types, vars) && TmpsDistinct(vars)
    ensures OneType(vars)
  {
    forall i, j | 0 <= i < |vars| && 0 <= j < |vars| && vars[i].0 == vars[j].0
      ensures vars[i].1 == vars[j].1
    {
      assert vars[i] in vars && vars[j] in vars;
    }
  }

  lemma {:induction false} GrowsEnd(s: State, t: State)
    requires Grows(s, t, {}, {})
    ensures TmpsDistinct(t.vars) && Within(t.blocks, t.blocks)
  {
  }

  lemma {:induction false} ParametersInScope(parameters: seq<(Name, Ty)>)
    requires DistinctNames(parameters)
    ensures ScopeFits(ScopeOf(parameters), Entries(parameters))
    decreases |parameters|
  {
    if parameters == [] {
    } else {
      var k := |parameters| - 1;
      var rest := parameters[..k];
      ParametersInScope(rest);
      ParameterIsNew(rest, parameters[k].0);
      ScopeAddsName(ScopeOf(rest), Entries(rest), parameters[k].0, parameters[k].1);
      assert Entries(parameters) == Entries(rest) + [(Explicit(parameters[k].0), parameters[k].1)];
    }
  }

  lemma {:induction false} ParameterIsNew(parameters: seq<(Name, Ty)>, x: Name)
    requires ScopeFits(ScopeOf(parameters), Entries(parameters))
    requires forall i :: 0 <= i < |parameters| ==> parameters[i].0 != x
    ensures x !in ScopeOf(parameters)
  {
    forall e | e in Entries(parameters)
      ensures e.0 != Explicit(x)
    {
      var i :| 0 <= i < |parameters| && Entries(parameters)[i] == e;
    }
  }

  /** At the entry the arguments are live, and nothing else holds a value. */
  lemma {:induction false} StartFits(m: Machine, f: Function, tracked: bool, env: Ast.Env)
    requires m.returnType == f.returnType && DistinctNames(f.parameters) && Ast.EnvFits(env, ScopeOf(f.parameters))
    requires tracked ==> OneTypeEach(f)
    ensures Ready(ContextOf(m, f, tracked), FunctionStart(f), ScopeOf(f.parameters), env, Arguments(f, env))
    ensures At(FunctionStart(f), Arguments(f, env), false) == Start(f, env)
    ensures ScopeFits(ScopeOf(f.parameters), Entries(f.parameters))
    ensures Clean(DropsAt(ContextOf(m, f, tracked), FunctionStart(f), Arguments(f, env), false))
  {
    hide LowerFunction, Valid, OneTypeEach, ContextOk, FunctionStart, StoreFits, ScopeFits,
      Stale, Owned, Arguments, Live;
    StartIs(f);
    ContextIsOk(m, f, tracked);
    ParametersInScope(f.parameters);
    ArgumentsFit(ContextOf(m, f, tracked), f, env);
  }

  lemma {:induction false} ArgumentsFit(c: Context, f: Function, env: Ast.Env)
    requires ScopeFits(ScopeOf(f.parameters), Entries(f.parameters)) && Ast.EnvFits(env, ScopeOf(f.parameters))
    ensures StoreFits(c, Arguments(f, env), env, ScopeOf(f.parameters), Owned(Entries(f.parameters)))
    ensures Stale(c, Owned(Entries(f.parameters)), Arguments(f, env)) == {}
  {
    hide ScopeOf, VarsDistinct;
    var scope, e := ScopeOf(f.parameters), Entries(f.parameters);
    forall x | x in Owned(e)
      ensures x in Arguments(f, env)
    {
      var entry :| entry in e && entry.0 == x;
    }
    forall n | n in scope && !scope[n].Unit?
      ensures Explicit(n) in Owned(e)
    {
      assert (Explicit(n), scope[n]) in e;
    }
  }

  /** The run of a function that has ended with a value: drops are complete if
      and only if the evaluation misses none. */
  ghost predicate Ended(f: Function, tracked: bool, v: Val, leaks: bool, d: Config) {
    d.Finished? && d.result == v && (tracked ==> (!d.lost && NothingLeft(f, d.store) <==> !leaks))
  }

  /** The run of a function that has not ended is at the head of a loop. */
  ghost predicate Underway(f: Function, tracked: bool, leaks: bool, d: Config) {
    exists t :: t in LoopHeads(f) && AtHead(t, d) && (tracked ==> (!d.lost && NothingAdrift(f, t, d.store) <==> !leaks))
  }

  ghost predicate FunctionRan(f: Function, tracked: bool, o: Ast.Outcome, leaks: bool, fuel: nat, n: nat, d: Config) {
    match o
    case Normal(v, _) => Ended(f, tracked, v, leaks, d)
    case Void(_) => false
    case Returned(v) => Ended(f, tracked, v, leaks, d)
    case Slipped => d.Stuck?
    case Timeout => d.Running? && n >= fuel && Underway(f, tracked, leaks, d)
  }

  /** Every evaluation of the body is matched by a run from the entry. */
  lemma {:induction false} FunctionRuns(m: Machine, f: Function, tracked: bool, env: Ast.Env,
      fuel: nat) returns (n: nat, d: Config)
    requires TypedFunction(m, f) && Ast.EnvFits(env, ScopeOf(f.parameters)) && (tracked ==> OneTypeEach(f))
    ensures Run(m, LowerFunction(f).blocks, Start(f, env), n) == d
    ensures FunctionRan(f, tracked, Called(m, f, env, fuel), Leaks.LeaksBlock(m, f.body, env, fuel), fuel, n, d)
  {
    hide *;
    BodyReady(m, f, tracked, env);
    n, d := BlockRuns(ContextOf(m, f, tracked), FunctionStart(f), f.body, ScopeOf(f.parameters), env,
      Arguments(f, env), false, fuel);
    n, d := BodyEnds(m, f, tracked, env, fuel, n, d);
  }

  lemma {:induction false} BodyReady(m: Machine, f: Function, tracked: bool, env: Ast.Env)
    requires TypedFunction(m, f) && Ast.EnvFits(env, ScopeOf(f.parameters)) && (tracked ==> OneTypeEach(f))
    ensures ContextOf(m, f, tracked).m == m
    ensures BlockReady(ContextOf(m, f, tracked), FunctionStart(f), f.body,
      ScopeOf(f.parameters), env, Arguments(f, env))
  {
    hide LowerFunction, LowerBlock, Ready, Sub, Ast.TypedBlock, Ast.BlockFits, OneTypeEach, FunctionStart;
    StartFits(m, f, tracked, env);
    EndStages(ContextOf(m, f, tracked), f);
  }

  /** The end of a function, after its body. */
  lemma {:induction false} BodyEnds(m: Machine, f: Function, tracked: bool, env: Ast.Env, fuel: nat, n: nat,
      d: Config) returns (k: nat, g: Config)
    requires TypedFunction(m, f) && Ast.EnvFits(env, ScopeOf(f.parameters)) && (tracked ==> OneTypeEach(f))
    requires BlockRan(ContextOf(m, f, tracked), FunctionStart(f), f.body, ScopeOf(f.parameters),
      Ast.EvalBlock(m, f.body, env, fuel),
      Leaks.LeaksBlock(m, f.body, env, fuel), fuel, Arguments(f, env), false, n, d)
    ensures Run(m, LowerFunction(f).blocks, Start(f, env), k) == g
    ensures FunctionRan(f, tracked, Called(m, f, env, fuel), Leaks.LeaksBlock(m, f.body, env, fuel), fuel, k, g)
  {
    hide Lowers, Added, Within, ScopeFits, StoreFits, Sub, VarsDistinct, Owned, Live, TmpsKept, Stale, ContextOk, Clean;
    hide Fit, LowerBlock, Valid, LowerFunction, Start, Arguments, Ast.EvalBlock, Ast.TypedBlock, Ast.BlockFits,
      Leaks.LeaksBlock, FunctionStart, Read, Take, OneTypeEach, NothingLeft, DropsAt, Paused, LoopHeads;
    var c := ContextOf(m, f, tracked);
    var s, scope, store := FunctionStart(f), ScopeOf(f.parameters), Arguments(f, env);
    StartFits(m, f, tracked, env);
    var a := DropsAt(c, s, store, false);
    var o, leaks := Ast.EvalBlock(m, f.body, env, fuel), Leaks.LeaksBlock(m, f.body, env, fuel);
    k, g := n, d;
    if o.Normal? && f.body.ty != f.returnType {
      OnlyUnitSlips(c, f.body, f.returnType, scope, env, fuel);
      k := EndSticks(c, f, scope, o.env, d.store, d.lost);
      RunsJoin(c, Start(f, env), n, d, k, Stuck);
      k, g := n + k, Stuck;
    } else if o.Void? {
      VoidFits(c, f.body, f.returnType, env, fuel);
      UnitReads(d.store, LowerBlock(s, f.body).v.source);
      k := EndSticks(c, f, scope, o.env, d.store, d.lost);
      RunsJoin(c, Start(f, env), n, d, k, Stuck);
      k, g := n + k, Stuck;
    } else if o.Normal? {
      k, g := EndRuns(c, f, scope, o.env, d.store, d.lost, o.val);
      RunsJoin(c, Start(f, env), n, d, k, g);
      k := n + k;
      var last := LowerBlock(s, f.body);
      TrackedJoin(c, a, DropsAt(c, last.s, Take(d.store, last.v.source, f.body.ty), d.lost),
        EndDrops(c, g), leaks, false);
      EndedIs(c, f, a, g, leaks);
    } else if o.Returned? {
      EndedIs(c, f, a, g, leaks);
    } else if o.Timeout? {
      PausedIs(c, f, a, g, leaks);
    }
  }

  lemma {:induction false} EndedIs(c: Context, f: Function, a: Drops, d: Config, leaks: bool)
    requires c.final == LowerFunction(f) && Clean(a) && d.Finished? && Tracked(c, a, EndDrops(c, d), leaks)
    ensures c.tracked ==> (!d.lost && NothingLeft(f, d.store) <==> !leaks)
  {
    hide LowerFunction;
    assert Stale(c, {}, d.store) == {} <==> NothingLeft(f, d.store) by {
      if NothingLeft(f, d.store) {
        assert forall x :: x !in Stale(c, {}, d.store);
      } else {
        var x :| x in d.store && (x, Managed) in LowerFunction(f).vars;
        assert x in Stale(c, {}, d.store);
      }
    }
  }

  lemma {:induction false} PausedIs(c: Context, f: Function, a: Drops, d: Config, leaks: bool)
    requires c.final == LowerFunction(f) && c.heads == LoopHeads(f) && Clean(a) && d.Running? && Paused(c, a, leaks, d)
    ensures Underway(f, c.tracked, leaks, d)
  {
    hide LowerFunction, LoopHeads, AtHead, Owned, Live;
    var t :| t in c.heads && AtHead(t, d) && Tracked(c, a, DropsAt(c, t, d.store, d.lost), leaks);
    assert Stale(c, Owned(Live(t.frames)), d.store) == {} <==> NothingAdrift(f, t, d.store) by {
      if NothingAdrift(f, t, d.store) {
        assert forall x :: x !in Stale(c, Owned(Live(t.frames)), d.store);
      } else {
        var x :| x in d.store && (x, Managed) in LowerFunction(f).vars && x !in Owned(Live(t.frames));
        assert x in Stale(c, Owned(Live(t.frames)), d.store);
      }
    }
  }

  lemma {:induction false} EndStages(c: Context, f: Function)
    requires c.final == LowerFunction(f)
    ensures var last := LowerBlock(FunctionStart(f), f.body);
      var end := EmitDrops(PopFrame(last.s), Entries(f.parameters));
      Sub(c, Emit(end, Return(last.v.source))) && Sub(c, end) && Sub(c, last.s)
  {
    hide LowerBlock, Grows, Sub, Lowers, Valid, CurrentEnds, LowerFunction, EmitDrops, Emit, PopFrame, FunctionStart;
    FunctionStages(f);
    var last := LowerBlock(FunctionStart(f), f.body);
    var end := EmitDrops(PopFrame(last.s), Entries(f.parameters));
    GrowsEnd(FunctionStart(f), LowerFunction(f));
    SubFinal(c);
    PopVars(last.s);
    SubEmit(c, end, Return(last.v.source));
    EmitDropsStart(c, PopFrame(last.s), Entries(f.parameters));
    SubBlocks(c, last.s, PopFrame(last.s));
  }

  lemma {:induction false} SubFinal(c: Context)
    requires Within(c.final.blocks, c.final.blocks)
    ensures Sub(c, c.final)
  {
  }

  lemma {:induction false} PopVars(s: State)
    ensures PopFrame(s).vars == s.vars
  {
  }

  /** The parameters are dropped and control is at the return. */
  lemma {:induction false} EndDropsRun(c: Context, f: Function, store: Store, lost: bool) returns (n: nat)
    requires ContextOk(c) && c.final == LowerFunction(f)
    requires VarsDistinct(Entries(f.parameters)) && Owned(Entries(f.parameters)) <= store.Keys
    ensures var last := LowerBlock(FunctionStart(f), f.body);
      var left := store - Owned(Entries(f.parameters));
      var end := At(EmitDrops(PopFrame(last.s), Entries(f.parameters)), left, lost);
      last.v.Move? && end.Running? && Runs(c, At(last.s, store, lost), n, Execute(c.m, Return(last.v.source), end))
  {
    hide Lowers, Grows, Within, Sub, VarsDistinct, Owned, LowerBlock, Valid, LowerFunction,
      FunctionStart, EmitDrops, Runs;
    FunctionStages(f);
    EndStages(c, f);
    var last := LowerBlock(FunctionStart(f), f.body);
    var x, e := last.v.source, Entries(f.parameters);
    var k := DropsRun(c, PopFrame(last.s), e, store, lost);
    var end, left := EmitDrops(PopFrame(last.s), e), store - Owned(e);
    EmitRuns(c, end, Return(x), left, lost);
    RunsJoin(c, At(last.s, store, lost), k, At(end, left, lost), 1, Execute(c.m, Return(x), At(end, left, lost)));
    n := k + 1;
  }

  /** The result of the body is returned. */
  lemma {:induction false} EndRuns(c: Context, f: Function, scope: Ast.Scope, env: Ast.Env, store: Store, lost: bool,
      val: Val) returns (n: nat, d: Config)
    requires ContextOk(c) && c.final == LowerFunction(f) && c.m.returnType == f.returnType
    requires ScopeFits(scope, Entries(f.parameters))
    requires var last := LowerBlock(FunctionStart(f), f.body);
      Fit(c, last.s, scope, env, Take(store, last.v.source, f.returnType))
        && Read(store, last.v.source, f.returnType) == Some(val)
    ensures Runs(c, At(LowerBlock(FunctionStart(f), f.body).s, store, lost), n, d) && d.Finished? && d.result == val
    ensures var last := LowerBlock(FunctionStart(f), f.body);
      Tracked(c, DropsAt(c, last.s, Take(store, last.v.source, f.returnType), lost), EndDrops(c, d), false)
  {
    hide Lowers, Grows, Added, Within, ScopeFits, Sub, VarsDistinct, Owned, Live, TmpsKept, Stale, Tracked;
    hide LowerBlock, Valid, LowerFunction, FunctionStart, EmitDrops, Runs;
    FunctionStages(f);
    StartIs(f);
    var last, e := LowerBlock(FunctionStart(f), f.body), Entries(f.parameters);
    var x, owned := last.v.source, Owned(e);
    ParametersOwned(f, scope, x);
    n := EndDropsRun(c, f, store, lost);
    d := Finished(val, Take(store - owned, x, f.returnType), lost);
    StaleDropped(c, owned, owned, Take(store, x, f.returnType));
    assert owned - owned == {};
    assert Take(store - owned, x, f.returnType) == Take(store, x, f.returnType) - owned;
    TrackedSame(c, EndDrops(c, d));
  }

  /** The body has completed where another value is to be returned: there is
      none. */
  lemma {:induction false} EndSticks(c: Context, f: Function, scope: Ast.Scope, env: Ast.Env, store: Store,
      lost: bool) returns (n: nat)
    requires ContextOk(c) && c.final == LowerFunction(f) && c.m.returnType == f.returnType != Unit
    requires ScopeFits(scope, Entries(f.parameters))
    requires var last := LowerBlock(FunctionStart(f), f.body);
      Fit(c, last.s, scope, env, Take(store, last.v.source, Unit)) && (last.v.source, Unit) in c.final.vars
    ensures Runs(c, At(LowerBlock(FunctionStart(f), f.body).s, store, lost), n, Stuck)
  {
    hide Lowers, Grows, Added, Within, ScopeFits, Sub, VarsDistinct, Owned, Live, TmpsKept, ContextOk;
    hide LowerBlock, Valid, LowerFunction, FunctionStart, EmitDrops, Runs;
    FunctionStages(f);
    StartIs(f);
    var last := LowerBlock(FunctionStart(f), f.body);
    ParametersOwned(f, scope, last.v.source);
    UnitIsEmpty(c, last.s, scope, env, store, last.v.source);
    n := EndDropsRun(c, f, store, lost);
  }

  lemma {:induction false} ParametersOwned(f: Function, scope: Ast.Scope, x: Var)
    requires ScopeFits(scope, Entries(f.parameters)) && x.Tmp?
    ensures VarsDistinct(Entries(f.parameters)) && x !in Owned(Entries(f.parameters))
  {
  }

  // ---------------------------------------------------------------- theorems

  predicate Results(o: Ast.Outcome, v: Val) {
    (o.Normal? && o.val == v) || (o.Returned? && o.returned == v)
  }

  /** Calling the function in the source language yields v. */
  ghost predicate Evaluates(m: Machine, f: Function, env: Ast.Env, v: Val) {
    exists fuel :: Results(Called(m, f, env, fuel), v)
  }

  /** Calling the function comes to the end of a block where a value of another
      type is expected. */
  ghost predicate Slips(m: Machine, f: Function, env: Ast.Env) {
    exists fuel :: Called(m, f, env, fuel).Slipped?
  }

  /** Calling the function misses a drop. */
  ghost predicate Leaky(m: Machine, f: Function, env: Ast.Env) {
    exists fuel :: Leaks.LeaksBlock(m, f.body, env, fuel)
  }

  predicate FinishesWith(c: Config, v: Val) {
    c.Finished? && c.result == v
  }

  /** Running the blocks from the entry yields v. */
  ghost predicate Executes(m: Machine, blocks: seq<Block>, f: Function, env: Ast.Env, v: Val) {
    exists n :: FinishesWith(Run(m, blocks, Start(f, env), n), v)
  }

  /** Running the blocks from the entry uses a variable that holds no value. */
  ghost predicate Sticks(m: Machine, blocks: seq<Block>, f: Function, env: Ast.Env) {
    exists n :: Run(m, blocks, Start(f, env), n).Stuck?
  }

  /** Once a run is over it stays over. */
  lemma {:induction false} RunStays(m: Machine, blocks: seq<Block>, c: Config, n: nat, k: nat)
    requires !Run(m, blocks, c, n).Running? && n <= k
    ensures Run(m, blocks, c, k) == Run(m, blocks, c, n)
  {
    RunJoin(m, blocks, c, n, k - n);
    RunOver(m, blocks, Run(m, blocks, c, n), k - n);
  }

  /** Any run that is over is the one that matches an evaluation. */
  lemma {:induction false} RunIsMatched(m: Machine, f: Function, tracked: bool, env: Ast.Env,
      n: nat) returns (fuel: nat)
    requires TypedFunction(m, f) && Ast.EnvFits(env, ScopeOf(f.parameters)) && (tracked ==> OneTypeEach(f))
    requires !Run(m, LowerFunction(f).blocks, Start(f, env), n).Running?
    ensures !Called(m, f, env, fuel).Timeout?
    ensures FunctionRan(f, tracked, Called(m, f, env, fuel), Leaks.LeaksBlock(m, f.body, env, fuel), fuel, n,
      Run(m, LowerFunction(f).blocks, Start(f, env), n))
  {
    hide LowerFunction, Called, Leaks.LeaksBlock, Start, TypedFunction, OneTypeEach, NothingLeft, Run;
    fuel := n + 1;
    var k, d := FunctionRuns(m, f, tracked, env, fuel);
    var blocks := LowerFunction(f).blocks;
    if n <= k {
      RunStays(m, blocks, Start(f, env), n, k);
    } else if !d.Running? {
      RunStays(m, blocks, Start(f, env), k, n);
    }
  }

  /** The lowered function computes exactly what the source computes; it gets
      stuck exactly when the source comes to the end of a block where another
      value is expected. */
  lemma {:induction false} LoweringIsCorrect(m: Machine, f: Function, env: Ast.Env, v: Val)
    requires TypedFunction(m, f) && Ast.EnvFits(env, ScopeOf(f.parameters))
    ensures Evaluates(m, f, env, v) <==> Executes(m, LowerFunction(f).blocks, f, env, v)
    ensures Slips(m, f, env) <==> Sticks(m, LowerFunction(f).blocks, f, env)
  {
    hide LowerFunction, Called, Leaks.LeaksBlock, Start, TypedFunction, NothingLeft, Run;
    var blocks := LowerFunction(f).blocks;
    if Evaluates(m, f, env, v) {
      var fuel :| Results(Called(m, f, env, fuel), v);
      var n, d := FunctionRuns(m, f, false, env, fuel);
      assert FinishesWith(Run(m, blocks, Start(f, env), n), v);
    }
    if Executes(m, blocks, f, env, v) {
      var n :| FinishesWith(Run(m, blocks, Start(f, env), n), v);
      var fuel := RunIsMatched(m, f, false, env, n);
      assert Results(Called(m, f, env, fuel), v);
    }
    if Slips(m, f, env) {
      var fuel :| Called(m, f, env, fuel).Slipped?;
      var n, d := FunctionRuns(m, f, false, env, fuel);
      assert Run(m, blocks, Start(f, env), n).Stuck?;
    }
    if Sticks(m, blocks, f, env) {
      var n :| Run(m, blocks, Start(f, env), n).Stuck?;
      var fuel := RunIsMatched(m, f, false, env, n);
      assert Called(m, f, env, fuel).Slipped?;
    }
  }

  /** Up to this step nothing managed has been overwritten, no empty variable
      has been used, and if the run is over nothing managed is left. */
  ghost predicate RunsClean(m: Machine, blocks: seq<Block>, f: Function, env: Ast.Env, n: nat) {
    var d := Run(m, blocks, Start(f, env), n);
    !d.Stuck? && !d.lost && (d.Finished? ==> NothingLeft(f, d.store))
  }

  /** A call that misses no drop in the source: along the whole run no value of
      a managed type is overwritten, and at the end every one of them has been
      dropped, moved or returned. */
  lemma {:induction false} DropsAreComplete(m: Machine, f: Function, env: Ast.Env, n: nat)
    requires TypedFunction(m, f) && Ast.EnvFits(env, ScopeOf(f.parameters)) && OneTypeEach(f)
    requires !Slips(m, f, env) && !Leaky(m, f, env)
    ensures RunsClean(m, LowerFunction(f).blocks, f, env, n)
  {
    hide LowerFunction, Called, Leaks.LeaksBlock, Start, TypedFunction, NothingLeft, OneTypeEach, Run;
    var blocks := LowerFunction(f).blocks;
    if !Run(m, blocks, Start(f, env), n).Running? {
      var fuel := RunIsMatched(m, f, true, env, n);
    } else {
      var k, d := FunctionRuns(m, f, true, env, n);
      if k < n && !d.Running? {
        RunStays(m, blocks, Start(f, env), k, n);
      }
      RunJoin(m, blocks, Start(f, env), n, k - n);
      LostStays(m, blocks, Run(m, blocks, Start(f, env), n), k - n);
    }
  }

  /** What has been lost stays lost. */
  lemma {:induction false} LostStays(m: Machine, blocks: seq<Block>, c: Config, n: nat)
    requires var d := Run(m, blocks, c, n); !d.Stuck? && !d.lost
    ensures !c.Stuck? && !c.lost
    decreases n
  {
    if n > 0 {
      LostStays(m, blocks, Step(m, blocks, c), n - 1);
    }
  }

  /** For a call that yields a value the condition is exact. */
  lemma {:induction false} DropsAreExact(m: Machine, f: Function, env: Ast.Env, v: Val)
    requires TypedFunction(m, f) && Ast.EnvFits(env, ScopeOf(f.parameters)) && OneTypeEach(f)
    requires Evaluates(m, f, env, v)
    ensures (forall n :: RunsClean(m, LowerFunction(f).blocks, f, env, n)) <==> !Leaky(m, f, env)
  {
    hide LowerFunction, Called, Leaks.LeaksBlock, Start, TypedFunction, NothingLeft, OneTypeEach, Run;
    var blocks := LowerFunction(f).blocks;
    var fuel :| Results(Called(m, f, env, fuel), v);
    if Leaky(m, f, env) {
      var some :| Leaks.LeaksBlock(m, f.body, env, some);
      var enough := if some <= fuel then fuel else some;
      EndedStays(m, f, env, fuel, enough);
      LeaksStay(m, f, env, some, enough);
      var n, d := FunctionRuns(m, f, true, env, enough);
      assert !RunsClean(m, blocks, f, env, n);
    } else {
      SlipsNot(m, f, env, fuel);
      forall n
        ensures RunsClean(m, blocks, f, env, n)
      {
        DropsAreComplete(m, f, env, n);
      }
    }
  }

  /** A call that has not ended within the fuel: a run of at least as many steps
      is at the head of a loop, where all live variables hold values.  There
      nothing managed has been overwritten, and nothing managed holds a value
      without being live, if and only if the evaluation has missed no drop so
      far. */
  lemma {:induction false} DropsSoFarAreExact(m: Machine, f: Function, env: Ast.Env,
      fuel: nat) returns (n: nat, t: State)
    requires TypedFunction(m, f) && Ast.EnvFits(env, ScopeOf(f.parameters)) && OneTypeEach(f)
    requires Called(m, f, env, fuel).Timeout?
    ensures n >= fuel && t in LoopHeads(f) && AtHead(t, Run(m, LowerFunction(f).blocks, Start(f, env), n))
    ensures forall u :: u in LoopHeads(f) && AtHead(u, Run(m, LowerFunction(f).blocks, Start(f, env), n)) ==> u == t
    ensures var d := Run(m, LowerFunction(f).blocks, Start(f, env), n);
      (!d.lost && NothingAdrift(f, t, d.store)) <==> !Leaks.LeaksBlock(m, f.body, env, fuel)
  {
    hide LowerFunction, Called, Leaks.LeaksBlock, Start, TypedFunction, NothingAdrift,
      OneTypeEach, Run, AtHead, LoopHeads;
    var d;
    n, d := FunctionRuns(m, f, true, env, fuel);
    t :| t in LoopHeads(f) && AtHead(t, d)
      && (!d.lost && NothingAdrift(f, t, d.store) <==> !Leaks.LeaksBlock(m, f.body, env, fuel));
    forall u | u in LoopHeads(f) && AtHead(u, d)
      ensures u == t
    {
      OneHead(f, t, u, d);
    }
  }

  /** A run is at one loop head at a time. */
  lemma {:induction false} OneHead(f: Function, t: State, u: State, d: Config)
    requires t in LoopHeads(f) && u in LoopHeads(f) && AtHead(t, d) && AtHead(u, d)
    ensures t == u
  {
    hide HeadsOfBlock, FunctionStart, LowerBlock, Live, Owned;
    LoweringHeads.BlockHeadsApart(FunctionStart(f), f.body);
  }

  lemma {:induction false} EndedStays(m: Machine, f: Function, env: Ast.Env, fuel: nat, more: nat)
    requires !Called(m, f, env, fuel).Timeout? && fuel <= more
    ensures Called(m, f, env, more) == Called(m, f, env, fuel)
    decreases more
  {
    hide Ast.EvalBlock;
    if fuel < more {
      EndedStays(m, f, env, fuel, more - 1);
      Ast.MoreFuelBlock(m, f.body, env, more - 1);
    }
  }

  lemma {:induction false} LeaksStay(m: Machine, f: Function, env: Ast.Env, fuel: nat, more: nat)
    requires Leaks.LeaksBlock(m, f.body, env, fuel) && fuel <= more
    ensures Leaks.LeaksBlock(m, f.body, env, more)
    decreases more
  {
    hide Leaks.LeaksBlock;
    if fuel < more {
      LeaksStay(m, f, env, fuel, more - 1);
      Leaks.MoreLeaksBlock(m, f.body, env, more - 1);
    }
  }

  /** A call has one outcome. */
  lemma {:induction false} SlipsNot(m: Machine, f: Function, env: Ast.Env, fuel: nat)
    requires Called(m, f, env, fuel).Normal? || Called(m, f, env, fuel).Returned?
    ensures !Slips(m, f, env)
  {
    hide Called;
    forall other: nat
      ensures !Called(m, f, env, other).Slipped?
    {
      if Called(m, f, env, other).Slipped? {
        if other <= fuel { EndedStays(m, f, env, other, fuel); } else { EndedStays(m, f, env, fuel, other); }
      }
    }
  }

  /** What a caller can check in the source: flagged blocks that hold something
      managed, or from which another value is expected, must exit, and so must
      the bodies of loops whose condition leaves something managed.  Then drops
      are complete along every run, whatever the operators do. */
  lemma {:induction false} TidyIsClean(m: Machine, f: Function, env: Ast.Env, n: nat)
    requires TypedFunction(m, f) && Ast.EnvFits(env, ScopeOf(f.parameters)) && OneTypeEach(f)
    requires Leaks.TidyBranch(f.body, f.returnType)
    ensures RunsClean(m, LowerFunction(f).blocks, f, env, n)
  {
    hide LowerFunction, Leaks.LeaksBlock, Start, NothingLeft, OneTypeEach, Run;
    forall fuel
      ensures !Leaks.LeaksBlock(m, f.body, env, fuel) && !Called(m, f, env, fuel).Slipped?
    {
      Leaks.TidyBlockNeverLeaks(m, f.body, env, fuel);
      Leaks.TidyBranchNeverSlips(m, f.body, f.returnType, ScopeOf(f.parameters), env, fuel);
    }
    DropsAreComplete(m, f, env, n);
  }

  /** The same for flags as the checker records them, where no flag comes from
      a right operand of && or || or from a loop body. */
  lemma {:induction false} TrustedIsClean(m: Machine, f: Function, env: Ast.Env, n: nat)
    requires TypedFunction(m, f) && Ast.EnvFits(env, ScopeOf(f.parameters)) && OneTypeEach(f)
    requires Leaks.TrustedBlock(f.body)
    ensures RunsClean(m, LowerFunction(f).blocks, f, env, n)
  {
    hide LowerFunction, Leaks.TrustedBlock, Leaks.TidyBlock, TypedFunction, OneTypeEach, RunsClean;
    Leaks.TrustedBlockIsTidy(f.body);
    TidyIsClean(m, f, env, n);
  }

  /** All of it holds for what dead code elimination leaves. */
  lemma {:induction false} PipelineIsCorrect(m: Machine, f: Function, env: Ast.Env, v: Val)
    requires TypedFunction(m, f) && Ast.EnvFits(env, ScopeOf(f.parameters))
    ensures var blocks := DeadCode.Pruned(LowerFunction(f).blocks);
      && (Evaluates(m, f, env, v) <==> Executes(m, blocks, f, env, v))
      && (Slips(m, f, env) <==> Sticks(m, blocks, f, env))
      && (OneTypeEach(f) && !Slips(m, f, env) && !Leaky(m, f, env) ==> forall n :: RunsClean(m, blocks, f, env, n))
      && (OneTypeEach(f) && Evaluates(m, f, env, v) && Leaky(m, f, env) ==>
        exists n :: !RunsClean(m, blocks, f, env, n))
  {
    hide LowerFunction, Called, TypedFunction, NothingLeft, Arguments, DeadCode.Pruned, DeadCode.Processable,
      Evaluates, OneTypeEach, Slips, Leaky, Run;
    LoweredShape(f);
    LoweredIsProcessable(f);
    LoweringIsCorrect(m, f, env, v);
    var u, p := LowerFunction(f).blocks, DeadCode.Pruned(LowerFunction(f).blocks);
    forall n
      ensures Run(m, p, Start(f, env), n) == Run(m, u, Start(f, env), n)
    {
      DeadCode.EveryRunPreserved(m, u, Arguments(f, env), false, n);
    }
    SameRuns(m, u, p, f, env, v);
    if OneTypeEach(f) && !Slips(m, f, env) && !Leaky(m, f, env) {
      forall n
        ensures RunsClean(m, p, f, env, n)
      {
        DropsAreComplete(m, f, env, n);
      }
    }
    if OneTypeEach(f) && Evaluates(m, f, env, v) && Leaky(m, f, env) {
      DropsAreExact(m, f, env, v);
      var n :| !RunsClean(m, u, f, env, n);
      assert !RunsClean(m, p, f, env, n);
    }
  }

  lemma {:induction false} SameRuns(m: Machine, a: seq<Block>, b: seq<Block>, f: Function, env: Ast.Env, v: Val)
    requires forall n :: Run(m, b, Start(f, env), n) == Run(m, a, Start(f, env), n)
    ensures Executes(m, a, f, env, v) <==> Executes(m, b, f, env, v)
    ensures Sticks(m, a, f, env) <==> Sticks(m, b, f, env)
  {
    hide Run, Start;
    if Executes(m, a, f, env, v) {
      var n :| FinishesWith(Run(m, a, Start(f, env), n), v);
      assert FinishesWith(Run(m, b, Start(f, env), n), v);
    }
    if Executes(m, b, f, env, v) {
      var n :| FinishesWith(Run(m, b, Start(f, env), n), v);
      assert FinishesWith(Run(m, a, Start(f, env), n), v);
    }
    if Sticks(m, a, f, env) {
      var n :| Run(m, a, Start(f, env), n).Stuck?;
      assert Run(m, b, Start(f, env), n).Stuck?;
    }
    if Sticks(m, b, f, env) {
      var n :| Run(m, b, Start(f, env), n).Stuck?;
      assert Run(m, a, Start(f, env), n).Stuck?;
    }
  }

  // ------------------------------------------------------------- drop order

  /** The drops of a list of variables, last variable first. */
  function DropsOf(frame: Frame): seq<Instruction> {
    seq(|frame|, i requires 0 <= i < |frame| =>
      var e := frame[|frame| - 1 - i];
      Drop(Place(e.0, e.1), e.1))
  }

  function WithCode(s: State, code: seq<Instruction>): State
    requires s.blocks != []
  {
    var k := |s.blocks| - 1;
    s.(blocks := s.blocks[k := s.blocks[k].(instructions := s.blocks[k].instructions + code)])
  }

  lemma {:induction false} WithCodeJoin(s: State, a: seq<Instruction>, b: seq<Instruction>)
    requires s.blocks != []
    ensures WithCode(WithCode(s, a), b) == WithCode(s, a + b)
  {
    var k := |s.blocks| - 1;
    assert s.blocks[k].instructions + a + b == s.blocks[k].instructions + (a + b);
  }

  /** A frame is dropped in reverse order of declaration. */
  lemma {:induction false} DropsAreReversed(s: State, frame: Frame)
    requires s.blocks != []
    ensures EmitDrops(s, frame) == WithCode(s, DropsOf(frame))
    decreases |frame|
  {
    var k := |s.blocks| - 1;
    if frame == [] {
      assert s.blocks[k].instructions + DropsOf(frame) == s.blocks[k].instructions;
    } else {
      var n := |frame| - 1;
      var first := Drop(Place(frame[n].0, frame[n].1), frame[n].1);
      DropsAreReversed(Emit(s, first), frame[..n]);
      WithCodeJoin(s, [first], DropsOf(frame[..n]));
      assert [first] + DropsOf(frame[..n]) == DropsOf(frame);
    }
  }

  /** A return drops all live variables in reverse order of declaration,
      innermost frame first. */
  lemma {:induction false} ReturnDropsAreReversed(s: State, frames: seq<Frame>)
    requires s.blocks != []
    ensures EmitAllDrops(s, frames) == WithCode(s, DropsOf(Live(frames)))
    decreases |frames|
  {
    var k := |s.blocks| - 1;
    if frames == [] {
      assert s.blocks[k].instructions + DropsOf(Live(frames)) == s.blocks[k].instructions;
    } else {
      var n := |frames| - 1;
      var outer, top := Live(frames[..n]), frames[n];
      DropsAreReversed(s, top);
      ReturnDropsAreReversed(EmitDrops(s, top), frames[..n]);
      WithCodeJoin(s, DropsOf(top), DropsOf(outer));
      assert DropsOf(top) + DropsOf(outer) == DropsOf(outer + top);
    }
  }
}

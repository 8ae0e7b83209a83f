/** The shape of lowered code: what every lowering step keeps.

    Grows(s, t, labels, tmps) relates a state to a later one; labels are those
    handed out in between that have no block yet, tmps the temporaries handed
    out that have not been made live yet. */
module LoweringShape {
  import opened Collections
  import opened Mir
  import opened Lowering
  import Ast
  import Leaks

  // -------------------------------------------------------------------- code

  /** Code is only ever added at the end. */
  ghost predicate Within(a: seq<Block>, b: seq<Block>) {
    && 0 < |a| <= |b|
    && (forall i :: 0 <= i < |a| - 1 ==> b[i] == a[i])
    && b[|a| - 1].lbl == a[|a| - 1].lbl
    && a[|a| - 1].instructions <= b[|a| - 1].instructions
  }

  lemma {:induction false} WithinJoin(a: seq<Block>, b: seq<Block>, c: seq<Block>)
    requires Within(a, b) && Within(b, c)
    ensures Within(a, c)
  {
  }

  ghost predicate TargetOf(blocks: seq<Block>, l: Label) {
    exists i, k :: 0 <= i < |blocks| && 0 <= k < |blocks[i].instructions| && l in Targets(blocks[i].instructions[k])
  }

  ghost predicate HasBlock(blocks: seq<Block>, l: Label) {
    exists i :: 0 <= i < |blocks| && blocks[i].lbl == l
  }

  /** The variables of a list of entries that are temporaries, at most once each. */
  ghost predicate TmpsDistinct(entries: seq<(Var, Ty)>) {
    forall i, j :: 0 <= i < j < |entries| && entries[i].0.Tmp? ==> entries[i].0 != entries[j].0
  }

  ghost predicate TmpsBetween(entries: seq<(Var, Ty)>, low: nat, high: nat) {
    forall i :: 0 <= i < |entries| && entries[i].0.Tmp? ==> low <= entries[i].0.index < high
  }

  ghost predicate BlocksValid(blocks: seq<Block>, nextLabel: Label) {
    && blocks != []
    && DistinctLabels(blocks)
    && (forall i :: 0 <= i < |blocks| ==> blocks[i].lbl < nextLabel)
    && (forall i :: 0 <= i < |blocks| - 1 ==> HasTerminator(blocks[i].instructions))
  }

  /** Blocks a have become b; the labels from low on are new, pending are those
      of them without a block; every new target has a block or is pending. */
  ghost predicate BlocksGrow(a: seq<Block>, low: Label, b: seq<Block>, high: Label, pending: set<Label>) {
    && BlocksValid(b, high)
    && Within(a, b)
    && low <= high
    && (forall i :: |a| <= i < |b| ==> low <= b[i].lbl)
    && (forall l :: l in pending ==> low <= l < high && !HasBlock(b, l))
    && (forall l :: TargetOf(b, l) ==> TargetOf(a, l) || HasBlock(b, l) || l in pending)
  }

  ghost predicate VarsGrow(a: seq<(Var, Ty)>, low: nat, b: seq<(Var, Ty)>, high: nat, pending: set<nat>) {
    && TmpsDistinct(b) && TmpsBetween(b, 0, high)
    && a <= b && low <= high
    && TmpsBetween(b[|a|..], low, high)
    && (forall k :: k in pending ==> low <= k < high && forall i :: 0 <= i < |b| ==> b[i].0 != Tmp(k))
  }

  ghost predicate CodeValid(s: State) {
    BlocksValid(s.blocks, s.nextLabel) && TmpsDistinct(s.vars) && TmpsBetween(s.vars, 0, s.tmpIndex)
  }

  ghost predicate Grows(s: State, t: State, labels: set<Label>, tmps: set<nat>) {
    && BlocksGrow(s.blocks, s.nextLabel, t.blocks, t.nextLabel, labels)
    && VarsGrow(s.vars, s.tmpIndex, t.vars, t.tmpIndex, tmps)
    && s.returnType == t.returnType
  }

  predicate CurrentEnds(s: State) {
    s.blocks != [] && HasTerminator(s.blocks[|s.blocks| - 1].instructions)
  }

  lemma {:induction false} BlocksJoin(a: seq<Block>, low: Label, b: seq<Block>, mid: Label, c: seq<Block>,
      high: Label, pending: set<Label>)
    requires BlocksGrow(a, low, b, mid, pending) && BlocksGrow(b, mid, c, high, {})
    ensures BlocksGrow(a, low, c, high, pending)
    ensures forall l :: HasBlock(b, l) ==> HasBlock(c, l)
  {
    WithinJoin(a, b, c);
    assert forall i :: 0 <= i < |b| ==> c[i].lbl == b[i].lbl;
    forall l | HasBlock(b, l)
      ensures HasBlock(c, l)
    {
      var i :| 0 <= i < |b| && b[i].lbl == l;
      assert c[i].lbl == l;
    }
  }

  lemma {:induction false} VarsJoin(a: seq<(Var, Ty)>, low: nat, b: seq<(Var, Ty)>, mid: nat, c: seq<(Var, Ty)>,
      high: nat, pending: set<nat>)
    requires VarsGrow(a, low, b, mid, pending) && VarsGrow(b, mid, c, high, {})
    ensures VarsGrow(a, low, c, high, pending)
  {
    var extra := c[|b|..];
    assert c[|a|..] == b[|a|..] + extra;
    forall k, i | k in pending && 0 <= i < |c|
      ensures c[i].0 != Tmp(k)
    {
      if i >= |b| {
        assert c[i] == extra[i - |b|];
      }
    }
  }

  lemma {:induction false} GrowsJoin(s: State, t: State, u: State, labels: set<Label>, tmps: set<nat>)
    requires Grows(s, t, labels, tmps) && Grows(t, u, {}, {})
    ensures Grows(s, u, labels, tmps)
    ensures forall l :: HasBlock(t.blocks, l) ==> HasBlock(u.blocks, l)
  {
    BlocksJoin(s.blocks, s.nextLabel, t.blocks, t.nextLabel, u.blocks, u.nextLabel, labels);
    VarsJoin(s.vars, s.tmpIndex, t.vars, t.tmpIndex, u.vars, u.tmpIndex, tmps);
  }

  function Appended(blocks: seq<Block>, i: Instruction): seq<Block>
    requires blocks != []
  {
    var n := |blocks| - 1;
    blocks[n := blocks[n].(instructions := blocks[n].instructions + [i])]
  }

  lemma {:induction false} AppendTargets(blocks: seq<Block>, i: Instruction, l: Label)
    requires blocks != [] && TargetOf(Appended(blocks, i), l)
    ensures TargetOf(blocks, l) || l in Targets(i)
  {
    var u := Appended(blocks, i);
    var n := |blocks| - 1;
    var b, k :| 0 <= b < |u| && 0 <= k < |u[b].instructions| && l in Targets(u[b].instructions[k]);
    if b < n || k < |blocks[n].instructions| {
      assert u[b].instructions[k] == blocks[b].instructions[k];
    }
  }

  lemma {:induction false} AppendEnds(blocks: seq<Block>, i: Instruction)
    requires blocks != []
    requires IsTerminator(i) || HasTerminator(blocks[|blocks| - 1].instructions)
    ensures HasTerminator(Appended(blocks, i)[|blocks| - 1].instructions)
  {
    var before, after := blocks[|blocks| - 1].instructions, Appended(blocks, i)[|blocks| - 1].instructions;
    if IsTerminator(i) {
      assert after[|before|] == i;
    } else {
      var k :| 0 <= k < |before| && IsTerminator(before[k]);
      assert after[k] == before[k];
    }
  }

  lemma {:induction false} AppendGrows(a: seq<Block>, low: Label, b: seq<Block>, high: Label,
      pending: set<Label>, i: Instruction)
    requires BlocksGrow(a, low, b, high, pending)
    requires forall l :: l in Targets(i) ==> l in pending || HasBlock(b, l)
    ensures BlocksGrow(a, low, Appended(b, i), high, pending)
    ensures forall l :: HasBlock(b, l) ==> HasBlock(Appended(b, i), l)
  {
    var u := Appended(b, i);
    assert |u| == |b| && forall k :: 0 <= k < |b| ==> u[k].lbl == b[k].lbl;
    forall l ensures HasBlock(u, l) <==> HasBlock(b, l) {
      if HasBlock(b, l) {
        var k :| 0 <= k < |b| && b[k].lbl == l;
        assert u[k].lbl == l;
      }
    }
    assert Within(b, u);
    WithinJoin(a, b, u);
    forall l | TargetOf(u, l)
      ensures TargetOf(a, l) || HasBlock(u, l) || l in pending
    {
      AppendTargets(b, i, l);
    }
  }

  lemma {:induction false} EmitGrows(s: State, t: State, labels: set<Label>, tmps: set<nat>, i: Instruction)
    requires Grows(s, t, labels, tmps)
    requires forall l :: l in Targets(i) ==> l in labels || HasBlock(t.blocks, l)
    ensures Grows(s, Emit(t, i), labels, tmps)
    ensures IsTerminator(i) || CurrentEnds(t) ==> CurrentEnds(Emit(t, i))
    ensures forall l :: HasBlock(t.blocks, l) ==> HasBlock(Emit(t, i).blocks, l)
  {
    AppendGrows(s.blocks, s.nextLabel, t.blocks, t.nextLabel, labels, i);
    if IsTerminator(i) || CurrentEnds(t) {
      AppendEnds(t.blocks, i);
    }
  }

  lemma {:induction false} NewBlockGrows(a: seq<Block>, low: Label, b: seq<Block>, high: Label,
      pending: set<Label>, l: Label)
    requires BlocksGrow(a, low, b, high, pending) && l in pending
    requires HasTerminator(b[|b| - 1].instructions)
    ensures BlocksGrow(a, low, b + [Block(l, [])], high, pending - {l})
    ensures HasBlock(b + [Block(l, [])], l)
    ensures forall k :: HasBlock(b, k) ==> HasBlock(b + [Block(l, [])], k)
  {
    var u := b + [Block(l, [])];
    forall k ensures HasBlock(u, k) <==> HasBlock(b, k) || k == l {
      NewBlockFound(b, l, k);
    }
    NewBlockValid(b, high, l);
    assert Within(b, u);
    WithinJoin(a, b, u);
    forall k | TargetOf(u, k)
      ensures TargetOf(a, k) || HasBlock(u, k) || k in pending - {l}
    {
      NewBlockTargets(b, l, k);
    }
  }

  lemma {:induction false} NewBlockFound(b: seq<Block>, l: Label, k: Label)
    ensures HasBlock(b + [Block(l, [])], k) <==> HasBlock(b, k) || k == l
  {
    var u := b + [Block(l, [])];
    assert u[|b|].lbl == l;
    if HasBlock(b, k) {
      var i :| 0 <= i < |b| && b[i].lbl == k;
      assert u[i].lbl == k;
    }
  }

  lemma {:induction false} NewBlockTargets(b: seq<Block>, l: Label, k: Label)
    requires TargetOf(b + [Block(l, [])], k)
    ensures TargetOf(b, k)
  {
    var u := b + [Block(l, [])];
    var c, j :| 0 <= c < |u| && 0 <= j < |u[c].instructions| && k in Targets(u[c].instructions[j]);
    assert u[c] == b[c];
  }

  lemma {:induction false} NewBlockValid(b: seq<Block>, high: Label, l: Label)
    requires BlocksValid(b, high) && HasTerminator(b[|b| - 1].instructions)
    requires l < high && !HasBlock(b, l)
    ensures BlocksValid(b + [Block(l, [])], high)
  {
    var u := b + [Block(l, [])];
    assert forall i :: 0 <= i < |b| ==> u[i] == b[i] && b[i].lbl != l;
  }

  lemma {:induction false} StartBlockGrows(s: State, t: State, labels: set<Label>, tmps: set<nat>, l: Label)
    requires Grows(s, t, labels, tmps) && l in labels && CurrentEnds(t)
    ensures Grows(s, StartBlock(t, l), labels - {l}, tmps)
    ensures HasBlock(StartBlock(t, l).blocks, l)
    ensures forall k :: HasBlock(t.blocks, k) ==> HasBlock(StartBlock(t, l).blocks, k)
  {
    NewBlockGrows(s.blocks, s.nextLabel, t.blocks, t.nextLabel, labels, l);
  }

  lemma {:induction false} FreshLabelGrows(s: State, t: State, labels: set<Label>, tmps: set<nat>)
    requires Grows(s, t, labels, tmps)
    ensures Grows(s, FreshLabel(t).s, labels, tmps)
    ensures Grows(s, FreshLabel(t).s, labels + {FreshLabel(t).lbl}, tmps)
    ensures FreshLabel(t).lbl !in labels
  {
  }

  lemma {:induction false} UndroppedGrows(s: State, t: State, labels: set<Label>, tmps: set<nat>)
    requires Grows(s, t, labels, tmps)
    ensures Grows(s, UndroppedTmp(t).s, labels, tmps + {t.tmpIndex})
    ensures t.tmpIndex !in tmps
  {
  }

  lemma {:induction false} AddLiveGrows(s: State, t: State, labels: set<Label>, tmps: set<nat>, x: Var, ty: Ty)
    requires Grows(s, t, labels, tmps)
    requires x.Tmp? ==> x.index in tmps
    ensures Grows(s, AddLive(t, x, ty), labels, if x.Tmp? then tmps - {x.index} else tmps)
  {
    var u := AddLive(t, x, ty);
    if t.frames != [] {
      assert u.vars[|s.vars|..] == t.vars[|s.vars|..] + [(x, ty)];
    }
  }

  /** Steps that only touch the frames or the panic flag. */
  lemma {:induction false} SameCodeGrows(s: State, t: State, u: State, labels: set<Label>, tmps: set<nat>)
    requires Grows(s, t, labels, tmps)
    requires u == t.(frames := u.frames, panicked := u.panicked)
    ensures Grows(s, u, labels, tmps)
  {
  }

  // ------------------------------------------------------------------ frames

  /** All live variables, outermost frame first. */
  function Live(frames: seq<Frame>): Frame {
    if frames == [] then [] else Live(frames[..|frames| - 1]) + frames[|frames| - 1]
  }

  /** What has been added to the top frame since s. */
  function Added(s: State, t: State): Frame {
    if |TopFrame(s)| <= |TopFrame(t)| then TopFrame(t)[|TopFrame(s)|..] else []
  }

  ghost predicate FramesValid(s: State) {
    && s.frames != [] && !s.panicked
    && TmpsDistinct(Live(s.frames))
    && TmpsBetween(Live(s.frames), 0, s.tmpIndex)
  }

  /** Outer frames stay as they are; to the top frame only new variables have
      been added, and nothing has panicked. */
  ghost predicate FramesGrow(s: State, t: State) {
    && s.frames != [] && |s.frames| == |t.frames| && !t.panicked
    && s.frames[..|s.frames| - 1] == t.frames[..|s.frames| - 1]
    && TopFrame(s) <= TopFrame(t)
    && TmpsDistinct(Added(s, t))
    && TmpsBetween(Added(s, t), s.tmpIndex, t.tmpIndex)
    && (|s.vars| <= |t.vars| && forall e :: e in Added(s, t) ==> e in t.vars[|s.vars|..])
  }

  ghost predicate Lowers(s: State, t: State, labels: set<Label>, tmps: set<nat>) {
    Grows(s, t, labels, tmps) && FramesGrow(s, t)
  }

  ghost predicate Valid(s: State) {
    CodeValid(s) && FramesValid(s)
  }

  ghost predicate IsAdded(s: State, t: State, x: Var) {
    exists ty :: (x, ty) in Added(s, t)
  }

  lemma {:induction false} LowersSelf(s: State)
    requires Valid(s)
    ensures Lowers(s, s, {}, {}) && Added(s, s) == []
  {
  }

  lemma {:induction false} LiveGrows(s: State, t: State)
    requires FramesGrow(s, t)
    ensures Live(t.frames) == Live(s.frames) + Added(s, t)
  {
    assert TopFrame(t) == TopFrame(s) + Added(s, t);
  }

  lemma {:induction false} LowersValid(s: State, t: State, labels: set<Label>, tmps: set<nat>)
    requires Valid(s) && Lowers(s, t, labels, tmps)
    ensures Valid(t)
  {
    LiveGrows(s, t);
  }

  lemma {:induction false} LowersJoin(s: State, t: State, u: State, labels: set<Label>, tmps: set<nat>)
    requires Lowers(s, t, labels, tmps) && Lowers(t, u, {}, {})
    ensures Lowers(s, u, labels, tmps)
    ensures Added(s, u) == Added(s, t) + Added(t, u)
    ensures forall l :: HasBlock(t.blocks, l) ==> HasBlock(u.blocks, l)
  {
    hide TmpsDistinct, TmpsBetween;
    GrowsJoin(s, t, u, labels, tmps);
    var a, b := Added(s, t), Added(t, u);
    assert TopFrame(u) == TopFrame(t) + b;
    assert Added(s, u) == a + b;
    assert u.vars[|s.vars|..] == t.vars[|s.vars|..] + u.vars[|t.vars|..];
    AddedDistinct(a, b, s.tmpIndex, t.tmpIndex, u.tmpIndex);
  }

  lemma {:induction false} AddedDistinct(a: Frame, b: Frame, low: nat, mid: nat, high: nat)
    requires TmpsDistinct(a) && TmpsBetween(a, low, mid)
    requires TmpsDistinct(b) && TmpsBetween(b, mid, high)
    requires low <= mid <= high
    ensures TmpsDistinct(a + b) && TmpsBetween(a + b, low, high)
  {
  }

  lemma {:induction false} EmitLowers(s: State, t: State, labels: set<Label>, tmps: set<nat>, i: Instruction)
    requires Lowers(s, t, labels, tmps)
    requires forall l :: l in Targets(i) ==> l in labels || HasBlock(t.blocks, l)
    ensures Lowers(s, Emit(t, i), labels, tmps) && Added(s, Emit(t, i)) == Added(s, t) && Emit(t, i).frames == t.frames
    ensures IsTerminator(i) || CurrentEnds(t) ==> CurrentEnds(Emit(t, i))
    ensures forall l :: HasBlock(t.blocks, l) ==> HasBlock(Emit(t, i).blocks, l)
  {
    EmitGrows(s, t, labels, tmps, i);
  }

  lemma {:induction false} StartBlockLowers(s: State, t: State, labels: set<Label>, tmps: set<nat>, l: Label)
    requires Lowers(s, t, labels, tmps) && l in labels && CurrentEnds(t)
    ensures Lowers(s, StartBlock(t, l), labels - {l}, tmps) && Added(s, StartBlock(t, l)) == Added(s, t)
    ensures StartBlock(t, l).frames == t.frames
    ensures HasBlock(StartBlock(t, l).blocks, l)
    ensures forall k :: HasBlock(t.blocks, k) ==> HasBlock(StartBlock(t, l).blocks, k)
  {
    StartBlockGrows(s, t, labels, tmps, l);
  }

  lemma {:induction false} FreshLabelLowers(s: State, t: State, labels: set<Label>, tmps: set<nat>)
    requires Lowers(s, t, labels, tmps)
    ensures Lowers(s, FreshLabel(t).s, labels, tmps)
    ensures Lowers(s, FreshLabel(t).s, labels + {FreshLabel(t).lbl}, tmps) && Added(s, FreshLabel(t).s) == Added(s, t)
    ensures FreshLabel(t).s.frames == t.frames && FreshLabel(t).s.tmpIndex == t.tmpIndex
    ensures FreshLabel(t).lbl !in labels
  {
    FreshLabelGrows(s, t, labels, tmps);
  }

  lemma {:induction false} UndroppedLowers(s: State, t: State, labels: set<Label>, tmps: set<nat>)
    requires Lowers(s, t, labels, tmps)
    ensures Lowers(s, UndroppedTmp(t).s, labels, tmps + {t.tmpIndex}) && Added(s, UndroppedTmp(t).s) == Added(s, t)
    ensures UndroppedTmp(t).s.frames == t.frames
    ensures t.tmpIndex !in tmps && UndroppedTmp(t).x == Tmp(t.tmpIndex)
  {
    UndroppedGrows(s, t, labels, tmps);
  }

  lemma {:induction false} AddLiveLowers(s: State, t: State, labels: set<Label>, tmps: set<nat>, x: Var, ty: Ty)
    requires Lowers(s, t, labels, tmps)
    requires x.Tmp? ==> x.index in tmps
    ensures Lowers(s, AddLive(t, x, ty), labels, if x.Tmp? then tmps - {x.index} else tmps)
    ensures Added(s, AddLive(t, x, ty)) == Added(s, t) + [(x, ty)]
  {
    AddLiveGrows(s, t, labels, tmps, x, ty);
    var u := AddLive(t, x, ty);
    assert TopFrame(u) == TopFrame(t) + [(x, ty)];
    assert Added(s, u) == Added(s, t) + [(x, ty)];
    assert u.vars[|s.vars|..] == t.vars[|s.vars|..] + [(x, ty)];
    forall i | 0 <= i < |Added(s, t)|
      ensures Added(s, t)[i].0 != x || x.Explicit?
    {
      assert Added(s, t)[i] in t.vars[|s.vars|..];
    }
  }

  /** Position of an entry that is not in the first part. */
  lemma {:induction false} PositionAfter(a: Frame, b: Frame, x: Var)
    requires forall i :: 0 <= i < |a| ==> a[i].0 != x
    ensures PositionOf(a + b, x) == |a| + PositionOf(b, x)
  {
    var i := PositionOf(a + b, x);
    var j := PositionOf(b, x);
    if j < |b| {
      assert (a + b)[|a| + j].0 == x;
    }
    if i < |a + b| && i >= |a| {
      assert b[i - |a|].0 == x;
    }
  }

  function Without(frame: Frame, x: Var): Frame {
    var i := PositionOf(frame, x);
    if i < |frame| then frame[..i] + frame[i + 1..] else frame
  }

  lemma {:induction false} WithoutIs(frame: Frame, x: Var)
    requires PositionOf(frame, x) < |frame|
    ensures var i, w := PositionOf(frame, x), Without(frame, x);
      && |w| == |frame| - 1 && (forall k :: 0 <= k < i ==> w[k] == frame[k])
        && (forall k :: i <= k < |w| ==> w[k] == frame[k + 1])
  {
  }

  lemma {:induction false} WithoutStays(frame: Frame, x: Var, e: (Var, Ty))
    requires e in frame && e.0 != x
    ensures e in Without(frame, x)
  {
    var i, w := PositionOf(frame, x), Without(frame, x);
    if i < |frame| {
      WithoutIs(frame, x);
      var k :| 0 <= k < |frame| && frame[k] == e;
      assert e == w[if k < i then k else k - 1];
    }
  }

  lemma {:induction false} WithoutKeeps(frame: Frame, x: Var)
    requires TmpsDistinct(frame) && x.Tmp?
    ensures TmpsDistinct(Without(frame, x))
    ensures forall e :: e in Without(frame, x) <==> e in frame && e.0 != x
  {
    hide Without;
    var i, w := PositionOf(frame, x), Without(frame, x);
    if i < |frame| {
      WithoutIs(frame, x);
      forall k | 0 <= k < |w|
        ensures w[k] in frame && w[k].0 != x
      {
        assert w[k] == frame[if k < i then k else k + 1];
      }
    } else {
      WithoutNothing(frame, x);
    }
    forall e | e in frame && e.0 != x
      ensures e in w
    {
      WithoutStays(frame, x, e);
    }
  }

  lemma {:induction false} WithoutNothing(frame: Frame, x: Var)
    requires PositionOf(frame, x) == |frame|
    ensures Without(frame, x) == frame
  {
  }

  lemma {:induction false} RemoveLiveLowers(s: State, t: State, labels: set<Label>, tmps: set<nat>, x: Var, ty: Ty)
    requires Valid(s) && Lowers(s, t, labels, tmps)
    requires x.Tmp? && (x, ty) in Added(s, t)
    ensures Lowers(s, RemoveLive(t, x), labels, tmps)
    ensures Added(s, RemoveLive(t, x)) == Without(Added(s, t), x)
    ensures LiveType(t, x) == ty
  {
    var b := Added(s, t);
    var u := RemoveLive(t, x);
    RemoveLiveTop(s, t, x, ty);
    assert TopFrame(u)[..|TopFrame(s)|] == TopFrame(s);
    assert Added(s, u) == Without(b, x);
    WithoutKeeps(b, x);
    SameCodeGrows(s, t, u, labels, tmps);
    WithoutBetween(b, x, s.tmpIndex, t.tmpIndex);
  }

  lemma {:induction false} WithoutBetween(frame: Frame, x: Var, low: nat, high: nat)
    requires TmpsBetween(frame, low, high)
    ensures TmpsBetween(Without(frame, x), low, high)
  {
  }

  lemma {:induction false} RemoveLiveTop(s: State, t: State, x: Var, ty: Ty)
    requires FramesValid(s) && FramesGrow(s, t)
    requires x.Tmp? && (x, ty) in Added(s, t)
    ensures var u := RemoveLive(t, x);
      u == t.(frames := u.frames) && |u.frames| == |t.frames| && u.frames[..|t.frames| - 1] ==
        t.frames[..|t.frames| - 1]
      && TopFrame(u) == TopFrame(s) + Without(Added(s, t), x)
    ensures LiveType(t, x) == ty
  {
    var b := Added(s, t);
    assert TopFrame(t) == TopFrame(s) + b;
    var j :| 0 <= j < |b| && b[j] == (x, ty);
    OldNamesDiffer(s, t, x, ty);
    RemoveFromTop(t, TopFrame(s), b, x, j);
  }

  lemma {:induction false} RemoveFromTop(t: State, a: Frame, b: Frame, x: Var, j: nat)
    requires t.frames != [] && TopFrame(t) == a + b && TmpsDistinct(b)
    requires x.Tmp? && j < |b| && b[j].0 == x
    requires forall i :: 0 <= i < |a| ==> a[i].0 != x
    ensures LiveType(t, x) == b[j].1
    ensures RemoveLive(t, x) == t.(frames := t.frames[|t.frames| - 1 := a + Without(b, x)])
  {
    RemoveAfter(a, b, x, j);
    assert (a + b)[|a| + j] == b[j];
  }

  /** A temporary made live since s is not among the older variables. */
  lemma {:induction false} OldNamesDiffer(s: State, t: State, x: Var, ty: Ty)
    requires FramesValid(s) && FramesGrow(s, t)
    requires x.Tmp? && (x, ty) in Added(s, t)
    ensures forall i :: 0 <= i < |TopFrame(s)| ==> TopFrame(s)[i].0 != x
  {
    var outer := Live(s.frames[..|s.frames| - 1]);
    assert Live(s.frames) == outer + TopFrame(s);
    forall i | 0 <= i < |TopFrame(s)|
      ensures TopFrame(s)[i].0 != x
    {
      assert Live(s.frames)[|outer| + i] == TopFrame(s)[i];
    }
  }

  lemma {:induction false} RemoveAfter(a: Frame, b: Frame, x: Var, j: nat)
    requires forall i :: 0 <= i < |a| ==> a[i].0 != x
    requires TmpsDistinct(b) && x.Tmp? && j < |b| && b[j].0 == x
    ensures PositionOf(a + b, x) == |a| + j && Without(a + b, x) == a + Without(b, x)
  {
    PositionUnique(b, x, j);
    PositionAfter(a, b, x);
    RemoveAt(a, b, j);
  }

  lemma {:induction false} RemoveAt(a: Frame, b: Frame, j: nat)
    requires j < |b|
    ensures (a + b)[..|a| + j] + (a + b)[|a| + j + 1..] == a + (b[..j] + b[j + 1..])
  {
    var c := a + b;
    assert c[..|a| + j] == a + b[..j];
    assert c[|a| + j + 1..] == b[j + 1..];
  }

  lemma {:induction false} PositionUnique(b: Frame, x: Var, j: nat)
    requires TmpsDistinct(b) && x.Tmp? && j < |b| && b[j].0 == x
    ensures PositionOf(b, x) == j
  {
    var i := PositionOf(b, x);
  }

  lemma {:induction false} PushValid(s: State)
    requires Valid(s)
    ensures Valid(PushFrame(s)) && Live(PushFrame(s).frames) == Live(s.frames)
  {
    assert PushFrame(s).frames[..|s.frames|] == s.frames;
  }

  lemma {:induction false} DroppedTmpLowers(s: State, t: State, labels: set<Label>, tmps: set<nat>, ty: Ty)
    requires Lowers(s, t, labels, tmps)
    ensures var d := DroppedTmp(t, ty);
      d.x == Tmp(t.tmpIndex) && Lowers(s, d.s, labels, tmps) && Added(s, d.s) == Added(s, t) + [(d.x, ty)]
  {
    UndroppedLowers(s, t, labels, tmps);
    AddLiveLowers(s, UndroppedTmp(t).s, labels, tmps + {t.tmpIndex}, Tmp(t.tmpIndex), ty);
    assert tmps + {t.tmpIndex} - {t.tmpIndex} == tmps;
  }

  /** A value that is moved comes out of a temporary made live since s. */
  ghost predicate ValueOk(s: State, t: State, v: Value) {
    v.Move? ==> v.source.Tmp? && IsAdded(s, t, v.source)
  }

  ghost predicate KeepsBlocks(t: State, u: State) {
    forall l :: HasBlock(t.blocks, l) ==> HasBlock(u.blocks, l)
  }

  lemma {:induction false} DoAssignLowers(s: State, t: State, labels: set<Label>, tmps: set<nat>,
      to: Place, ty: Ty, v: Value)
    requires Valid(s) && Lowers(s, t, labels, tmps) && ValueOk(s, t, v)
    ensures var u := DoAssign(t, to, ty, v);
      Lowers(s, u, labels, tmps) && KeepsBlocks(t, u) &&
      Added(s, u) == if v.Move? then Without(Added(s, t), v.source) else Added(s, t)
  {
    hide Grows, FramesGrow, FramesValid, CodeValid;
    var mid := t;
    if v.Move? {
      var tx :| (v.source, tx) in Added(s, t);
      RemoveLiveLowers(s, t, labels, tmps, v.source, tx);
      mid := RemoveLive(t, v.source);
    }
    EmitLowers(s, mid, labels, tmps, Assign(to, ty, v));
  }

  lemma {:induction false} AssignToVarLowers(s: State, t: State, labels: set<Label>, tmps: set<nat>, v: Value, ty: Ty)
    requires Valid(s) && Lowers(s, t, labels, tmps) && ValueOk(s, t, v)
    ensures var r := AssignToVar(t, v, ty);
      Lowers(s, r.s, labels, tmps) && KeepsBlocks(t, r.s) && r.x.Tmp? && IsAdded(s, r.s, r.x) &&
      Added(s, r.s) == if v.Move? then Added(s, t) else Added(s, t) + [(r.x, ty)]
  {
    hide Grows, FramesGrow, FramesValid, CodeValid;
    if !v.Move? {
      DroppedTmpLowers(s, t, labels, tmps, ty);
      var d := DroppedTmp(t, ty);
      DoAssignLowers(s, d.s, labels, tmps, Place(d.x, ty), ty, v);
      assert (Added(s, t) + [(d.x, ty)])[|Added(s, t)|] == (d.x, ty);
    }
  }

  lemma {:induction false} EmitDropsLowers(s: State, t: State, labels: set<Label>, tmps: set<nat>, frame: Frame)
    requires Lowers(s, t, labels, tmps)
    ensures var u := EmitDrops(t, frame);
      Lowers(s, u, labels, tmps) && KeepsBlocks(t, u) && Added(s, u) == Added(s, t) && u.frames == t.frames
    decreases |frame|
  {
    hide Grows, FramesGrow, FramesValid, CodeValid;
    if frame != [] {
      var last := frame[|frame| - 1];
      EmitLowers(s, t, labels, tmps, Drop(Place(last.0, last.1), last.1));
      EmitDropsLowers(s, Emit(t, Drop(Place(last.0, last.1), last.1)), labels, tmps, frame[..|frame| - 1]);
    }
  }

  lemma {:induction false} EmitAllDropsLowers(s: State, t: State, labels: set<Label>,
      tmps: set<nat>, frames: seq<Frame>)
    requires Lowers(s, t, labels, tmps)
    ensures var u := EmitAllDrops(t, frames);
      Lowers(s, u, labels, tmps) && KeepsBlocks(t, u) && Added(s, u) == Added(s, t) && u.frames == t.frames
    decreases |frames|
  {
    hide Grows, FramesGrow, FramesValid, CodeValid;
    if frames != [] {
      var frame := frames[|frames| - 1];
      EmitDropsLowers(s, t, labels, tmps, frame);
      EmitAllDropsLowers(s, EmitDrops(t, frame), labels, tmps, frames[..|frames| - 1]);
    }
  }

  /** Leaving a nested frame: the outer frames are as they were. */
  lemma {:induction false} PopLowers(s: State, t: State, u: State, labels: set<Label>, tmps: set<nat>)
    requires Lowers(s, t, labels, tmps) && Lowers(PushFrame(t), u, {}, {})
    ensures Lowers(s, PopFrame(u), labels, tmps) && Added(s, PopFrame(u)) == Added(s, t)
    ensures PopFrame(u).frames == t.frames
    ensures Lowers(s, PopAndDrop(u), labels, tmps) && Added(s, PopAndDrop(u)) == Added(s, t)
    ensures PopAndDrop(u).frames == t.frames
    ensures KeepsBlocks(t, PopAndDrop(u)) && KeepsBlocks(t, PopFrame(u))
  {
    var q := PopFrame(u);
    PopFrames(s, t, u);
    assert Grows(t, u, {}, {});
    GrowsJoin(s, t, u, labels, tmps);
    SameCodeGrows(s, u, q, labels, tmps);
    EmitDropsLowers(s, q, labels, tmps, TopFrame(u));
  }

  lemma {:induction false} PopFrames(s: State, t: State, u: State)
    requires FramesGrow(s, t) && FramesGrow(PushFrame(t), u) && s.vars <= t.vars <= u.vars && t.tmpIndex <= u.tmpIndex
    ensures PopFrame(u).frames == t.frames && PopFrame(u) == u.(frames := t.frames)
    ensures FramesGrow(s, PopFrame(u)) && Added(s, PopFrame(u)) == Added(s, t)
  {
    var p := PushFrame(t);
    assert p.frames[..|t.frames|] == t.frames;
    assert t.vars[|s.vars|..] <= u.vars[|s.vars|..];
  }

  /** What is left of the entries once the value has been moved out. */
  function Consumed(frame: Frame, v: Value): Frame {
    if v.Move? then Without(frame, v.source) else frame
  }

  lemma {:induction false} ReturnValueLowers(s: State, t: State, v: Value)
    requires Valid(s) && Lowers(s, t, {}, {}) && ValueOk(s, t, v)
    ensures var r := ReturnValue(t, v);
      Lowers(s, r.s, {}, {}) && ValueOk(s, r.s, r.v) && Added(s, r.s) == Consumed(Added(s, t), v)
  {
    hide Grows, FramesGrow, FramesValid, CodeValid, Added;
    AssignToVarLowers(s, t, {}, {}, v, t.returnType);
    var a := AssignToVar(t, v, t.returnType);
    var tx :| (a.x, tx) in Added(s, a.s);
    RemoveLiveLowers(s, a.s, {}, {}, a.x, tx);
    if !v.Move? {
      WithoutNew(s, t, a.x, t.returnType);
    }
    var u := RemoveLive(a.s, a.x);
    EmitAllDropsLowers(s, u, {}, {}, u.frames);
    EmitLowers(s, EmitAllDrops(u, u.frames), {}, {}, Return(a.x));
  }

  lemma {:induction false} WithoutNew(s: State, t: State, x: Var, ty: Ty)
    requires Lowers(s, t, {}, {}) && x == Tmp(t.tmpIndex)
    ensures Without(Added(s, t) + [(x, ty)], x) == Added(s, t)
  {
    var a := Added(s, t);
    PositionAfter(a, [(x, ty)], x);
    assert (a + [(x, ty)])[..|a|] + (a + [(x, ty)])[|a| + 1..] == a;
  }

  /** No managed variable among the entries. */
  ghost predicate PlainFrame(frame: Frame) {
    forall i :: 0 <= i < |frame| ==> !frame[i].1.Managed?
  }

  // --------------------------------------------------------- all expressions

  /** Lowering an expression from a valid state only adds code and live
      temporaries, hands out no label that gets no block, and never panics. */
  lemma {:induction false} ExprLowers(s: State, e: Ast.Expr)
    requires Valid(s)
    ensures var r := LowerExpr(s, e); Lowers(s, r.s, {}, {}) && ValueOk(s, r.s, r.v) && Valid(r.s)
    decreases e, 1
  {
    hide Lowers, Grows, FramesGrow, FramesValid, CodeValid;
    hide LowerShortcircuit, LowerIfElse, LowerWhile, LowerBlock, LowerToVar, ReturnValue, BlockResult, AssignVariable;
    LowersSelf(s);
    match e {
    case Return(None, _) =>
      ReturnValueLowers(s, s, UNIT_VALUE);
    case Return(Some(v), _) =>
      ExprLowers(s, v);
      var r := LowerExpr(s, v);
      ReturnValueLowers(s, r.s, r.v);
    case Literal(_) =>
    case BlockExpr(b, _) =>
      BlockLowers(s, b);
      var r := LowerBlock(s, b);
      BlockResultLowers(s, r.s, b.ty, r.v);
    case Path(_, _) =>
    case Not(operand) =>
      ToVarLowers(s, operand, Bool);
    case Negate(operand) =>
      ToVarLowers(s, operand, Ast.TypeOf(operand));
    case Assign(x, rootTy, rhs) =>
      ExprLowers(s, rhs);
      var r := LowerExpr(s, rhs);
      AssignVariableLowers(s, r.s, Place(Explicit(x), rootTy), Ast.TypeOf(rhs), r.v);
    case BinOp(l, op, r) =>
      if op.And? {
        ShortcircuitLowers(s, e, 1);
      } else if op.Or? {
        ShortcircuitLowers(s, e, 0);
      } else {
        BinOpLowers(s, e);
      }
    case IfElse(_, _, _, _) => IfElseLowers(s, e);
    case While(_, _) => WhileLowers(s, e);
    }
    LowersValid(s, LowerExpr(s, e).s, {}, {});
  }

  lemma {:induction false} BlockResultLowers(s: State, t: State, ty: Ty, v: Value)
    requires Lowers(s, t, {}, {})
    ensures var r := BlockResult(t, ty, v); Lowers(s, r.s, {}, {}) && ValueOk(s, r.s, r.v)
    ensures var r := BlockResult(t, ty, v); Added(s, r.s) == Added(s, t) + [(Tmp(t.tmpIndex), ty)]
  {
    hide Grows, FramesGrow, FramesValid, CodeValid;
    UndroppedLowers(s, t, {}, {});
    var res := UndroppedTmp(t);
    assert {} + {t.tmpIndex} == {t.tmpIndex};
    EmitLowers(s, res.s, {}, {t.tmpIndex}, Assign(Place(res.x, ty), ty, v));
    AddLiveLowers(s, EmitAssign(res.s, Place(res.x, ty), ty, v), {}, {t.tmpIndex}, res.x, ty);
    var r := BlockResult(t, ty, v);
    assert {t.tmpIndex} - {t.tmpIndex} == {};
    assert Added(s, r.s)[|Added(s, t)|] == (res.x, ty);
  }

  lemma {:induction false} AssignVariableLowers(s: State, t: State, place: Place, ty: Ty, v: Value)
    requires Valid(s) && Lowers(s, t, {}, {}) && ValueOk(s, t, v)
    ensures var r := AssignVariable(t, place, ty, v);
      Lowers(s, r.s, {}, {}) && ValueOk(s, r.s, r.v) && Added(s, r.s) == Consumed(Added(s, t), v)
  {
    hide Grows, FramesGrow, FramesValid, CodeValid, Added, Lowers, Valid, DoAssign, Emit, AddLive, Without;
    DroppedTmpLowers(s, t, {}, {}, ty);
    var d := DroppedTmp(t, ty);
    OldAndNewTmp(s, t, v, (d.x, ty));
    DoAssignLowers(s, d.s, {}, {}, Place(d.x, ty), ty, v);
    var a := DoAssign(d.s, Place(d.x, ty), ty, v);
    EmitLowers(s, a, {}, {}, Drop(place, ty));
    DoAssignLowers(s, Emit(a, Drop(place, ty)), {}, {}, place, ty, Move(d.x));
  }

  /** A fresh temporary next to the one a value moves out of. */
  lemma {:induction false} OldAndNewTmp(s: State, t: State, v: Value, e: (Var, Ty))
    requires Lowers(s, t, {}, {}) && ValueOk(s, t, v) && e.0 == Tmp(t.tmpIndex)
    ensures v.Move? ==> exists ty :: (v.source, ty) in Added(s, t) + [e]
    ensures e in Consumed(Added(s, t) + [e], v)
    ensures Without(Consumed(Added(s, t) + [e], v), e.0) == Consumed(Added(s, t), v)
  {
    var older := Added(s, t);
    var all := older + [e];
    assert all[|all| - 1] == e;
    if v.Move? {
      var ty :| (v.source, ty) in older;
      assert (v.source, ty) in all;
      WithoutAppend(older, e, v.source, ty);
      var w := Without(older, v.source);
      assert (w + [e])[|w|] == e;
      WithoutKeeps(older, v.source);
      NewNotIn(s, t, w, e);
    } else {
      WithoutNew(s, t, e.0, e.1);
    }
  }

  lemma {:induction false} NewNotIn(s: State, t: State, frame: Frame, e: (Var, Ty))
    requires Lowers(s, t, {}, {}) && e.0 == Tmp(t.tmpIndex)
    requires forall x :: x in frame ==> x in Added(s, t)
    ensures Without(frame + [e], e.0) == frame
  {
    forall i | 0 <= i < |frame|
      ensures frame[i].0 != e.0
    {
      assert frame[i] in Added(s, t);
      var j :| 0 <= j < |Added(s, t)| && Added(s, t)[j] == frame[i];
    }
    PositionAfter(frame, [e], e.0);
    assert (frame + [e])[..|frame|] + (frame + [e])[|frame| + 1..] == frame;
  }

  lemma {:induction false} BinOpLowers(s: State, e: Ast.Expr)
    requires Valid(s) && e.BinOp? && !e.op.And? && !e.op.Or?
    ensures var r := LowerExpr(s, e); Lowers(s, r.s, {}, {}) && ValueOk(s, r.s, r.v)
    decreases e, 0
  {
    hide Lowers, Valid, Grows, FramesGrow, FramesValid, CodeValid, Added, HasBlock, IsAdded, LowerToVar;
    ToVarLowers(s, e.left, Ast.TypeOf(e.left));
    var x := LowerToVar(s, e.left, Ast.TypeOf(e.left));
    ToVarLowers(x.s, e.right, Ast.TypeOf(e.right));
    LowersJoin(s, x.s, LowerToVar(x.s, e.right, Ast.TypeOf(e.right)).s, {}, {});
  }

  lemma {:induction false} ShortcircuitLowers(s: State, e: Ast.Expr, otherIf: nat)
    requires Valid(s) && e.BinOp?
    ensures var r := LowerShortcircuit(s, e, otherIf);
      Lowers(s, r.s, {}, {}) && ValueOk(s, r.s, r.v) && Added(s, r.s) == [(Tmp(s.tmpIndex), Bool)]
    ensures var cont := FreshLabel(s);
      var other := FreshLabel(cont.s);
      var tmp := UndroppedTmp(other.s);
      var left := LowerOperand(tmp.s, Place(tmp.x, Bool), e.left);
      var second := OtherOperand(left, tmp.x, otherIf, other.lbl, cont.lbl);
      Valid(tmp.s) && tmp.s.frames == s.frames && Valid(second) && second.frames == s.frames
    decreases e, 0
  {
    hide Lowers, Valid, Grows, FramesGrow, FramesValid, CodeValid, Added, HasBlock,
      CurrentEnds, LowerExpr, LowerOperand;
    hide Emit, StartBlock, AddLive, UndroppedTmp, FreshLabel;
    LowersSelf(s);
    FreshLabelLowers(s, s, {}, {});
    var cont := FreshLabel(s);
    assert {} + {cont.lbl} == {cont.lbl};
    FreshLabelLowers(s, cont.s, {cont.lbl}, {});
    var other := FreshLabel(cont.s);
    var labels := {cont.lbl, other.lbl};
    assert {cont.lbl} + {other.lbl} == labels;
    UndroppedLowers(s, other.s, labels, {});
    var tmp := UndroppedTmp(other.s);
    var tmps := {tmp.x.index};
    assert {} + tmps == tmps;
    var place := Place(tmp.x, Bool);
    LowersValid(s, tmp.s, labels, tmps);
    OperandLowers(s, tmp.s, labels, tmps, place, e.left);
    var s1 := LowerOperand(tmp.s, place, e.left);
    var i := Switch(tmp.x, [(otherIf, other.lbl)], Some(cont.lbl));
    EmitLowers(s, s1, labels, tmps, i);
    var s2 := Emit(s1, i);
    StartBlockLowers(s, s2, labels, tmps, other.lbl);
    assert labels - {other.lbl} == {cont.lbl};
    var s3 := StartBlock(s2, other.lbl);
    LowersValid(s, s3, {cont.lbl}, tmps);
    OperandLowers(s, s3, {cont.lbl}, tmps, place, e.right);
    var s4 := LowerOperand(s3, place, e.right);
    AddLiveLowers(s, s4, {cont.lbl}, tmps, tmp.x, Bool);
    assert tmps - {tmp.x.index} == {};
    var s5 := AddLive(s4, tmp.x, Bool);
    EmitLowers(s, s5, {cont.lbl}, {}, Jump(cont.lbl));
    var s6 := Emit(s5, Jump(cont.lbl));
    StartBlockLowers(s, s6, {cont.lbl}, {}, cont.lbl);
    assert {cont.lbl} - {cont.lbl} == {};
    var s7 := StartBlock(s6, cont.lbl);
    assert Added(s, s7) == [] + [(tmp.x, Bool)];
    assert Added(s, s7)[0] == (tmp.x, Bool);
  }

  lemma {:induction false} OperandLowers(s: State, t: State, labels: set<Label>, tmps: set<nat>,
      place: Place, operand: Ast.Expr)
    requires Valid(s) && Lowers(s, t, labels, tmps)
    ensures var u := LowerOperand(t, place, operand);
      Lowers(s, u, labels, tmps) && KeepsBlocks(t, u) && Added(s, u) == Added(s, t) && u.frames == t.frames
    decreases operand, 2
  {
    hide Grows, FramesGrow, FramesValid, CodeValid;
    LowersValid(s, t, labels, tmps);
    PushValid(t);
    ExprLowers(PushFrame(t), operand);
    var r := LowerExpr(PushFrame(t), operand);
    DoAssignLowers(PushFrame(t), r.s, {}, {}, place, Bool, r.v);
    PopLowers(s, t, DoAssign(r.s, place, Bool, r.v), labels, tmps);
  }

  lemma {:induction false} ToVarLowers(s: State, e: Ast.Expr, ty: Ty)
    requires Valid(s)
    ensures var r := LowerToVar(s, e, ty);
      Lowers(s, r.s, {}, {}) && Valid(r.s) && r.x.Tmp? && IsAdded(s, r.s, r.x)
    decreases e, 2
  {
    hide Grows, FramesGrow, FramesValid, CodeValid;
    ExprLowers(s, e);
    var c := LowerExpr(s, e);
    AssignToVarLowers(s, c.s, {}, {}, c.v, ty);
    LowersValid(s, LowerToVar(s, e, ty).s, {}, {});
  }

  /** Three labels; the last of them is used only if it is wanted. */
  lemma {:induction false} FreshLabelsLower(s: State, t: State, wanted: bool)
    requires Lowers(s, t, {}, {})
    ensures var l := FreshLabels(t);
      Lowers(s, l.s, {l.cont, l.first} + (if wanted then {l.second} else {}), {}) && Added(s, l.s) == Added(s, t) &&
      l.s.frames == t.frames && l.cont != l.first && l.cont != l.second && l.first != l.second
  {
    hide Grows, FramesGrow;
    FreshLabelLowers(s, t, {}, {});
    var cont := FreshLabel(t);
    assert {} + {cont.lbl} == {cont.lbl};
    FreshLabelLowers(s, cont.s, {cont.lbl}, {});
    var first := FreshLabel(cont.s);
    assert {cont.lbl} + {first.lbl} == {cont.lbl, first.lbl};
    FreshLabelLowers(s, first.s, {cont.lbl, first.lbl}, {});
    assert {cont.lbl, first.lbl} + {} == {cont.lbl, first.lbl};
  }

  lemma {:induction false} IfElseLowers(s: State, e: Ast.Expr)
    requires Valid(s) && e.IfElse?
    ensures var r := LowerIfElse(s, e); Lowers(s, r.s, {}, {}) && ValueOk(s, r.s, r.v)
    ensures var x := LowerToVar(s, e.condition, Bool);
      var l := FreshLabels(x.s);
      var start := ThenBranch(x.x, l, e.elseBlock.Some?);
      var t := LowerBlock(start, e.thenBlock);
      var res := UndroppedTmp(t.s);
      var r := LowerIfElse(s, e);
      && Added(s, r.s) == Added(s, x.s) + [(res.x, e.ty)]
      && Valid(x.s) && Valid(start) && start.frames == x.s.frames
      && (e.elseBlock.Some? ==>
            var other := StartBlock(EndBranch(res.s, Place(res.x, e.ty), t.v, l.cont), l.second);
            Valid(other) && other.frames == x.s.frames)
    decreases e, 0
  {
    hide Lowers, Valid, Grows, FramesGrow, FramesValid, CodeValid, Added, HasBlock, CurrentEnds,
      LowerExpr, LowerBlock, LowerToVar;
    hide Emit, StartBlock, AddLive, UndroppedTmp, FreshLabels, EndBranch, IsAdded;
    ToVarLowers(s, e.condition, Bool);
    var examinee := LowerToVar(s, e.condition, Bool);
    FreshLabelsLower(s, examinee.s, e.elseBlock.Some?);
    var l := FreshLabels(examinee.s);
    var labels := {l.cont, l.first} + (if e.elseBlock.Some? then {l.second} else {});
    var i := Switch(examinee.x, [(1, l.first)], Some(if e.elseBlock.Some? then l.second else l.cont));
    EmitLowers(s, l.s, labels, {}, i);
    StartBlockLowers(s, Emit(l.s, i), labels, {}, l.first);
    labels := labels - {l.first};
    var start := ThenBranch(examinee.x, l, e.elseBlock.Some?);
    var t := BranchLowers(s, start, labels, {}, e.thenBlock);
    UndroppedLowers(s, t.s, labels, {});
    var res := UndroppedTmp(t.s);
    var tmps := {res.x.index};
    assert {} + tmps == tmps;
    var place := Place(res.x, e.ty);
    EndBranchLowers(s, res.s, labels, tmps, place, t.v, l.cont);
    var s4 := EndBranch(res.s, place, t.v, l.cont);
    if e.elseBlock.Some? {
      StartBlockLowers(s, s4, labels, tmps, l.second);
      labels := labels - {l.second};
      var other := StartBlock(s4, l.second);
      var f := BranchLowers(s, other, labels, tmps, e.elseBlock.value);
      EndBranchLowers(s, f.s, labels, tmps, place, f.v, l.cont);
      s4 := EndBranch(f.s, place, f.v, l.cont);
    }
    assert labels == {l.cont};
    StartBlockLowers(s, s4, labels, tmps, l.cont);
    var s6 := StartBlock(s4, l.cont);
    assert labels - {l.cont} == {};
    AddLiveLowers(s, s6, {}, tmps, res.x, e.ty);
    assert tmps - {res.x.index} == {};
    JustAdded(s, AddLive(s6, res.x, e.ty), Added(s, s6), res.x, e.ty);
  }

  /** A frame without one entry. */
  lemma {:induction false} WithoutPlain(frame: Frame, x: Var, ty: Ty)
    requires TmpsDistinct(frame) && x.Tmp? && (x, ty) in frame
    ensures PlainFrame(frame) <==> PlainFrame(Without(frame, x)) && !ty.Managed?
  {
    hide Without;
    WithoutKeeps(frame, x);
    PlainMembers(frame);
    PlainMembers(Without(frame, x));
    forall e | e in frame && e.0 == x
      ensures e == (x, ty)
    {
      var i :| 0 <= i < |frame| && frame[i] == e;
      var j :| 0 <= j < |frame| && frame[j] == (x, ty);
      assert !(i < j) && !(j < i);
    }
  }

  lemma {:induction false} PlainMembers(frame: Frame)
    ensures PlainFrame(frame) <==> forall e :: e in frame ==> !e.1.Managed?
  {
    if PlainFrame(frame) {
      forall e | e in frame
        ensures !e.1.Managed?
      {
        var i :| 0 <= i < |frame| && frame[i] == e;
      }
    } else {
      var i :| 0 <= i < |frame| && frame[i].1.Managed?;
      assert frame[i] in frame;
    }
  }

  lemma {:induction false} PlainJoin(a: Frame, b: Frame)
    ensures PlainFrame(a + b) <==> PlainFrame(a) && PlainFrame(b)
  {
    assert forall i :: 0 <= i < |a| ==> (a + b)[i] == a[i];
    assert forall i :: 0 <= i < |b| ==> (a + b)[|a| + i] == b[i];
  }

  lemma {:induction false} PlainOne(x: Var, ty: Ty)
    ensures PlainFrame([(x, ty)]) <==> !ty.Managed?
  {
    assert [(x, ty)][0] == (x, ty);
  }

  lemma {:induction false} WithoutLast(s: State, t: State, x: Var, ty: Ty)
    requires Lowers(s, t, {}, {}) && x.Tmp? && t.tmpIndex <= x.index
    ensures Without(Added(s, t) + [(x, ty)], x) == Added(s, t)
  {
    var a := Added(s, t);
    PositionAfter(a, [(x, ty)], x);
    assert (a + [(x, ty)])[..|a|] + (a + [(x, ty)])[|a| + 1..] == a;
  }

  /** What the source says about the value of an expression and the temporaries
      next to it is what lowering does. */
  ghost predicate RestExact(s: State, e: Ast.Expr, r: Lowered) {
    && (r.v.Move? <==> Leaks.Moves(e))
    && (r.v.Move? ==> (r.v.source, Leaks.MovedType(e)) in Added(s, r.s))
    && (PlainFrame(Consumed(Added(s, r.s), r.v)) <==> !Leaks.Rest(e))
  }

  /** An expression leaves a managed temporary next to its value if and only if
      Rest says so. */
  lemma {:induction false} RestIsExact(s: State, e: Ast.Expr)
    requires Valid(s)
    ensures RestExact(s, e, LowerExpr(s, e))
    decreases e, 1
  {
    hide Lowers, Grows, FramesGrow, FramesValid, CodeValid, Valid, Added;
    hide LowerShortcircuit, LowerIfElse, LowerWhile, LowerBlock, LowerToVar, ReturnValue, BlockResult, AssignVariable;
    LowersSelf(s);
    match e {
    case Return(None, _) =>
      ReturnValueLowers(s, s, UNIT_VALUE);
      ReturnYieldsUnit(s, UNIT_VALUE);
    case Return(Some(v), _) =>
      ExprLowers(s, v);
      RestIsExact(s, v);
      var r := LowerExpr(s, v);
      ReturnValueLowers(s, r.s, r.v);
      ReturnYieldsUnit(r.s, r.v);
    case Literal(_) =>
    case BlockExpr(b, _) =>
      BlockRest(s, b);
    case Path(_, _) =>
    case Not(operand) =>
      InVarIsExact(s, operand, Bool);
    case Negate(operand) =>
      InVarIsExact(s, operand, Ast.TypeOf(operand));
    case Assign(x, rootTy, rhs) =>
      ExprLowers(s, rhs);
      RestIsExact(s, rhs);
      var r := LowerExpr(s, rhs);
      AssignVariableLowers(s, r.s, Place(Explicit(x), rootTy), Ast.TypeOf(rhs), r.v);
      AssignYieldsUnit(r.s, Place(Explicit(x), rootTy), Ast.TypeOf(rhs), r.v);
    case BinOp(l, op, r) =>
      if op.And? {
        ShortcircuitRest(s, e, 1);
      } else if op.Or? {
        ShortcircuitRest(s, e, 0);
      } else {
        BinOpRest(s, e);
      }
    case IfElse(condition, _, _, _) =>
      IfElseRest(s, e);
    case While(condition, _) =>
      WhileLowers(s, e);
      WhileYieldsUnit(s, e);
      InVarIsExact(LoopHead(FreshLabels(s)), condition, Bool);
    }
  }

  lemma {:induction false} ReturnYieldsUnit(s: State, v: Value)
    ensures ReturnValue(s, v).v == UNIT_VALUE
  {
  }

  lemma {:induction false} AssignYieldsUnit(s: State, place: Place, ty: Ty, v: Value)
    ensures AssignVariable(s, place, ty, v).v == UNIT_VALUE
  {
  }

  lemma {:induction false} WhileYieldsUnit(s: State, e: Ast.Expr)
    requires e.While?
    ensures LowerWhile(s, e).v == UNIT_VALUE
  {
    hide LowerToVar, LowerBlock;
  }

  lemma {:induction false} BlockRest(s: State, b: Ast.Block)
    requires Valid(s)
    ensures var r := LowerBlock(s, b); RestExact(s, Ast.BlockExpr(b, b.ty), BlockResult(r.s, b.ty, r.v))
  {
    hide Lowers, Grows, FramesGrow, FramesValid, CodeValid, Valid, Added, LowerBlock, AddLive, Emit;
    BlockLowers(s, b);
    var r := LowerBlock(s, b);
    BlockResultLowers(s, r.s, b.ty, r.v);
    WithoutLast(s, r.s, Tmp(r.s.tmpIndex), b.ty);
    assert ([] + [(Tmp(r.s.tmpIndex), b.ty)])[0] == (Tmp(r.s.tmpIndex), b.ty);
  }

  lemma {:induction false} ShortcircuitRest(s: State, e: Ast.Expr, otherIf: nat)
    requires Valid(s) && e.BinOp? && (e.op.And? || e.op.Or?)
    ensures RestExact(s, e, LowerShortcircuit(s, e, otherIf))
  {
    hide Lowers, Grows, FramesGrow, FramesValid, CodeValid, Valid, Added, LowerOperand;
    ShortcircuitLowers(s, e, otherIf);
    LowersSelf(s);
    var tmp := Tmp(s.tmpIndex);
    WithoutLast(s, s, tmp, Bool);
    assert [] + [(tmp, Bool)] == [(tmp, Bool)];
    assert [(tmp, Bool)][0] == (tmp, Bool);
    assert LowerShortcircuit(s, e, otherIf).v == Move(tmp);
  }

  lemma {:induction false} IfElseRest(s: State, e: Ast.Expr)
    requires Valid(s) && e.IfElse?
    ensures RestExact(s, e, LowerIfElse(s, e))
    decreases e, 0
  {
    hide *;
    InVarIsExact(s, e.condition, Bool);
    IfElseRestFrom(s, e);
  }

  lemma {:induction false} IfElseRestFrom(s: State, e: Ast.Expr)
    requires Valid(s) && e.IfElse?
    requires PlainFrame(Added(s, LowerToVar(s, e.condition, Bool).s)) <==> !Leaks.InVar(e.condition, Bool)
    ensures RestExact(s, e, LowerIfElse(s, e))
  {
    hide Lowers, Grows, FramesGrow, FramesValid, CodeValid, Valid, Added, LowerToVar, LowerBlock, LowerIfElse;
    hide PlainFrame, Leaks.InVar, Without, UndroppedTmp, ThenBranch, FreshLabels;
    IfElseLowers(s, e);
    IfElseResult(s, e);
    ToVarLowers(s, e.condition, Bool);
    var x := LowerToVar(s, e.condition, Bool);
    var t := LowerBlock(ThenBranch(x.x, FreshLabels(x.s), e.elseBlock.Some?), e.thenBlock);
    NewTmpIs(t.s);
    var res := LowerIfElse(s, e).v.source;
    WithoutLast(s, x.s, res, e.ty);
    var a := Added(s, x.s);
    assert (a + [(res, e.ty)])[|a|] == (res, e.ty);
  }

  lemma {:induction false} NewTmpIs(s: State)
    ensures UndroppedTmp(s).x == Tmp(s.tmpIndex)
  {
  }

  /** The result temporary of an if is younger than its condition. */
  lemma {:induction false} IfElseResult(s: State, e: Ast.Expr)
    requires Valid(s) && e.IfElse?
    ensures var x := LowerToVar(s, e.condition, Bool);
      var l := FreshLabels(x.s);
      var t := LowerBlock(ThenBranch(x.x, l, e.elseBlock.Some?), e.thenBlock);
      && LowerIfElse(s, e).v == Move(UndroppedTmp(t.s).x)
      && x.s.tmpIndex <= t.s.tmpIndex
  {
    hide LowerToVar, LowerBlock, Grows, FramesGrow, FramesValid, CodeValid, Valid, Added;
    IfElseLowers(s, e);
    var x := LowerToVar(s, e.condition, Bool);
    var start := ThenBranch(x.x, FreshLabels(x.s), e.elseBlock.Some?);
    BlockLowers(start, e.thenBlock);
    TmpsOnlyGrow(start, LowerBlock(start, e.thenBlock).s);
  }

  lemma {:induction false} TmpsOnlyGrow(s: State, t: State)
    requires Lowers(s, t, {}, {})
    ensures s.tmpIndex <= t.tmpIndex
  {
  }

  lemma {:induction false} BinOpRest(s: State, e: Ast.Expr)
    requires Valid(s) && e.BinOp? && !e.op.And? && !e.op.Or?
    ensures RestExact(s, e, LowerExpr(s, e))
    decreases e, 0
  {
    hide Lowers, Grows, FramesGrow, FramesValid, CodeValid, Valid, Added, LowerToVar;
    var tl, tr := Ast.TypeOf(e.left), Ast.TypeOf(e.right);
    ToVarLowers(s, e.left, tl);
    InVarIsExact(s, e.left, tl);
    var x := LowerToVar(s, e.left, tl);
    ToVarLowers(x.s, e.right, tr);
    InVarIsExact(x.s, e.right, tr);
    var y := LowerToVar(x.s, e.right, tr);
    LowersJoin(s, x.s, y.s, {}, {});
    PlainJoin(Added(s, x.s), Added(x.s, y.s));
  }

  /** The same for the value in a variable. */
  lemma {:induction false} InVarIsExact(s: State, e: Ast.Expr, ty: Ty)
    requires Valid(s)
    ensures var x := LowerToVar(s, e, ty);
      && (PlainFrame(Added(s, x.s)) <==> !Leaks.InVar(e, ty))
      && (PlainFrame(Without(Added(s, x.s), x.x)) <==> !Leaks.Rest(e))
    decreases e, 2
  {
    hide Lowers, Grows, FramesGrow, FramesValid, CodeValid, Valid, Added, LowerExpr;
    ExprLowers(s, e);
    RestIsExact(s, e);
    ToVarLowers(s, e, ty);
    var r := LowerExpr(s, e);
    var x := LowerToVar(s, e, ty);
    AssignToVarLowers(s, r.s, {}, {}, r.v, ty);
    AddedIsDistinct(s, x.s);
    if r.v.Move? {
      WithoutPlain(Added(s, x.s), x.x, Leaks.MovedType(e));
    } else {
      WithoutNew(s, r.s, x.x, ty);
      PlainJoin(Added(s, r.s), [(x.x, ty)]);
    }
  }

  lemma {:induction false} AddedIsDistinct(s: State, t: State)
    requires Lowers(s, t, {}, {})
    ensures TmpsDistinct(Added(s, t))
  {
  }

  /** Statements leave something managed in their frame if and only if RestOf
      says so. */
  lemma {:induction false} StmtsRestIsExact(s: State, stmts: seq<Ast.Stmt>)
    requires Valid(s)
    ensures PlainFrame(Added(s, LowerStmts(s, stmts))) <==> !Leaks.RestOf(stmts)
    decreases |stmts|
  {
    hide Lowers, Grows, FramesGrow, FramesValid, CodeValid, Valid, Added, LowerStmt;
    if stmts == [] {
      LowersSelf(s);
    } else {
      StmtLowers(s, stmts[0]);
      StmtRestIsExact(s, stmts[0]);
      var t := LowerStmt(s, stmts[0]);
      StmtsLower(t, stmts[1..]);
      StmtsRestIsExact(t, stmts[1..]);
      LowersJoin(s, t, LowerStmts(t, stmts[1..]), {}, {});
      PlainJoin(Added(s, t), Added(t, LowerStmts(t, stmts[1..])));
    }
  }

  lemma {:induction false} StmtRestIsExact(s: State, stmt: Ast.Stmt)
    requires Valid(s)
    ensures PlainFrame(Added(s, LowerStmt(s, stmt))) <==> !Leaks.RestOfStmt(stmt)
  {
    hide Lowers, Grows, FramesGrow, FramesValid, CodeValid, Valid, Added, LowerExpr, LowerToVar,
      AddLive, DoAssign, DropVar;
    match stmt {
    case Let(x, ty, init) =>
      ExprLowers(s, init);
      RestIsExact(s, init);
      var r := LowerExpr(s, init);
      LetLowers(s, r.s, x, ty, r.v);
      PlainJoin(Consumed(Added(s, r.s), r.v), [(Explicit(x), ty)]);
      PlainOne(Explicit(x), ty);
    case ExprStmt(e) =>
      ToVarLowers(s, e, Ast.TypeOf(e));
      InVarIsExact(s, e, Ast.TypeOf(e));
      var x := LowerToVar(s, e, Ast.TypeOf(e));
      DropVarLowers(s, x.s, x.x);
    }
  }

  lemma {:induction false} JustAdded(s: State, t: State, before: Frame, x: Var, ty: Ty)
    requires Added(s, t) == before + [(x, ty)]
    ensures IsAdded(s, t, x)
  {
    assert (before + [(x, ty)])[|before|] == (x, ty);
  }

  lemma {:induction false} BranchLowers(s: State, t: State, labels: set<Label>, tmps: set<nat>,
      b: Ast.Block) returns (r: Lowered)
    requires Valid(s) && Lowers(s, t, labels, tmps)
    ensures Valid(t) && r == LowerBlock(t, b) && r.v.Move? && r.s.frames == t.frames
    ensures Lowers(s, r.s, labels, tmps) && KeepsBlocks(t, r.s) && Added(s, r.s) == Added(s, t)
    decreases b, 2
  {
    hide Grows, FramesGrow, FramesValid, CodeValid;
    LowersValid(s, t, labels, tmps);
    BlockLowers(t, b);
    r := LowerBlock(t, b);
    LowersJoin(s, t, r.s, labels, tmps);
  }

  lemma {:induction false} EndBranchLowers(s: State, t: State, labels: set<Label>, tmps: set<nat>,
      place: Place, v: Value, l: Label)
    requires Lowers(s, t, labels, tmps)
    requires l in labels || HasBlock(t.blocks, l)
    ensures var u := EndBranch(t, place, v, l);
      Lowers(s, u, labels, tmps) && KeepsBlocks(t, u) && Added(s, u) == Added(s, t)
        && CurrentEnds(u) && u.frames == t.frames
  {
    hide Grows, FramesGrow, FramesValid, CodeValid;
    var store := Assign(place, place.ty, v);
    EmitLowers(s, t, labels, tmps, store);
    EmitLowers(s, Emit(t, store), labels, tmps, Jump(l));
  }

  lemma {:induction false} WhileLowers(s: State, e: Ast.Expr)
    requires Valid(s) && e.While?
    ensures var r := LowerWhile(s, e); Lowers(s, r.s, {}, {}) && ValueOk(s, r.s, r.v)
    ensures var l := FreshLabels(s);
      var head := LoopHead(l);
      var x := LowerToVar(head, e.condition, Bool);
      var body := LoopBody(x, l);
      && Added(s, LowerWhile(s, e).s) == Added(head, x.s) && Lowers(head, x.s, {}, {})
      && Valid(head) && head.frames == s.frames && Valid(body) && body.frames == x.s.frames
      && LowerWhile(s, e).s.frames == x.s.frames
    decreases e, 0
  {
    hide Lowers, Valid, Grows, FramesGrow, FramesValid, CodeValid, Added, HasBlock, CurrentEnds,
      LowerExpr, LowerBlock, LowerToVar;
    hide Emit, StartBlock, FreshLabels, IsAdded;
    LowersSelf(s);
    FreshLabelsLower(s, s, true);
    var l := FreshLabels(s);
    var labels := {l.cont, l.first, l.second};
    assert {l.cont, l.first} + {l.second} == labels;
    EmitLowers(s, l.s, labels, {}, Jump(l.first));
    StartBlockLowers(s, Emit(l.s, Jump(l.first)), labels, {}, l.first);
    var head := LoopHead(l);
    labels := labels - {l.first};
    LowersValid(s, head, labels, {});
    ToVarLowers(head, e.condition, Bool);
    var examinee := LowerToVar(head, e.condition, Bool);
    LowersJoin(s, head, examinee.s, labels, {});
    var i := Switch(examinee.x, [(1, l.second)], Some(l.cont));
    EmitLowers(s, examinee.s, labels, {}, i);
    StartBlockLowers(s, Emit(examinee.s, i), labels, {}, l.second);
    var body := LoopBody(examinee, l);
    labels := labels - {l.second};
    assert labels == {l.cont};
    var b := BranchLowers(s, body, labels, {}, e.body);
    EmitLowers(s, b.s, labels, {}, Jump(l.first));
    var s5 := Emit(b.s, Jump(l.first));
    StartBlockLowers(s, s5, labels, {}, l.cont);
    assert labels - {l.cont} == {};
    assert [] + Added(head, examinee.s) == Added(head, examinee.s);
  }

  /** A block leaves the frames as it found them; its result is a temporary
      that is in no frame any more. */
  lemma {:induction false} BlockLowers(s: State, b: Ast.Block)
    requires Valid(s)
    ensures var r := LowerBlock(s, b);
      Lowers(s, r.s, {}, {}) && Added(s, r.s) == [] && r.s.frames == s.frames && Valid(r.s)
        && r.v.Move? && r.v.source.Tmp?
    decreases b, 1
  {
    hide Grows, FramesGrow, FramesValid, CodeValid;
    LowersSelf(s);
    var p := PushFrame(s);
    PushValid(s);
    StmtsLower(p, b.stmts);
    var s1 := LowerStmts(p, b.stmts);
    var op := if b.last.Some? then LowerExpr(s1, b.last.value) else Lowered(s1, UNIT_VALUE);
    if b.last.Some? {
      ExprLowers(s1, b.last.value);
      AssignToVarLowers(s1, op.s, {}, {}, op.v, b.ty);
    } else {
      LowersSelf(s1);
      AssignToVarLowers(s1, op.s, {}, {}, op.v, b.ty);
    }
    var final := AssignToVar(op.s, op.v, b.ty);
    LowersJoin(p, s1, final.s, {}, {});
    var tx :| (final.x, tx) in Added(s1, final.s);
    assert (final.x, tx) in Added(p, final.s);
    RemoveLiveLowers(p, final.s, {}, {}, final.x, tx);
    PopLowers(s, s, RemoveLive(final.s, final.x), {}, {});
    LowersValid(s, LowerBlock(s, b).s, {}, {});
  }

  lemma {:induction false} LetLowers(s: State, t: State, x: Name, ty: Ty, v: Value)
    requires Valid(s) && Lowers(s, t, {}, {}) && ValueOk(s, t, v)
    ensures var u := DoAssign(AddLive(t, Explicit(x), ty), Place(Explicit(x), ty), ty, v);
      Lowers(s, u, {}, {}) && Added(s, u) == (if v.Move? then Without(Added(s, t), v.source) else Added(s, t))
        + [(Explicit(x), ty)]
  {
    hide Grows, FramesGrow, FramesValid, CodeValid;
    AddLiveLowers(s, t, {}, {}, Explicit(x), ty);
    var a := AddLive(t, Explicit(x), ty);
    if v.Move? {
      var tx :| (v.source, tx) in Added(s, t);
      assert (v.source, tx) in Added(s, a);
      WithoutAppend(Added(s, t), (Explicit(x), ty), v.source, tx);
    }
    DoAssignLowers(s, a, {}, {}, Place(Explicit(x), ty), ty, v);
  }

  lemma {:induction false} WithoutAppend(frame: Frame, e: (Var, Ty), x: Var, tx: Ty)
    requires (x, tx) in frame
    ensures Without(frame + [e], x) == Without(frame, x) + [e]
  {
    hide PositionOf;
    PositionAppend(frame, e, x, tx);
    SliceAppend(frame, e, PositionOf(frame, x));
  }

  lemma {:induction false} SliceAppend(frame: Frame, e: (Var, Ty), i: nat)
    requires i < |frame|
    ensures (frame + [e])[..i] + (frame + [e])[i + 1..] == frame[..i] + frame[i + 1..] + [e]
  {
    assert (frame + [e])[..i] == frame[..i];
    assert (frame + [e])[i + 1..] == frame[i + 1..] + [e];
  }

  lemma {:induction false} PositionAppend(frame: Frame, e: (Var, Ty), x: Var, tx: Ty)
    requires (x, tx) in frame
    ensures PositionOf(frame + [e], x) == PositionOf(frame, x) < |frame|
  {
    var i, j := PositionOf(frame, x), PositionOf(frame + [e], x);
    var k :| 0 <= k < |frame| && frame[k] == (x, tx);
    assert (frame + [e])[i].0 == x;
    assert j <= i && frame[j].0 == x;
  }

  lemma {:induction false} DropVarLowers(s: State, t: State, x: Var)
    requires Valid(s) && Lowers(s, t, {}, {}) && x.Tmp? && IsAdded(s, t, x)
    ensures Lowers(s, DropVar(t, x), {}, {}) && Added(s, DropVar(t, x)) == Without(Added(s, t), x)
    ensures (x, LiveType(t, x)) in Added(s, t)
  {
    hide Grows, FramesGrow, FramesValid, CodeValid;
    var tx :| (x, tx) in Added(s, t);
    RemoveLiveLowers(s, t, {}, {}, x, tx);
    EmitLowers(s, RemoveLive(t, x), {}, {}, Drop(Place(x, tx), tx));
  }

  lemma {:induction false} StmtsLower(s: State, stmts: seq<Ast.Stmt>)
    requires Valid(s)
    ensures var t := LowerStmts(s, stmts); Lowers(s, t, {}, {}) && Valid(t)
    decreases stmts, 1
  {
    hide Grows, FramesGrow, FramesValid, CodeValid;
    if stmts == [] {
      LowersSelf(s);
    } else {
      StmtLowers(s, stmts[0]);
      var t := LowerStmt(s, stmts[0]);
      StmtsLower(t, stmts[1..]);
      LowersJoin(s, t, LowerStmts(t, stmts[1..]), {}, {});
    }
  }

  lemma {:induction false} StmtLowers(s: State, stmt: Ast.Stmt)
    requires Valid(s)
    ensures var t := LowerStmt(s, stmt); Lowers(s, t, {}, {}) && Valid(t)
    decreases stmt, 1
  {
    hide Grows, FramesGrow, FramesValid, CodeValid;
    match stmt {
    case Let(x, ty, init) =>
      ExprLowers(s, init);
      var r := LowerExpr(s, init);
      LetLowers(s, r.s, x, ty, r.v);
    case ExprStmt(e) =>
      ToVarLowers(s, e, Ast.TypeOf(e));
      var x := LowerToVar(s, e, Ast.TypeOf(e));
      DropVarLowers(s, x.s, x.x);
    }
    LowersValid(s, LowerStmt(s, stmt), {}, {});
  }

}

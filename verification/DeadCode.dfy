/** Dead code elimination on the MIR (src/mir/dead_code.rs). */
module DeadCode {
  import opened Collections
  import opened Mir
  import opened Digraph

  // ---------------------------------------------------------- specification

  /** The labels a block may jump to: those of its first terminator. */
  function Exits(b: Block): seq<Label> {
    if HasTerminator(b.instructions) then Targets(b.instructions[FirstTerminator(b.instructions)]) else []
  }

  ghost function FlowGraph(blocks: seq<Block>): Graph<Label> {
    map l | l in Labels(blocks) :: ExitsOf(blocks, l)
  }

  function ExitsOf(blocks: seq<Block>, l: Label): set<Label> {
    var i := IndexOf(blocks, l);
    if i < |blocks| then (set t | t in Exits(blocks[i])) else {}
  }

  ghost predicate Reachable(blocks: seq<Block>, l: Label) {
    blocks != [] && Reaches(FlowGraph(blocks), blocks[0].lbl, l)
  }

  /** There is a block with this label and it has a terminator. */
  predicate Executable(blocks: seq<Block>, l: Label) {
    var i := IndexOf(blocks, l);
    i < |blocks| && HasTerminator(blocks[i].instructions)
  }

  /** What the pass needs in order not to panic. */
  ghost predicate Processable(blocks: seq<Block>) {
    blocks != [] && forall l :: Reachable(blocks, l) ==> Executable(blocks, l)
  }

  /** A block up to and including its first terminator. */
  function Truncated(b: Block): Block {
    if HasTerminator(b.instructions) then
      b.(instructions := b.instructions[..FirstTerminator(b.instructions) + 1])
    else
      b
  }

  /** The blocks whose label is kept, in order, truncated. */
  function Filtered(blocks: seq<Block>, keep: set<Label>): seq<Block> {
    if blocks == [] then []
    else if blocks[0].lbl in keep then [Truncated(blocks[0])] + Filtered(blocks[1..], keep)
    else Filtered(blocks[1..], keep)
  }

  ghost function ReachableLabels(blocks: seq<Block>): set<Label> {
    set l | l in Labels(blocks) && Reachable(blocks, l)
  }

  ghost function Pruned(blocks: seq<Block>): seq<Block> {
    Filtered(blocks, ReachableLabels(blocks))
  }

  // -------------------------------------------------------------- algorithm

  class Item {
    var blocks: seq<Block>

    constructor (blocks: seq<Block>)
      ensures this.blocks == blocks
    {
      this.blocks := blocks;
    }

    method Retain(state: State)
      modifies this
      ensures blocks == Retained(old(blocks), Listed(state.labels))
    {
      var kept := [];
      for k := 0 to |blocks|
        invariant blocks == old(blocks)
        invariant kept + Retained(blocks[k..], Listed(state.labels)) == Retained(blocks, Listed(state.labels))
      {
        assert blocks[k..][1..] == blocks[k + 1..];
        if blocks[k].lbl in state.labels {
          kept := kept + [blocks[k]];
        }
      }
      blocks := kept;
    }
  }

  /** The worklist: a list of labels without duplicates. */
  class State {
    var labels: seq<Label>

    constructor ()
      ensures labels == []
    {
      labels := [];
    }

    method Add(l: Label)
      modifies this
      ensures labels == if l in old(labels) then old(labels) else old(labels) + [l]
    {
      if l !in labels {
        labels := labels + [l];
      }
    }
  }

  /** Adds the exits of a block to the worklist and truncates the block; false
      if the block has no terminator. */
  method ProcessBlock(state: State, b: Block) returns (ok: bool, result: Block)
    requires NoDuplicates(state.labels)
    modifies state
    ensures ok <==> HasTerminator(b.instructions)
    ensures ok ==> result == Truncated(b)
    ensures ok ==> NoDuplicates(state.labels) && old(state.labels) <= state.labels
    ensures ok ==> forall l :: l in state.labels <==> l in old(state.labels) || l in Exits(b)
  {
    for i := 0 to |b.instructions|
      invariant forall k :: 0 <= k < i ==> !IsTerminator(b.instructions[k])
      invariant state.labels == old(state.labels)
    {
      var inst := b.instructions[i];
      if IsTerminator(inst) {
        assert FirstTerminator(b.instructions) == i;
        var targets := Targets(inst);
        for k := 0 to |targets|
          invariant NoDuplicates(state.labels) && old(state.labels) <= state.labels
          invariant forall l :: l in state.labels <==> l in old(state.labels) || l in targets[..k]
        {
          assert targets[..k + 1] == targets[..k] + [targets[k]];
          state.Add(targets[k]);
        }
        assert targets[..|targets|] == targets;
        return true, b.(instructions := b.instructions[..i + 1]);
      }
    }
    return false, b;
  }

  /** The blocks after those with a label in done have been truncated. */
  function TruncatedAt(blocks: seq<Block>, done: set<Label>): (r: seq<Block>)
    ensures |r| == |blocks|
    ensures forall i :: 0 <= i < |blocks| ==> r[i] == if blocks[i].lbl in done then Truncated(blocks[i]) else blocks[i]
  {
    seq(|blocks|, i requires 0 <= i < |blocks| => if blocks[i].lbl in done then Truncated(blocks[i]) else blocks[i])
  }

  ghost function Listed(labels: seq<Label>): set<Label> {
    set l | l in labels
  }

  /** The labels in the worklist are reachable; what has been processed is
      executable and its exits are in the worklist. */
  ghost predicate WorklistValid(blocks: seq<Block>, labels: seq<Label>, i: nat) {
    && blocks != [] && i <= |labels|
    && NoDuplicates(labels)
    && blocks[0].lbl in labels
    && (forall l :: l in labels ==> Reachable(blocks, l))
    && (forall l, t :: l in labels[..i] && t in ExitsOf(blocks, l) ==> t in labels)
    && (forall l :: l in labels[..i] ==> Executable(blocks, l))
  }

  function Retained(blocks: seq<Block>, keep: set<Label>): seq<Block> {
    if blocks == [] then []
    else if blocks[0].lbl in keep then [blocks[0]] + Retained(blocks[1..], keep)
    else Retained(blocks[1..], keep)
  }

  lemma {:induction false} RetainTruncated(blocks: seq<Block>, keep: set<Label>)
    ensures Retained(TruncatedAt(blocks, keep), keep) == Filtered(blocks, keep)
  {
    if blocks != [] {
      RetainTruncated(blocks[1..], keep);
      assert TruncatedAt(blocks, keep)[1..] == TruncatedAt(blocks[1..], keep);
    }
  }

  method ProcessItem(item: Item) returns (ok: bool)
    requires DistinctLabels(item.blocks)
    modifies item
    ensures ok <==> Processable(old(item.blocks))
    ensures ok ==> item.blocks == Pruned(old(item.blocks))
  {
    hide PassInvariant, Pruned, Retained, Listed, HasTerminator, Truncated;
    if item.blocks == [] {
      return false;
    }
    ghost var blocks := item.blocks;
    var state := new State();
    state.Add(item.blocks[0].lbl);
    PassStarts(blocks, state.labels);
    var i := 0;
    while i < |state.labels|
      invariant i <= |state.labels| && PassInvariant(blocks, item.blocks, state.labels, i)
      decreases |Vertices(FlowGraph(blocks))| - i
    {
      ghost var before := state.labels;
      var j := IndexOf(item.blocks, state.labels[i]);
      PassLooksUp(blocks, item.blocks, before, i, j);
      if j == |item.blocks| {
        return false;
      }
      var found, block := ProcessBlock(state, item.blocks[j]);
      if !found {
        return false;
      }
      PassContinues(blocks, item.blocks, before, state.labels, i, j);
      item.blocks := item.blocks[j := block];
      i := i + 1;
    }
    PassEnds(blocks, item.blocks, state.labels, i);
    item.Retain(state);
    return true;
  }

  ghost predicate PassInvariant(blocks: seq<Block>, current: seq<Block>, labels: seq<Label>, i: nat) {
    WorklistValid(blocks, labels, i) && current == TruncatedAt(blocks, Listed(labels[..i]))
  }

  lemma {:induction false} PassStarts(blocks: seq<Block>, labels: seq<Label>)
    requires blocks != [] && labels == [blocks[0].lbl]
    ensures PassInvariant(blocks, blocks, labels, 0)
  {
    ReachesSelf(FlowGraph(blocks), blocks[0].lbl);
  }

  lemma {:induction false} PassLooksUp(blocks: seq<Block>, current: seq<Block>, labels: seq<Label>, i: nat, j: nat)
    requires DistinctLabels(blocks) && PassInvariant(blocks, current, labels, i)
    requires i < |labels| && j == IndexOf(current, labels[i])
    ensures |current| == |blocks| && NoDuplicates(labels) && i < |Vertices(FlowGraph(blocks))|
    ensures if j < |blocks| then current[j] == blocks[j] else !Processable(blocks)
    ensures j < |blocks| && !HasTerminator(blocks[j].instructions) ==> !Processable(blocks)
  {
    WorklistBounded(blocks, labels);
    SameIndex(blocks, current, labels[i]);
    assert labels[i] in labels;
    if j < |blocks| {
      TruncateStep(blocks, labels, i, j);
    }
  }

  lemma {:induction false} PassContinues(blocks: seq<Block>, current: seq<Block>, before: seq<Label>,
      after: seq<Label>, i: nat, j: nat)
    requires DistinctLabels(blocks) && PassInvariant(blocks, current, before, i)
    requires i < |before| && j == IndexOf(current, before[i]) < |blocks| && HasTerminator(blocks[j].instructions)
    requires before <= after && NoDuplicates(after)
    requires forall l :: l in after <==> l in before || l in Exits(blocks[j])
    ensures PassInvariant(blocks, current[j := Truncated(blocks[j])], after, i + 1)
  {
    SameIndex(blocks, current, before[i]);
    WorklistStep(blocks, before, after, i);
    TruncateStep(blocks, before, i, j);
  }

  lemma {:induction false} PassEnds(blocks: seq<Block>, current: seq<Block>, labels: seq<Label>, i: nat)
    requires PassInvariant(blocks, current, labels, i) && i == |labels|
    ensures Processable(blocks) && Retained(current, Listed(labels)) == Pruned(blocks)
  {
    assert labels[..i] == labels;
    WorklistIsReachable(blocks, labels);
    RetainTruncated(blocks, Listed(labels));
    FilterAgrees(blocks, Listed(labels), ReachableLabels(blocks));
  }

  lemma {:induction false} SameIndex(blocks: seq<Block>, others: seq<Block>, l: Label)
    requires |blocks| == |others| && forall i :: 0 <= i < |blocks| ==> blocks[i].lbl == others[i].lbl
    ensures IndexOf(blocks, l) == IndexOf(others, l)
  {
  }

  lemma {:induction false} IndexOfDistinct(blocks: seq<Block>, i: nat)
    requires DistinctLabels(blocks) && i < |blocks|
    ensures IndexOf(blocks, blocks[i].lbl) == i
  {
  }

  /** The block of the next label is untouched; truncating it, and no other,
      is what that label adds. */
  lemma {:induction false} TruncateStep(blocks: seq<Block>, labels: seq<Label>, i: nat, j: nat)
    requires DistinctLabels(blocks) && NoDuplicates(labels)
    requires i < |labels| && j < |blocks| && blocks[j].lbl == labels[i]
    ensures TruncatedAt(blocks, Listed(labels[..i]))[j] == blocks[j]
    ensures TruncatedAt(blocks, Listed(labels[..i]))[j := Truncated(blocks[j])] ==
      TruncatedAt(blocks, Listed(labels[..i + 1]))
  {
    assert labels[..i + 1] == labels[..i] + [labels[i]];
    assert Listed(labels[..i + 1]) == Listed(labels[..i]) + {labels[i]};
    assert labels[i] !in labels[..i];
  }

  lemma {:induction false} DuplicateFreeIsBounded(labels: seq<Label>, s: set<Label>)
    requires NoDuplicates(labels) && forall l :: l in labels ==> l in s
    ensures |labels| <= |s|
  {
    if labels != [] {
      DuplicateFreeIsBounded(labels[1..], s - {labels[0]});
    }
  }

  lemma {:induction false} ReachableIsVertex(blocks: seq<Block>, l: Label)
    requires Reachable(blocks, l)
    ensures l in Vertices(FlowGraph(blocks))
  {
    var g := FlowGraph(blocks);
    assert blocks[0].lbl in Labels(blocks);
    ClosedReaches(g, Vertices(g), blocks[0].lbl, l);
  }

  lemma {:induction false} WorklistBounded(blocks: seq<Block>, labels: seq<Label>)
    requires blocks != [] && NoDuplicates(labels) && forall l :: l in labels ==> Reachable(blocks, l)
    ensures |labels| <= |Vertices(FlowGraph(blocks))|
  {
    forall l | l in labels ensures l in Vertices(FlowGraph(blocks)) {
      ReachableIsVertex(blocks, l);
    }
    DuplicateFreeIsBounded(labels, Vertices(FlowGraph(blocks)));
  }

  lemma {:induction false} WorklistStep(blocks: seq<Block>, before: seq<Label>, after: seq<Label>, i: nat)
    requires WorklistValid(blocks, before, i) && i < |before|
    requires Executable(blocks, before[i])
    requires before <= after && NoDuplicates(after)
    requires forall l :: l in after <==> l in before || l in ExitsOf(blocks, before[i])
    ensures WorklistValid(blocks, after, i + 1) && after[..i + 1] == before[..i + 1]
  {
    var g := FlowGraph(blocks);
    assert after[..i + 1] == before[..i] + [before[i]];
    forall l | l in after
      ensures Reachable(blocks, l)
    {
      if l !in before {
        assert before[i] in before && l in Successors(g, before[i]);
        ReachesStep(g, before[i], l);
        ReachesJoin(g, blocks[0].lbl, before[i], l);
      }
    }
  }

  /** A finished worklist holds exactly the reachable labels. */
  lemma {:induction false} WorklistIsReachable(blocks: seq<Block>, labels: seq<Label>)
    requires WorklistValid(blocks, labels, |labels|)
    ensures forall l :: l in labels <==> Reachable(blocks, l)
    ensures Processable(blocks)
  {
    assert labels[..|labels|] == labels;
    var g := FlowGraph(blocks);
    forall l | Reachable(blocks, l)
      ensures l in labels
    {
      assert Closed(g, Listed(labels));
      ClosedReaches(g, Listed(labels), blocks[0].lbl, l);
    }
  }

  lemma {:induction false} FilterAgrees(blocks: seq<Block>, keep: set<Label>, other: set<Label>)
    requires forall i :: 0 <= i < |blocks| ==> (blocks[i].lbl in keep <==> blocks[i].lbl in other)
    ensures Filtered(blocks, keep) == Filtered(blocks, other)
  {
    if blocks != [] {
      FilterAgrees(blocks[1..], keep, other);
    }
  }

  // ------------------------------------------------------------ consequences

  lemma {:induction false} FilteredMember(blocks: seq<Block>, keep: set<Label>, b: Block)
    requires b in Filtered(blocks, keep)
    ensures exists i :: 0 <= i < |blocks| && blocks[i].lbl in keep && b == Truncated(blocks[i])
  {
    if blocks[0].lbl in keep && b == Truncated(blocks[0]) {
    } else {
      FilteredMember(blocks[1..], keep, b);
      var i :| 0 <= i < |blocks[1..]| && blocks[1..][i].lbl in keep && b == Truncated(blocks[1..][i]);
      assert blocks[i + 1] == blocks[1..][i];
    }
  }

  /** A kept block is found under its label, truncated. */
  lemma {:induction false} FilteredLookup(blocks: seq<Block>, keep: set<Label>, l: Label)
    requires l in keep
    ensures var i, j := IndexOf(blocks, l), IndexOf(Filtered(blocks, keep), l);
      if i < |blocks| then j < |Filtered(blocks, keep)| && Filtered(blocks, keep)[j] == Truncated(blocks[i])
      else j == |Filtered(blocks, keep)|
  {
    hide Truncated, Filtered, IndexOf;
    FilteredUnfold(blocks, keep);
    if blocks == [] {
      IndexUnfold(blocks, l);
    } else {
      var rest := Filtered(blocks[1..], keep);
      FilteredLookup(blocks[1..], keep, l);
      IndexUnfold(blocks, l);
      if blocks[0].lbl in keep {
        assert Filtered(blocks, keep)[1..] == rest;
        IndexUnfold(Filtered(blocks, keep), l);
      }
    }
  }

  lemma {:induction false} FilteredUnfold(blocks: seq<Block>, keep: set<Label>)
    ensures Filtered(blocks, keep) ==
      if blocks == [] then []
      else if blocks[0].lbl in keep then [Truncated(blocks[0])] + Filtered(blocks[1..], keep)
      else Filtered(blocks[1..], keep)
    ensures blocks != [] ==> Truncated(blocks[0]).lbl == blocks[0].lbl
  {
  }

  lemma {:induction false} IndexUnfold(blocks: seq<Block>, l: Label)
    ensures IndexOf(blocks, l) == if blocks == [] || blocks[0].lbl == l then 0 else IndexOf(blocks[1..], l) + 1
  {
  }

  lemma {:induction false} FilteredDistinct(blocks: seq<Block>, keep: set<Label>)
    requires DistinctLabels(blocks)
    ensures DistinctLabels(Filtered(blocks, keep))
  {
    if blocks != [] {
      var rest := blocks[1..];
      assert forall i :: 0 <= i < |rest| ==> rest[i] == blocks[i + 1];
      FilteredDistinct(rest, keep);
      forall b | b in Filtered(rest, keep)
        ensures b.lbl != blocks[0].lbl
      {
        FilteredMember(rest, keep, b);
      }
      var all, tail := Filtered(blocks, keep), Filtered(rest, keep);
      if blocks[0].lbl in keep {
        assert forall i :: 1 <= i < |all| ==> all[i] == tail[i - 1] && all[i] in tail;
      }
    }
  }

  /** A block that ends at its only terminator. */
  predicate EndsAtTerminator(b: Block) {
    && b.instructions != []
    && (forall i :: 0 <= i < |b.instructions| ==> (IsTerminator(b.instructions[i]) <==> i == |b.instructions| - 1))
  }

  lemma {:induction false} TruncatedEnds(b: Block)
    requires HasTerminator(b.instructions)
    ensures EndsAtTerminator(Truncated(b)) && Exits(Truncated(b)) == Exits(b)
    ensures FirstTerminator(Truncated(b).instructions) == FirstTerminator(b.instructions)
    ensures Truncated(Truncated(b)) == Truncated(b)
  {
    var t := Truncated(b).instructions;
    var i := FirstTerminator(b.instructions);
    assert IsTerminator(t[i]);
    assert FirstTerminator(t) == i;
    assert t[..i + 1] == t;
  }

  lemma {:induction false} EntryStays(blocks: seq<Block>)
    requires Processable(blocks)
    ensures Pruned(blocks) != [] && Pruned(blocks)[0].lbl == blocks[0].lbl
  {
    ReachesSelf(FlowGraph(blocks), blocks[0].lbl);
    assert blocks[0].lbl in ReachableLabels(blocks);
  }

  /** The kept blocks are the reachable ones. */
  lemma {:induction false} KeepsExactlyReachable(blocks: seq<Block>, l: Label)
    requires Processable(blocks)
    ensures l in Labels(Pruned(blocks)) <==> Reachable(blocks, l)
    ensures Reachable(blocks, l) ==>
      IndexOf(Pruned(blocks), l) < |Pruned(blocks)| &&
      Pruned(blocks)[IndexOf(Pruned(blocks), l)] == Truncated(blocks[IndexOf(blocks, l)])
  {
    var keep := ReachableLabels(blocks);
    var p := Pruned(blocks);
    if Reachable(blocks, l) {
      assert Executable(blocks, l);
      FilteredLookup(blocks, keep, l);
      assert p[IndexOf(p, l)].lbl == l;
    }
    if l in Labels(p) {
      var j :| 0 <= j < |p| && p[j].lbl == l;
      FilteredMember(blocks, keep, p[j]);
    }
  }

  /** Each kept block ends at its only terminator and only names kept blocks. */
  lemma {:induction false} PrunedIsClean(blocks: seq<Block>, b: Block)
    requires Processable(blocks) && DistinctLabels(blocks) && b in Pruned(blocks)
    ensures EndsAtTerminator(b)
    ensures forall t :: t in Exits(b) ==> t in Labels(Pruned(blocks))
  {
    FilteredMember(blocks, ReachableLabels(blocks), b);
    var i :| 0 <= i < |blocks| && blocks[i].lbl in ReachableLabels(blocks) && b == Truncated(blocks[i]);
    IndexOfDistinct(blocks, i);
    assert Executable(blocks, blocks[i].lbl);
    TruncatedEnds(blocks[i]);
    forall t | t in Exits(b)
      ensures t in Labels(Pruned(blocks))
    {
      ExitIsReachable(blocks, blocks[i].lbl, t);
      KeepsExactlyReachable(blocks, t);
    }
  }

  lemma {:induction false} ExitIsReachable(blocks: seq<Block>, l: Label, t: Label)
    requires Reachable(blocks, l) && Executable(blocks, l) && t in ExitsOf(blocks, l)
    ensures Reachable(blocks, t)
  {
    var g := FlowGraph(blocks);
    assert t in Successors(g, l);
    ReachesStep(g, l, t);
    ReachesJoin(g, blocks[0].lbl, l, t);
  }

  // ------------------------------------------------------------ preservation

  /** A configuration of a run from the entry: in a reachable block, no further
      than its first terminator. */
  ghost predicate OnTrack(blocks: seq<Block>, c: Config) {
    c.Running? ==>
      && Reachable(blocks, c.lbl)
      && Executable(blocks, c.lbl)
      && c.pc <= FirstTerminator(blocks[IndexOf(blocks, c.lbl)].instructions)
  }

  lemma {:induction false} ChosenIsListed(key: nat, branches: seq<(nat, Label)>, default: Option<Label>)
    ensures var t := Choose(key, branches, default);
      t.Some? ==> default == t || exists i :: 0 <= i < |branches| && branches[i].1 == t.value
  {
    if branches != [] && branches[0].0 != key {
      ChosenIsListed(key, branches[1..], default);
      var t := Choose(key, branches[1..], default);
      if t.Some? && default != t {
        var i :| 0 <= i < |branches[1..]| && branches[1..][i].1 == t.value;
        assert branches[i + 1] == branches[1..][i];
      }
    }
  }

  lemma {:induction false} ExecuteStays(m: Machine, i: Instruction, c: Config)
    requires c.Running?
    ensures var d := Execute(m, i, c);
      d.Running? ==> if IsTerminator(i) then d.pc == 0 && d.lbl in Targets(i) else d.lbl == c.lbl && d.pc == c.pc + 1
  {
    if i.Switch? && i.examinee in c.store {
      var key := SwitchKey(c.store[i.examinee]);
      ChosenIsListed(key, i.branches, i.default);
      var t := Choose(key, i.branches, i.default);
      if t.Some? {
        var n := |i.branches|;
        if i.default == t {
          assert Targets(i)[n] == t.value;
        } else {
          var k :| 0 <= k < n && i.branches[k].1 == t.value;
          assert Targets(i)[k] == t.value;
        }
      }
    }
  }

  /** One step of the original is the same step of the pruned blocks. */
  lemma {:induction false} StepPreserved(m: Machine, blocks: seq<Block>, c: Config)
    requires Processable(blocks) && OnTrack(blocks, c)
    ensures Step(m, Pruned(blocks), c) == Step(m, blocks, c)
    ensures OnTrack(blocks, Step(m, blocks, c))
  {
    if c.Running? {
      var p := Pruned(blocks);
      KeepsExactlyReachable(blocks, c.lbl);
      var b := blocks[IndexOf(blocks, c.lbl)];
      var t := FirstTerminator(b.instructions);
      assert p[IndexOf(p, c.lbl)].instructions == b.instructions[..t + 1];
      ExecuteStays(m, b.instructions[c.pc], c);
      var d := Execute(m, b.instructions[c.pc], c);
      if d.Running? && IsTerminator(b.instructions[c.pc]) {
        assert c.pc == t;
        ExitIsReachable(blocks, c.lbl, d.lbl);
      }
    }
  }

  lemma {:induction false} RunPreserved(m: Machine, blocks: seq<Block>, c: Config, n: nat)
    requires Processable(blocks) && OnTrack(blocks, c)
    ensures Run(m, Pruned(blocks), c, n) == Run(m, blocks, c, n)
    decreases n
  {
    if n > 0 {
      StepPreserved(m, blocks, c);
      RunPreserved(m, blocks, Step(m, blocks, c), n - 1);
    }
  }

  /** From the entry every run, of any length and in any store, is the same
      before and after the pass. */
  lemma {:induction false} EveryRunPreserved(m: Machine, blocks: seq<Block>, store: Store, lost: bool, n: nat)
    requires Processable(blocks)
    ensures var start := Running(blocks[0].lbl, 0, store, lost);
      Run(m, Pruned(blocks), start, n) == Run(m, blocks, start, n)
  {
    ReachesSelf(FlowGraph(blocks), blocks[0].lbl);
    assert Executable(blocks, blocks[0].lbl);
    RunPreserved(m, blocks, Running(blocks[0].lbl, 0, store, lost), n);
  }

  // ------------------------------------------------------------- second pass

  lemma {:induction false} PrunedFlow(blocks: seq<Block>, l: Label)
    requires Processable(blocks) && Reachable(blocks, l)
    ensures ExitsOf(Pruned(blocks), l) == ExitsOf(blocks, l) && Executable(Pruned(blocks), l)
  {
    KeepsExactlyReachable(blocks, l);
    assert Executable(blocks, l);
    TruncatedEnds(blocks[IndexOf(blocks, l)]);
    var p := Pruned(blocks);
    var t := p[IndexOf(p, l)];
    assert IsTerminator(t.instructions[|t.instructions| - 1]);
  }

  /** After the pass every remaining block is reachable. */
  lemma {:induction false} PrunedAllReachable(blocks: seq<Block>)
    requires Processable(blocks)
    ensures forall l :: Reachable(Pruned(blocks), l) <==> Reachable(blocks, l)
  {
    hide Pruned, Reaches, Executable, Vertices, Labels;
    var p := Pruned(blocks);
    var g, h := FlowGraph(blocks), FlowGraph(p);
    EntryStays(blocks);
    var reachable := set l | l in Vertices(g) && Reachable(blocks, l);
    var reached := set l | l in Vertices(h) && Reachable(p, l);
    var entry := blocks[0].lbl;
    forall l ensures Reachable(p, l) <==> Reachable(blocks, l) {
      ReachesSelf(g, entry);
      ReachesSelf(h, entry);
      ReachableIsVertex(blocks, entry);
      ReachableIsVertex(p, entry);
      if Reachable(p, l) {
        forall u, w | u in reachable && w in Successors(h, u) ensures w in reachable {
          PrunedFlow(blocks, u);
          ExitIsReachable(blocks, u, w);
          ReachableIsVertex(blocks, w);
        }
        ClosedReaches(h, reachable, entry, l);
      }
      if Reachable(blocks, l) {
        forall u, w | u in reached * reachable && w in Successors(g, u) ensures w in reached * reachable {
          PrunedFlow(blocks, u);
          ExitIsReachable(blocks, u, w);
          ExitIsReachable(p, u, w);
          ReachableIsVertex(blocks, w);
          ReachableIsVertex(p, w);
        }
        ClosedReaches(g, reached * reachable, entry, l);
      }
    }
  }

  lemma {:induction false} FilterAll(blocks: seq<Block>, keep: set<Label>)
    requires forall i :: 0 <= i < |blocks| ==> blocks[i].lbl in keep && Truncated(blocks[i]) == blocks[i]
    ensures Filtered(blocks, keep) == blocks
  {
    if blocks != [] {
      FilterAll(blocks[1..], keep);
    }
  }

  /** A second pass changes nothing, and does not panic. */
  lemma {:induction false} SecondPassIsIdle(blocks: seq<Block>)
    requires Processable(blocks) && DistinctLabels(blocks)
    ensures Processable(Pruned(blocks)) && Pruned(Pruned(blocks)) == Pruned(blocks)
  {
    var p := Pruned(blocks);
    PrunedAllReachable(blocks);
    EntryStays(blocks);
    forall l | Reachable(p, l) ensures Executable(p, l) {
      PrunedFlow(blocks, l);
    }
    forall i | 0 <= i < |p|
      ensures p[i].lbl in ReachableLabels(p) && Truncated(p[i]) == p[i]
    {
      assert p[i].lbl in Labels(p);
      KeepsExactlyReachable(blocks, p[i].lbl);
      PrunedIsClean(blocks, p[i]);
      assert IsTerminator(p[i].instructions[|p[i].instructions| - 1]);
      assert FirstTerminator(p[i].instructions) == |p[i].instructions| - 1;
      assert p[i].instructions[..|p[i].instructions|] == p[i].instructions;
    }
    FilterAll(p, ReachableLabels(p));
  }
}

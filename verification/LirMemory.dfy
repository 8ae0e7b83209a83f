/** The checked memory of the LIR evaluator (src/lir/eval.rs). */
module LirMemory {
  import opened Collections
  import Layouts

  type Bytes = seq<bv8>

  datatype Pointer = Pointer(stackIndex: nat, stackId: nat, allocationIndex: nat, offset: nat)

  datatype Frame = Frame(id: nat, returnAddress: nat, allocations: seq<Bytes>)

  datatype State = State(idCounter: nat, stack: seq<Frame>, pointers: seq<Pointer>)

  const INITIAL := State(1, [Frame(0, 0, [])], [])

  // -------------------------------------------------------------- operations

  function Push(s: State, returnAddress: nat): State {
    s.(idCounter := s.idCounter + 1, stack := s.stack + [Frame(s.idCounter, returnAddress, [])])
  }

  /** The root frame is kept. */
  function Pop(s: State): State {
    if |s.stack| <= 1 then s else s.(stack := s.stack[..|s.stack| - 1])
  }

  function Zeros(n: nat): Bytes {
    seq(n, i => 0)
  }

  function Allocate(s: State, bytes: nat): State
    requires s.stack != []
  {
    var k := |s.stack| - 1;
    var top := s.stack[k];
    s.(stack := s.stack[k := top.(allocations := top.allocations + [Zeros(bytes)])],
       pointers := s.pointers + [Pointer(k, top.id, |top.allocations|, 0)])
  }

  function Offset(s: State, p: nat, distance: nat): State
    requires p < |s.pointers|
  {
    s.(pointers := s.pointers + [s.pointers[p].(offset := s.pointers[p].offset + distance)])
  }

  /** The frame at the recorded index is still the one with the recorded id. */
  predicate FrameCheck(s: State, p: Pointer) {
    p.stackIndex < |s.stack| && s.stack[p.stackIndex].id == p.stackId
  }

  /** is_multiple_of: of the multiples of 0 there is only 0. */
  predicate IsMultipleOf(n: nat, k: nat) {
    if k == 0 then n == 0 else n % k == 0
  }

  /** The condition under which neither read nor write panics. */
  predicate Accessible(s: State, p: Pointer, size: nat) {
    && FrameCheck(s, p)
    && var allocations := s.stack[p.stackIndex].allocations;
    && p.allocationIndex < |allocations|
    && p.offset + size <= |allocations[p.allocationIndex]|
    && IsMultipleOf(p.offset, size)
  }

  function ReadSlice(s: State, p: nat, size: nat): Option<Bytes>
    requires p < |s.pointers|
  {
    var q := s.pointers[p];
    if Accessible(s, q, size) then
      Some(s.stack[q.stackIndex].allocations[q.allocationIndex][q.offset..q.offset + size]) else None
  }

  function Overwritten(bytes: Bytes, at: nat, val: Bytes): Bytes
    requires at + |val| <= |bytes|
  {
    bytes[..at] + val + bytes[at + |val|..]
  }

  /** None stands for a panic. */
  function Write(s: State, p: nat, val: Bytes): Option<State>
    requires p < |s.pointers|
  {
    var q := s.pointers[p];
    if !Accessible(s, q, |val|) then None else
      var frame := s.stack[q.stackIndex];
      var bytes := Overwritten(frame.allocations[q.allocationIndex], q.offset, val);
      Some(s.(stack := s.stack[q.stackIndex := frame.(allocations := frame.allocations[q.allocationIndex := bytes])]))
  }

  function Copy(s: State, to: nat, from: nat, size: nat): Option<State>
    requires to < |s.pointers| && from < |s.pointers|
  {
    var data := ReadSlice(s, from, size);
    if data.None? then None else Write(s, to, data.value)
  }

  // -------------------------------------------------------------- every run

  datatype Op = PushOp(returnAddress: nat) | PopOp | AllocateOp(bytes: nat) | OffsetOp(p: nat,
    distance: nat) | WriteOp(to: nat, val: Bytes)

  /** The operation does not panic. */
  predicate CanDo(s: State, op: Op) {
    match op
    case AllocateOp(_) => s.stack != []
    case OffsetOp(p, _) => p < |s.pointers|
    case WriteOp(p, val) => p < |s.pointers| && Write(s, p, val).Some?
    case _ => true
  }

  function Do(s: State, op: Op): State
    requires CanDo(s, op)
  {
    match op
    case PushOp(returnAddress) => Push(s, returnAddress)
    case PopOp => Pop(s)
    case AllocateOp(bytes) => Allocate(s, bytes)
    case OffsetOp(p, distance) => Offset(s, p, distance)
    case WriteOp(p, val) => Write(s, p, val).value
  }

  ghost predicate Steps(s: State, t: State) {
    exists op :: CanDo(s, op) && t == Do(s, op)
  }

  ghost predicate IsRun(trace: seq<State>) {
    trace != [] && trace[0] == INITIAL && forall i :: 0 <= i < |trace| - 1 ==> Steps(trace[i], trace[i + 1])
  }

  /** Ids are never used twice, and a pointer whose frame is still there points
      at an allocation of that frame. */
  ghost predicate Invariant(s: State) {
    && s.stack != [] && s.stack[0].id == 0
    && (forall i :: 0 <= i < |s.stack| ==> s.stack[i].id < s.idCounter)
    && (forall i, j :: 0 <= i < j < |s.stack| ==> s.stack[i].id < s.stack[j].id)
    && (forall p :: p in s.pointers ==> PointerOk(s, p))
  }

  predicate PointerOk(s: State, p: Pointer) {
    && p.stackId < s.idCounter
    && (FrameCheck(s, p) ==> p.allocationIndex < |s.stack[p.stackIndex].allocations|)
  }

  lemma {:induction false} StepKeepsInvariant(s: State, op: Op)
    requires Invariant(s) && CanDo(s, op)
    ensures Invariant(Do(s, op)) && s.pointers <= Do(s, op).pointers
  {
    var t := Do(s, op);
    forall p | p in t.pointers
      ensures PointerOk(t, p)
    {
      if p in s.pointers {
        assert PointerOk(s, p);
      } else if op.OffsetOp? {
        assert s.pointers[op.p] in s.pointers;
      }
    }
  }

  lemma {:induction false} RunKeepsInvariant(trace: seq<State>, i: nat)
    requires IsRun(trace) && i < |trace|
    ensures Invariant(trace[i])
    decreases i
  {
    if i > 0 {
      RunKeepsInvariant(trace, i - 1);
      assert Steps(trace[i - 1], trace[i]);
      var op :| CanDo(trace[i - 1], op) && trace[i] == Do(trace[i - 1], op);
      StepKeepsInvariant(trace[i - 1], op);
    }
  }

  lemma {:induction false} PointersStay(trace: seq<State>, i: nat, j: nat)
    requires IsRun(trace) && i <= j < |trace|
    ensures trace[i].pointers <= trace[j].pointers
    decreases j
  {
    if i < j {
      PointersStay(trace, i, j - 1);
      RunKeepsInvariant(trace, j - 1);
      assert Steps(trace[j - 1], trace[j]);
      var op :| CanDo(trace[j - 1], op) && trace[j] == Do(trace[j - 1], op);
      StepKeepsInvariant(trace[j - 1], op);
    }
  }

  /** One step keeps a frame as long as the stack stays deep enough, and never
      brings one back. */
  lemma {:induction false} StepAndFrame(s: State, t: State, p: Pointer)
    requires Invariant(s) && Steps(s, t) && p.stackId < s.idCounter
    ensures FrameCheck(t, p) <==> FrameCheck(s, p) && p.stackIndex < |t.stack|
    ensures p.stackId < t.idCounter
  {
  }

  /** The stack has never been shallower than a depth. */
  ghost predicate StayedDeep(trace: seq<State>, from: nat, to: nat, depth: nat) {
    forall v :: from <= v <= to && v < |trace| ==> depth <= |trace[v].stack|
  }

  /** A pointer passes the frame check exactly as long as the frame it was made
      in has not been popped, even when another frame has taken its index. */
  lemma {:induction false} FrameCheckIsExact(trace: seq<State>, made: nat, bytes: nat, now: nat)
    requires IsRun(trace) && made < now < |trace|
    requires trace[made].stack != [] && trace[made + 1] == Allocate(trace[made], bytes)
    ensures |trace[made].pointers| < |trace[now].pointers|
    ensures FrameCheck(trace[now], trace[now].pointers[|trace[made].pointers|]) <==>
      StayedDeep(trace, made, now, |trace[made].stack|)
    decreases now
  {
    var k := |trace[made].pointers|;
    PointersStay(trace, made + 1, now);
    var p := trace[made + 1].pointers[k];
    assert trace[now].pointers[k] == p;
    RunKeepsInvariant(trace, made);
    FrameCheckFollows(trace, made, p, now);
  }

  lemma {:induction false} FrameCheckFollows(trace: seq<State>, made: nat, p: Pointer, now: nat)
    requires IsRun(trace) && made < now < |trace| && Invariant(trace[made])
    requires p.stackIndex == |trace[made].stack| - 1 && |trace[made + 1].stack| == |trace[made].stack|
    requires FrameCheck(trace[made + 1], p) && p.stackId < trace[made + 1].idCounter
    ensures FrameCheck(trace[now], p) <==> StayedDeep(trace, made, now, |trace[made].stack|)
    ensures p.stackId < trace[now].idCounter
    decreases now
  {
    hide Invariant, Steps;
    if now > made + 1 {
      FrameCheckFollows(trace, made, p, now - 1);
      RunKeepsInvariant(trace, now - 1);
      assert Steps(trace[now - 1], trace[now]);
      StepAndFrame(trace[now - 1], trace[now], p);
    }
  }

  /** A pointer derived from another one lives and dies with it. */
  lemma {:induction false} OffsetSharesFrame(trace: seq<State>, made: nat, p: nat, distance: nat, now: nat)
    requires IsRun(trace) && made < now < |trace|
    requires p < |trace[made].pointers| && trace[made + 1] == Offset(trace[made], p, distance)
    ensures var q := |trace[made].pointers|;
      && q < |trace[now].pointers|
      && (FrameCheck(trace[now], trace[now].pointers[q]) <==> FrameCheck(trace[now], trace[now].pointers[p]))
  {
    PointersStay(trace, made + 1, now);
    PointersStay(trace, made, now);
  }

  /** In every run, an access panics only if the frame is gone, the access is
      out of bounds or the offset is not a multiple of the size. */
  lemma {:induction false} AccessIsExact(trace: seq<State>, now: nat, p: nat, size: nat)
    requires IsRun(trace) && now < |trace| && p < |trace[now].pointers|
    ensures var s, q := trace[now], trace[now].pointers[p];
      && (FrameCheck(s, q) ==> q.allocationIndex < |s.stack[q.stackIndex].allocations|)
      && (ReadSlice(s, p, size).Some? <==>
            FrameCheck(s, q) && q.offset + size <= |s.stack[q.stackIndex].allocations[q.allocationIndex]|
              && IsMultipleOf(q.offset, size))
  {
    RunKeepsInvariant(trace, now);
    assert trace[now].pointers[p] in trace[now].pointers;
    assert PointerOk(trace[now], trace[now].pointers[p]);
  }

  // ---------------------------------------------------------- reads and writes

  predicate SameAllocation(p: Pointer, q: Pointer) {
    p.stackIndex == q.stackIndex && p.allocationIndex == q.allocationIndex
  }

  /** What is written is read back; other allocations, and other bytes of the
      same allocation, stay as they were. */
  lemma {:induction false} WriteIsRead(s: State, p: nat, val: Bytes, q: nat, size: nat)
    requires p < |s.pointers| && q < |s.pointers| && Write(s, p, val).Some?
    ensures var t := Write(s, p, val).value;
      && t.pointers == s.pointers && |t.stack| == |s.stack|
      && ReadSlice(t, p, |val|) == Some(val)
      && (ReadSlice(t, q, size).Some? <==> ReadSlice(s, q, size).Some?)
      && var a, b := s.pointers[p], s.pointers[q];
         (!SameAllocation(a, b) || b.offset + size <= a.offset || a.offset + |val| <= b.offset) ==>
           ReadSlice(t, q, size) == ReadSlice(s, q, size)
  {
    var a, b := s.pointers[p], s.pointers[q];
    var bytes := s.stack[a.stackIndex].allocations[a.allocationIndex];
    if SameAllocation(a, b) && b.offset + size <= |bytes| {
      OverwrittenSlice(bytes, a.offset, val, b.offset, size);
    }
  }

  lemma {:induction false} OverwrittenSlice(bytes: Bytes, at: nat, val: Bytes, start: nat, n: nat)
    requires at + |val| <= |bytes| && start + n <= |bytes|
    ensures |Overwritten(bytes, at, val)| == |bytes|
    ensures start + n <= at || at + |val| <= start ==>
      Overwritten(bytes, at, val)[start..start + n] == bytes[start..start + n]
  {
    var after := Overwritten(bytes, at, val);
    if start + n <= at || at + |val| <= start {
      forall k | start <= k < start + n
        ensures after[k] == bytes[k]
      {
        OverwrittenByte(bytes, at, val, k);
      }
      SameSlices(after, bytes, start, start + n);
    }
  }

  lemma {:induction false} OverwrittenByte(bytes: Bytes, at: nat, val: Bytes, k: nat)
    requires at + |val| <= |bytes| && k < |bytes| && (k < at || at + |val| <= k)
    ensures Overwritten(bytes, at, val)[k] == bytes[k]
  {
    if at + |val| <= k {
      assert bytes[at + |val|..][k - at - |val|] == bytes[k];
    }
  }

  lemma {:induction false} SameSlices(a: Bytes, b: Bytes, low: nat, high: nat)
    requires low <= high <= |a| && high <= |b|
    requires forall k :: low <= k < high ==> a[k] == b[k]
    ensures a[low..high] == b[low..high]
  {
    forall k | 0 <= k < high - low
      ensures a[low..high][k] == b[low..high][k]
    {
    }
  }

  /** Copying goes through a buffer: the target gets what the source held
      before, also when both overlap. */
  lemma {:induction false} CopyIsBuffered(s: State, to: nat, from: nat, size: nat)
    requires to < |s.pointers| && from < |s.pointers|
    ensures Copy(s, to, from, size).Some? <==> ReadSlice(s, from, size).Some? && ReadSlice(s, to, size).Some?
    ensures Copy(s, to, from, size).Some? ==>
      ReadSlice(Copy(s, to, from, size).value, to, size) == ReadSlice(s, from, size)
  {
    var data := ReadSlice(s, from, size);
    if data.Some? && Write(s, to, data.value).Some? {
      WriteIsRead(s, to, data.value, to, size);
    }
  }

  // ------------------------------------------------------------ single bytes

  /** The byte at a distance from a pointer, read on its own. */
  function Peek(s: State, p: nat, k: nat): Option<bv8>
    requires p < |s.pointers|
  {
    var r := ReadSlice(Offset(s, p, k), |s.pointers|, 1);
    if r.Some? then Some(r.value[0]) else None
  }

  /** A pointer leads to byte number offset of its allocation. */
  lemma {:induction false} PeekIs(s: State, p: nat, k: nat)
    requires p < |s.pointers| && FrameCheck(s, s.pointers[p])
    requires s.pointers[p].allocationIndex < |s.stack[s.pointers[p].stackIndex].allocations|
    ensures var q := s.pointers[p];
      var bytes := s.stack[q.stackIndex].allocations[q.allocationIndex];
      Peek(s, p, k) == if q.offset + k < |bytes| then Some(bytes[q.offset + k]) else None
  {
  }

  /** A read returns the bytes one by one. */
  lemma {:induction false} ReadIsPeeks(s: State, p: nat, size: nat, k: nat)
    requires p < |s.pointers| && k < size && ReadSlice(s, p, size).Some?
    ensures |ReadSlice(s, p, size).value| == size && Peek(s, p, k) == Some(ReadSlice(s, p, size).value[k])
  {
    PeekIs(s, p, k);
  }

  /** A derived pointer leads to what the bytes at this distance from its
      origin are; all other pointers lead to where they led. */
  lemma {:induction false} OffsetIsDistance(s: State, p: nat, distance: nat, size: nat, other: nat)
    requires p < |s.pointers| && other < |s.pointers|
    ensures var t, q := Offset(s, p, distance), |s.pointers|;
      && ReadSlice(t, other, size) == ReadSlice(s, other, size)
      && (forall k: nat :: Peek(t, q, k) == Peek(s, p, distance + k))
      && (ReadSlice(t, q, size).Some? ==>
            var a := s.pointers[p];
            var bytes := s.stack[a.stackIndex].allocations[a.allocationIndex];
            && a.offset + distance + size <= |bytes|
            && ReadSlice(t, q, size).value == bytes[a.offset + distance..a.offset + distance + size])
  {
  }

  /** Two offsets in a row are one by their sum. */
  lemma {:induction false} OffsetsAdd(s: State, p: nat, first: nat, second: nat, size: nat)
    requires p < |s.pointers|
    ensures var n := |s.pointers|;
      ReadSlice(Offset(Offset(s, p, first), n, second), n + 1, size) == ReadSlice(Offset(s, p, first + second), n, size)
  {
  }

  /** A new allocation has so many bytes, all zero. */
  lemma {:induction false} AllocationIsZero(s: State, bytes: nat, k: nat)
    requires s.stack != []
    ensures Peek(Allocate(s, bytes), |s.pointers|, k) == if k < bytes then Some(0) else None
  {
    PeekIs(Allocate(s, bytes), |s.pointers|, k);
  }

  /** What a write is accepted for is found afterwards, byte by byte. */
  lemma {:induction false} WriteIsPeeked(s: State, p: nat, val: Bytes, k: nat)
    requires p < |s.pointers| && Write(s, p, val).Some? && k < |val|
    ensures Peek(Write(s, p, val).value, p, k) == Some(val[k])
  {
    WriteIsRead(s, p, val, p, |val|);
    ReadIsPeeks(Write(s, p, val).value, p, |val|, k);
  }

  /** Only writes change what is read, and only a pop ends it. */
  lemma {:induction false} OnlyWritesChange(s: State, op: Op, p: nat, size: nat)
    requires Invariant(s) && CanDo(s, op) && !op.WriteOp? && p < |s.pointers|
    ensures ReadSlice(Do(s, op), p, size) ==
      if op.PopOp? && |s.stack| > 1 && s.pointers[p].stackIndex == |s.stack| - 1 then None else ReadSlice(s, p, size)
  {
    assert PointerOk(s, s.pointers[p]) by { assert s.pointers[p] in s.pointers; }
  }

  lemma {:induction false} MultipleIs(n: nat, k: nat)
    ensures IsMultipleOf(n, k) <==> exists m: nat :: n == m * k
  {
    if k == 0 {
      assert n == 0 ==> n == 0 * k;
    } else {
      assert n == (n / k) * k + n % k;
      if m: nat :| n == m * k {
        Layouts.MultipleDivides(m, k);
      }
    }
  }

  // ----------------------------------------------------------- return addresses

  /** A frame returns to where it was pushed to return to. */
  predicate ReturnsTo(s: State, k: nat, returnAddress: nat) {
    k < |s.stack| && s.stack[k].returnAddress == returnAddress
  }

  lemma {:induction false} StepKeepsReturn(s: State, t: State, k: nat, returnAddress: nat)
    requires Steps(s, t) && ReturnsTo(s, k, returnAddress) && k < |t.stack|
    ensures ReturnsTo(t, k, returnAddress)
  {
  }

  /** Whatever happens between a push and the pop that ends it, the popped frame
      carries the address that was pushed. */
  lemma {:induction false} PopReturnsWherePushed(trace: seq<State>, pushed: nat, returnAddress: nat, now: nat)
    requires IsRun(trace) && pushed < now < |trace|
    requires trace[pushed + 1] == Push(trace[pushed], returnAddress)
    requires StayedDeep(trace, pushed + 1, now, |trace[pushed].stack| + 1)
    ensures ReturnsTo(trace[now], |trace[pushed].stack|, returnAddress)
    decreases now
  {
    if now > pushed + 1 {
      PopReturnsWherePushed(trace, pushed, returnAddress, now - 1);
      assert Steps(trace[now - 1], trace[now]);
      StepKeepsReturn(trace[now - 1], trace[now], |trace[pushed].stack|, returnAddress);
    }
  }

  // --------------------------------------------------------------- the object

  class Memory {
    var idCounter: nat
    var stack: seq<Frame>
    var pointers: seq<Pointer>

    ghost function Contents(): State
      reads this
    {
      State(idCounter, stack, pointers)
    }

    constructor ()
      ensures Contents() == INITIAL && Invariant(Contents())
    {
      idCounter, stack, pointers := 1, [Frame(0, 0, [])], [];
    }

    method PushFrame(returnAddress: nat)
      requires Invariant(Contents())
      modifies this
      ensures Contents() == Push(old(Contents()), returnAddress) && Invariant(Contents())
    {
      StepKeepsInvariant(Contents(), PushOp(returnAddress));
      var id := idCounter;
      idCounter := idCounter + 1;
      stack := stack + [Frame(id, returnAddress, [])];
    }

    method PopFrame() returns (frame: Option<Frame>)
      requires Invariant(Contents())
      modifies this
      ensures Contents() == Pop(old(Contents())) && Invariant(Contents())
      ensures frame == if |old(stack)| == 1 then None else Some(old(stack)[|old(stack)| - 1])
    {
      StepKeepsInvariant(Contents(), PopOp);
      if |stack| == 1 {
        return None;
      }
      frame := Some(stack[|stack| - 1]);
      stack := stack[..|stack| - 1];
    }

    method AllocateBytes(bytes: nat) returns (p: nat)
      requires Invariant(Contents())
      modifies this
      ensures Contents() == Allocate(old(Contents()), bytes) && Invariant(Contents())
      ensures p == old(|pointers|) && FrameCheck(Contents(), pointers[p])
      ensures |stack[|stack| - 1].allocations[pointers[p].allocationIndex]| == bytes
    {
      StepKeepsInvariant(Contents(), AllocateOp(bytes));
      var k := |stack| - 1;
      var top := stack[k];
      stack := stack[k := top.(allocations := top.allocations + [Zeros(bytes)])];
      pointers := pointers + [Pointer(k, top.id, |top.allocations|, 0)];
      p := |pointers| - 1;
    }

    method OffsetBy(p: nat, distance: nat) returns (q: nat)
      requires Invariant(Contents()) && p < |pointers|
      modifies this
      ensures Contents() == Offset(old(Contents()), p, distance) && Invariant(Contents())
      ensures q == old(|pointers|) && pointers[..q] == old(pointers)
      ensures pointers[q].offset == old(pointers[p].offset) + distance
      ensures pointers[q].stackIndex == old(pointers[p].stackIndex) && pointers[q].stackId == old(pointers[p].stackId)
      ensures pointers[q].allocationIndex == old(pointers[p].allocationIndex)
      ensures forall k: nat :: Peek(Contents(), q, k) == old(Peek(Contents(), p, distance + k))
    {
      StepKeepsInvariant(Contents(), OffsetOp(p, distance));
      pointers := pointers + [pointers[p].(offset := pointers[p].offset + distance)];
      q := |pointers| - 1;
    }

    method Read(p: nat, size: nat) returns (val: Option<Bytes>)
      requires Invariant(Contents()) && p < |pointers|
      ensures val == ReadSlice(Contents(), p, size)
    {
      var q := pointers[p];
      if q.stackIndex >= |stack| || stack[q.stackIndex].id != q.stackId {
        return None;
      }
      var allocations := stack[q.stackIndex].allocations;
      assert PointerOk(Contents(), q);
      var bytes := allocations[q.allocationIndex];
      if q.offset + size > |bytes| || !IsMultipleOf(q.offset, size) {
        return None;
      }
      val := Some(bytes[q.offset..q.offset + size]);
    }

    /** False stands for a panic, which leaves the memory as it was. */
    method WriteBytes(p: nat, val: Bytes) returns (ok: bool)
      requires Invariant(Contents()) && p < |pointers|
      modifies this
      ensures Invariant(Contents())
      ensures ok <==> Write(old(Contents()), p, val).Some?
      ensures Contents() == if ok then Write(old(Contents()), p, val).value else old(Contents())
    {
      if Write(Contents(), p, val).Some? {
        StepKeepsInvariant(Contents(), WriteOp(p, val));
      }
      var q := pointers[p];
      if q.stackIndex >= |stack| || stack[q.stackIndex].id != q.stackId {
        return false;
      }
      var frame := stack[q.stackIndex];
      assert PointerOk(Contents(), q);
      var bytes := frame.allocations[q.allocationIndex];
      if q.offset + |val| > |bytes| || !IsMultipleOf(q.offset, |val|) {
        return false;
      }
      bytes := bytes[..q.offset] + val + bytes[q.offset + |val|..];
      stack := stack[q.stackIndex := frame.(allocations := frame.allocations[q.allocationIndex := bytes])];
      ok := true;
    }

    method CopyBytes(to: nat, from: nat, size: nat) returns (ok: bool)
      requires Invariant(Contents()) && to < |pointers| && from < |pointers|
      modifies this
      ensures Invariant(Contents())
      ensures ok <==> Copy(old(Contents()), to, from, size).Some?
      ensures Contents() == if ok then Copy(old(Contents()), to, from, size).value else old(Contents())
    {
      var data := Read(from, size);
      if data.None? {
        return false;
      }
      ok := WriteBytes(to, data.value);
    }
  }
}

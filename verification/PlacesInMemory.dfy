/** Places of the layout, accessed through the checked memory: what a move into
    a place (move_val in src/lir/lower.rs) does when it is evaluated
    (src/lir/eval.rs). */
module PlacesInMemory {
  import opened Collections
  import opened Layouts
  import opened Locations
  import opened Places
  import Mem = LirMemory

  /** A pointer into an allocation that is in use. */
  ghost predicate Owns(s: Mem.State, base: nat) {
    && base < |s.pointers| && Mem.FrameCheck(s, s.pointers[base])
    && s.pointers[base].allocationIndex < |s.stack[s.pointers[base].stackIndex].allocations|
    && s.pointers[base].offset <= |Allocation(s, base)|
  }

  ghost function Allocation(s: Mem.State, base: nat): Mem.Bytes
    requires base < |s.pointers| && Mem.FrameCheck(s, s.pointers[base])
    requires s.pointers[base].allocationIndex < |s.stack[s.pointers[base].stackIndex].allocations|
  {
    s.stack[s.pointers[base].stackIndex].allocations[s.pointers[base].allocationIndex]
  }

  /** The contents of the allocation from where the pointer points. */
  ghost function BytesAt(s: Mem.State, base: nat): Mem.Bytes
    requires Owns(s, base)
  {
    Allocation(s, base)[s.pointers[base].offset..]
  }

  /** A pointer with room for a value of a type behind it. */
  ghost predicate Holds(s: Mem.State, base: nat, types: seq<Ty>, h: Host, root: TyRef)
    requires PoolValid(types, h) && root < |types|
  {
    && Owns(s, base)
    && LayoutOf(types, h, root).Some?
    && LayoutOf(types, h, root).value.size <= |BytesAt(s, base)|
  }

  /** The offset instruction, then the access. */
  function Accepts(s: Mem.State, base: nat, offset: nat, size: nat): bool
    requires base < |s.pointers|
  {
    Mem.ReadSlice(Mem.Offset(s, base, offset), |s.pointers|, size).Some?
  }

  lemma {:induction false} AccessIsAccepted(s: Mem.State, base: nat, offset: nat, size: nat)
    requires Owns(s, base) && offset + size <= |BytesAt(s, base)|
    ensures Accepts(s, base, offset, size) <==> Mem.IsMultipleOf(s.pointers[base].offset + offset, size)
  {
  }

  /** A place in bounds is accepted exactly if its offset in the allocation is a
      multiple of its size. */
  lemma {:induction false} PlaceIsAccepted(s: Mem.State, base: nat, types: seq<Ty>, h: Host,
      root: TyRef, path: seq<Projection>, final: TyRef)
    requires PoolValid(types, h) && root < |types| && final < |types| && Holds(s, base, types, h, root)
    requires path != [] && PathFits(types, h, root, path)
    ensures var l, size := LocationOf(types, h, root, path, final), SizeAt(types, h, root, path);
      && l.Pointer?
      && (Accepts(s, base, l.offset, size) <==> Mem.IsMultipleOf(s.pointers[base].offset + l.offset, size))
  {
    hide PoolValid, LayoutOf, LocationOf, PathFits, Accepts;
    LocationInside(types, h, root, path, final);
    AccessIsAccepted(s, base, LocationOf(types, h, root, path, final).offset, SizeAt(types, h, root, path));
  }

  /** Behind a pointer that is aligned for the whole variable, the places of all
      types that are passed by value are accepted. */
  lemma {:induction false} ScalarsAreAccepted(s: Mem.State, base: nat, types: seq<Ty>, h: Host,
      root: TyRef, path: seq<Projection>, final: TyRef)
    requires PoolValid(types, h) && root < |types| && final < |types| && Holds(s, base, types, h, root)
    requires s.pointers[base].offset % LayoutOf(types, h, root).value.align == 0
    requires path != [] && PathFits(types, h, root, path) && TypeAt(types, h, root, path).Some?
    requires IsScalar(types[TypeAt(types, h, root, path).value]) && SizeAt(types, h, root, path) > 0
    ensures var l := LocationOf(types, h, root, path, final);
      l.Pointer? && Accepts(s, base, l.offset, SizeAt(types, h, root, path))
  {
    hide PoolValid, LayoutOf, LocationOf, PathFits, Accepts, Mem.FrameCheck;
    LocationInside(types, h, root, path, final);
    PlaceIsAccepted(s, base, types, h, root, path, final);
    var ty := TypeAt(types, h, root, path).value;
    var inner, outer := LayoutOf(types, h, ty).value, LayoutOf(types, h, root).value;
    ScalarIsSquare(types, h, ty);
    DividesThrough(inner.align, outer.align, s.pointers[base].offset);
    MultiplesAdd(s.pointers[base].offset, LocationOf(types, h, root, path, final).offset, inner.align);
  }

  /** A field that is itself a record need not be accepted, although it is
      aligned and in bounds: its size is more than its alignment. */
  lemma {:induction false} NestedRecordIsRejected(s: Mem.State, base: nat, h: Host)
    requires HostValid(h)
    ensures var types := [Prim(Int(Unsigned, I64)), Record([("x", 0), ("y", 0)]), Record([("a", 0), ("b", 1)])];
      && PoolValid(types, h)
      && (Holds(s, base, types, h, 2) && s.pointers[base].offset == 0 ==>
            && LocationOf(types, h, 2, [Field("b")], 1) == Pointer(8) && LayoutOf(types, h, 1) == Some(Layout(16, 8))
            && !Accepts(s, base, 8, 16))
  {
    var types := [Prim(Int(Unsigned, I64)), Record([("x", 0), ("y", 0)]), Record([("a", 0), ("b", 1)])];
    assert PoolValid(types, h);
    InnerRecord(types, h);
    InnerField(types, h);
  }

  lemma {:induction false} InnerRecord(types: seq<Ty>, h: Host)
    requires PoolValid(types, h) && |types| > 1 && types[0] == Prim(Int(Unsigned, I64))
      && types[1] == Record([("x", 0), ("y", 0)])
    ensures LayoutOf(types, h, 1) == Some(Layout(16, 8))
  {
    hide PoolValid, Fill, Finished;
    LayoutOfRecord(types, h, 1);
    var eight := Layout(8, 8);
    var refs := FieldTypes(types[1].fields);
    assert refs == [0, 0];
    var ls := LayoutsOf(types, h, refs);
    assert ls == [Some(eight), Some(eight)];
    assert Values(ls) == [eight, eight];
    TwoEights();
  }

  lemma {:induction false} TwoEights()
    ensures Finished(Fill(EMPTY, [Layout(8, 8), Layout(8, 8)])) == Layout(16, 8)
  {
    var eight := Layout(8, 8);
    assert [eight, eight][..1] == [eight] && [eight][..0] == [];
    assert Fill(EMPTY, [eight]) == Building(8, 8);
    assert Fill(EMPTY, [eight, eight]) == Building(16, 8);
  }

  lemma {:induction false} InnerField(types: seq<Ty>, h: Host)
    requires PoolValid(types, h) && |types| > 2 && types[0] == Prim(Int(Unsigned, I64))
    requires types[2] == Record([("a", 0), ("b", 1)]) && LayoutOf(types, h, 1) == Some(Layout(16, 8))
    ensures Locate(types, h, 2, [Field("b")]) == At(8, 1)
  {
    hide PoolValid;
    FieldAtIs(types, h, 2, "b");
    var ls := LayoutsOf(types, h, FieldTypes(types[2].fields));
    assert LayoutOf(types, h, 0) == Some(Layout(8, 8));
    assert ls == [Some(Layout(8, 8)), Some(Layout(16, 8))];
    var vs := Values(ls[..2]);
    assert vs[..1] == [Layout(8, 8)] && [Layout(8, 8)][..0] == [];
    assert Fill(EMPTY, vs[..1]) == Building(8, 8);
    assert OffsetOf(EMPTY, vs, 1) == 8;
    var path := [Field("b")];
    assert path[1..] == [];
  }

  /** What move_val emits for a type that is passed by value: an offset, then a
      write. */
  function Moved(s: Mem.State, base: nat, offset: nat, val: Mem.Bytes): Option<Mem.State>
    requires base < |s.pointers|
  {
    Mem.Write(Mem.Offset(s, base, offset), |s.pointers|, val)
  }

  function ReadAt(s: Mem.State, base: nat, offset: nat, size: nat): Option<Mem.Bytes>
    requires base < |s.pointers|
  {
    Mem.ReadSlice(Mem.Offset(s, base, offset), |s.pointers|, size)
  }

  /** A move into one place is read back from it and leaves every place on a
      path that parts from it as it was. */
  lemma {:induction false} MoveIsLocal(s: Mem.State, base: nat, types: seq<Ty>, h: Host, root: TyRef,
      p: seq<Projection>, q: seq<Projection>, final: TyRef, other: TyRef, val: Mem.Bytes)
    requires PoolValid(types, h) && root < |types| && final < |types| && other < |types|
    requires Holds(s, base, types, h, root)
    requires PathFits(types, h, root, p) && PathFits(types, h, root, q) && Part(p, q)
    requires |val| == SizeAt(types, h, root, p)
    ensures var l, m := LocationOf(types, h, root, p, final), LocationOf(types, h, root, q, other);
      && l.Pointer? && m.Pointer?
      && (Moved(s, base, l.offset, val).Some? <==> Mem.IsMultipleOf(s.pointers[base].offset + l.offset, |val|))
      && (Moved(s, base, l.offset, val).Some? ==>
            var t := Moved(s, base, l.offset, val).value;
            && base < |t.pointers| && t.pointers[base] == s.pointers[base] && Holds(t, base, types, h, root)
            && ReadAt(t, base, l.offset, |val|) == Some(val)
            && ReadAt(t, base, m.offset, SizeAt(types, h, root, q)) ==
              ReadAt(s, base, m.offset, SizeAt(types, h, root, q)))
  {
    hide PoolValid, LayoutOf, LocationOf, PathFits, SizeAt, Moved, ReadAt, Mem.FrameCheck, BytesAt;
    LocationsApart(types, h, root, p, q, final, other);
    var l, m := LocationOf(types, h, root, p, final), LocationOf(types, h, root, q, other);
    MovedBytes(s, base, l.offset, val, m.offset, SizeAt(types, h, root, q));
  }

  /** The same without types. */
  lemma {:induction false} MovedBytes(s: Mem.State, base: nat, to: nat, val: Mem.Bytes, other: nat, n: nat)
    requires Owns(s, base) && to + |val| <= |BytesAt(s, base)| && other + n <= |BytesAt(s, base)|
    requires to + |val| <= other || other + n <= to
    ensures Moved(s, base, to, val).Some? <==> Mem.IsMultipleOf(s.pointers[base].offset + to, |val|)
    ensures Moved(s, base, to, val).Some? ==>
      var t := Moved(s, base, to, val).value;
      && Owns(t, base) && |BytesAt(t, base)| == |BytesAt(s, base)|
      && t.pointers[base] == s.pointers[base]
      && ReadAt(t, base, to, |val|) == Some(val) && ReadAt(t, base, other, n) == ReadAt(s, base, other, n)
  {
    if Moved(s, base, to, val).Some? {
      var start := s.pointers[base].offset;
      Mem.OverwrittenSlice(Allocation(s, base), start + to, val, start + other, n);
    }
  }

  /** What move_val emits for a type that is passed by reference: an offset,
      then a copy from where the value is. */
  function Copied(s: Mem.State, base: nat, offset: nat, from: nat, size: nat): Option<Mem.State>
    requires base < |s.pointers| && from < |s.pointers|
  {
    Mem.Copy(Mem.Offset(s, base, offset), |s.pointers|, from, size)
  }

  lemma {:induction false} CopyWrites(s: Mem.State, base: nat, offset: nat, from: nat, size: nat)
    requires base < |s.pointers| && from < |s.pointers|
    ensures var data := Mem.ReadSlice(s, from, size);
      && (data.Some? ==> |data.value| == size)
      && Copied(s, base, offset, from, size) == if data.Some? then Moved(s, base, offset, data.value) else None
  {
    var t := Mem.Offset(s, base, offset);
    assert t.pointers[from] == s.pointers[from];
    assert Mem.ReadSlice(t, from, size) == Mem.ReadSlice(s, from, size);
  }

  /** The same for a copy, which is accepted exactly if the place is and the
      source can be read: the place then holds what the source held before, and
      every place on a path that parts is as it was. */
  lemma {:induction false} CopyIsLocal(s: Mem.State, base: nat, types: seq<Ty>, h: Host, root: TyRef,
      p: seq<Projection>, q: seq<Projection>, final: TyRef, other: TyRef, from: nat)
    requires PoolValid(types, h) && root < |types| && final < |types| && other < |types|
    requires Holds(s, base, types, h, root) && from < |s.pointers|
    requires PathFits(types, h, root, p) && PathFits(types, h, root, q) && Part(p, q)
    ensures var l, m := LocationOf(types, h, root, p, final), LocationOf(types, h, root, q, other);
      var size, n := SizeAt(types, h, root, p), SizeAt(types, h, root, q);
      && l.Pointer? && m.Pointer?
      && (Copied(s, base, l.offset, from, size).Some? <==>
            Mem.ReadSlice(s, from, size).Some? && Mem.IsMultipleOf(s.pointers[base].offset + l.offset, size))
      && (Copied(s, base, l.offset, from, size).Some? ==>
            var t := Copied(s, base, l.offset, from, size).value;
            && base < |t.pointers| && Holds(t, base, types, h, root)
            && ReadAt(t, base, l.offset, size) == Mem.ReadSlice(s, from, size)
            && ReadAt(t, base, m.offset, n) == ReadAt(s, base, m.offset, n))
  {
    hide PoolValid, LayoutOf, LocationOf, PathFits, Moved, Copied, Mem.ReadSlice, ReadAt, SizeAt, Part, Mem.FrameCheck;
    LocationsApart(types, h, root, p, q, final, other);
    var l, size := LocationOf(types, h, root, p, final), SizeAt(types, h, root, p);
    CopyWrites(s, base, l.offset, from, size);
    var data := Mem.ReadSlice(s, from, size);
    if data.Some? {
      MoveIsLocal(s, base, types, h, root, p, q, final, other, data.value);
    }
  }
}

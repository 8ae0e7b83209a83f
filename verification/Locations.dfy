/** What location (src/lir/lower.rs) answers: which types can exist, where the
    values of a type are kept, and which bytes a place takes. */
module Locations {
  import opened Collections
  import opened Layouts
  import opened Places

  // ------------------------------------------------------- what can exist

  /** A type has values: a record if all its fields do, an enum if all fields of
      some variant do. */
  predicate CanExist(types: seq<Ty>, h: Host, ty: TyRef)
    requires PoolValid(types, h) && ty < |types|
    decreases ty, 1
  {
    match types[ty]
    case Never => false
    case Record(fields) =>
      ChildrenBefore(types, h, ty);
      AllExist(types, h, ty, FieldTypes(fields))
    case Enum(variants) =>
      ChildrenBefore(types, h, ty);
      exists k :: 0 <= k < |variants| && AllExist(types, h, ty, variants[k].1)
    case _ => true
  }

  predicate Before(refs: seq<TyRef>, ty: TyRef) {
    forall i :: 0 <= i < |refs| ==> refs[i] < ty
  }

  predicate AllExist(types: seq<Ty>, h: Host, ty: TyRef, refs: seq<TyRef>)
    requires PoolValid(types, h) && ty <= |types| && Before(refs, ty)
    decreases ty, 0
  {
    forall i :: 0 <= i < |refs| ==> CanExist(types, h, refs[i])
  }

  lemma {:induction false} ChildrenBefore(types: seq<Ty>, h: Host, ty: TyRef)
    requires PoolValid(types, h) && ty < |types|
    ensures types[ty].Record? ==> Before(FieldTypes(types[ty].fields), ty)
    ensures types[ty].Enum? ==> forall k :: 0 <= k < |types[ty].variants| ==> Before(types[ty].variants[k].1, ty)
  {
    match types[ty]
    case Record(fields) =>
      forall i | 0 <= i < |fields|
        ensures fields[i].1 < ty
      {
        assert fields[i].1 in Children(types[ty]);
      }
    case Enum(variants) =>
      forall k, i | 0 <= k < |variants| && 0 <= i < |variants[k].1|
        ensures variants[k].1[i] < ty
      {
        assert variants[k].1[i] in Children(types[ty]);
      }
    case _ =>
  }

  /** A type has a layout if and only if it has values. */
  lemma {:induction false} LayoutMeansExistence(types: seq<Ty>, h: Host, ty: TyRef)
    requires PoolValid(types, h) && ty < |types|
    ensures LayoutOf(types, h, ty).Some? <==> CanExist(types, h, ty)
    decreases ty, 1
  {
    hide PoolValid, Sized, UnionOf;
    ChildrenBefore(types, h, ty);
    match types[ty]
    case Record(fields) =>
      LayoutOfRecord(types, h, ty);
      LayoutsMeanExistence(types, h, ty, FieldTypes(fields));
    case Enum(variants) =>
      LayoutOfEnum(types, h, ty);
      forall k | 0 <= k < |variants|
        ensures VariantLayout(types, h, variants[k].1).Some? <==> AllExist(types, h, ty, variants[k].1)
      {
        LayoutsMeanExistence(types, h, ty, variants[k].1);
      }
      var vs := VariantLayouts(types, h, variants);
      UnionExists(vs);
      EnumExists(types, h, ty, vs);
    case _ =>
  }

  lemma {:induction false} EnumExists(types: seq<Ty>, h: Host, ty: TyRef, vs: seq<Option<Layout>>)
    requires PoolValid(types, h) && ty < |types| && types[ty].Enum? && |vs| == |types[ty].variants|
    requires forall k :: 0 <= k < |vs| ==> Before(types[ty].variants[k].1, ty)
    requires forall k :: 0 <= k < |vs| ==> (vs[k].Some? <==> AllExist(types, h, ty, types[ty].variants[k].1))
    ensures CanExist(types, h, ty) <==> exists k :: 0 <= k < |vs| && vs[k].Some?
  {
    hide PoolValid, AllExist;
    var variants := types[ty].variants;
    if k :| 0 <= k < |vs| && vs[k].Some? {
      assert AllExist(types, h, ty, variants[k].1);
    }
    if CanExist(types, h, ty) {
      var k :| 0 <= k < |variants| && AllExist(types, h, ty, variants[k].1);
      assert vs[k].Some?;
    }
  }

  lemma {:induction false} LayoutsMeanExistence(types: seq<Ty>, h: Host, ty: TyRef, refs: seq<TyRef>)
    requires PoolValid(types, h) && ty < |types| && Before(refs, ty)
    ensures Known(types, refs) && (AllSome(LayoutsOf(types, h, refs)) <==> AllExist(types, h, ty, refs))
    decreases ty, 0
  {
    hide LayoutOf, CanExist;
    var ls := LayoutsOf(types, h, refs);
    forall i | 0 <= i < |refs|
      ensures ls[i].Some? <==> CanExist(types, h, refs[i])
    {
      LayoutMeansExistence(types, h, refs[i]);
    }
  }

  lemma {:induction false} UnionExists(vs: seq<Option<Layout>>)
    requires Usable(vs)
    ensures UnionOf(vs).Some? <==> exists k :: 0 <= k < |vs| && vs[k].Some?
    decreases |vs|
  {
    hide Union;
    if vs != [] {
      var n := |vs| - 1;
      UnionExists(vs[..n]);
      assert forall k :: 0 <= k < n ==> vs[..n][k] == vs[k];
    }
  }

  // -------------------------------------------------------------- one type

  /** The layouts of the types that have one whatever the host. */
  lemma {:induction false} ScalarLayouts(types: seq<Ty>, h: Host, ty: TyRef)
    requires PoolValid(types, h) && ty < |types|
    ensures types[ty] == Unit ==> LayoutOf(types, h, ty) == Some(Layout(0, 1))
    ensures types[ty] in {Prim(Bool), Prim(Int(Unsigned, I8)), Prim(Int(Signed, I8))} ==>
      LayoutOf(types, h, ty) == Some(Layout(1, 1))
    ensures types[ty] in {Prim(Int(Unsigned, I16)), Prim(Int(Signed, I16))} ==>
      LayoutOf(types, h, ty) == Some(Layout(2, 2))
    ensures types[ty] in {Prim(Int(Unsigned, I32)), Prim(Int(Signed, I32)), Prim(Float(F32)), Prim(Char), Prim(Asn)} ==>
      LayoutOf(types, h, ty) == Some(Layout(4, 4))
    ensures types[ty] in {Prim(Int(Unsigned, I64)), Prim(Int(Signed, I64)), Prim(Float(F64))} ==>
      LayoutOf(types, h, ty) == Some(Layout(8, 8))
  {
  }

  /** The layouts that come from the host. */
  lemma {:induction false} HostLayouts(types: seq<Ty>, h: Host, ty: TyRef)
    requires PoolValid(types, h) && ty < |types|
    ensures types[ty] == Prim(Text) ==> LayoutOf(types, h, ty) == Some(h.text)
    ensures types[ty] == Prim(IpAddr) ==> LayoutOf(types, h, ty) == Some(h.ipAddr)
    ensures types[ty] == Prim(Prefix) ==> LayoutOf(types, h, ty) == Some(h.prefix)
    ensures types[ty].List? ==> LayoutOf(types, h, ty) == Some(h.list)
    ensures types[ty].Runtime? ==> types[ty].id in h.runtime && LayoutOf(types, h, ty) == Some(h.runtime[types[ty].id])
  {
  }

  function FieldLayouts(types: seq<Ty>, h: Host, ty: TyRef, refs: seq<TyRef>): (ls: seq<Layout>)
    requires PoolValid(types, h) && ty < |types| && Before(refs, ty) && AllExist(types, h, ty, refs)
    ensures |ls| == |refs| && AllValid(ls)
    ensures forall i :: 0 <= i < |refs| ==> LayoutOf(types, h, refs[i]) == Some(ls[i])
  {
    LayoutsMeanExistence(types, h, ty, refs);
    Values(LayoutsOf(types, h, refs))
  }

  /** The layout of a record is the least one in which its fields follow each
      other in order, and no such order has a field further to the front. */
  lemma {:induction false} RecordIsLeast(types: seq<Ty>, h: Host, ty: TyRef, name: Identifier, final: TyRef,
      at: seq<nat>, c: Layout)
    requires PoolValid(types, h) && ty < |types| && types[ty].Record? && CanExist(types, h, ty) && final < |types|
    requires Before(FieldTypes(types[ty].fields), ty) && Valid(c)
    requires InOrder(0, FieldLayouts(types, h, ty, FieldTypes(types[ty].fields)), at, c)
    ensures LayoutOf(types, h, ty).Some? && Covers(c, LayoutOf(types, h, ty).value)
    ensures var i := IndexOfName(types[ty].fields, name);
      i < |types[ty].fields| ==>
        var l := LocationOf(types, h, ty, [Field(name)], final);
        l.Pointer? && l.offset <= at[i]
  {
    hide PoolValid, LayoutOf, OffsetOf, InOrder, Valid, CanExist, Fill;
    var refs := FieldTypes(types[ty].fields);
    LayoutMeansExistence(types, h, ty);
    LayoutsMeanExistence(types, h, ty, refs);
    LayoutOfRecord(types, h, ty);
    var ls := LayoutsOf(types, h, refs);
    assert Sound(EMPTY) && c.align % EMPTY.align == 0;
    FillIsLeast(EMPTY, Values(ls), at, c);
    FieldAtIs(types, h, ty, name);
    var i := IndexOfName(types[ty].fields, name);
    if i < |refs| {
      PrefixOffset(EMPTY, ls, i);
      OneStep(types, h, ty, Field(name));
    }
  }

  lemma {:induction false} OneStep(types: seq<Ty>, h: Host, ty: TyRef, p: Projection)
    requires PoolValid(types, h) && ty < |types|
    ensures Locate(types, h, ty, [p]) == Project(types, h, ty, p)
  {
    hide PoolValid, Project;
    assert [p][1..] == [];
  }

  /** In the layout of a record its fields follow each other in order. */
  lemma {:induction false} RecordIsInOrder(types: seq<Ty>, h: Host, ty: TyRef)
    requires PoolValid(types, h) && ty < |types| && types[ty].Record? && CanExist(types, h, ty)
    requires Before(FieldTypes(types[ty].fields), ty)
    ensures LayoutOf(types, h, ty).Some?
    ensures exists at ::
      InOrder(0, FieldLayouts(types, h, ty, FieldTypes(types[ty].fields)), at, LayoutOf(types, h, ty).value)
  {
    hide PoolValid, LayoutOf, OffsetOf, InOrder, Valid, CanExist, Fill;
    var refs := FieldTypes(types[ty].fields);
    LayoutMeansExistence(types, h, ty);
    LayoutsMeanExistence(types, h, ty, refs);
    LayoutOfRecord(types, h, ty);
    var fields := FieldLayouts(types, h, ty, refs);
    assert fields == Values(LayoutsOf(types, h, refs));
    FillIsInOrder(EMPTY, fields);
    assert InOrder(0, fields, Offsets(EMPTY, fields), LayoutOf(types, h, ty).value);
  }

  /** Fields of a variant behind the tag, in order, inside a layout. */
  predicate HasRoom(types: seq<Ty>, h: Host, ty: TyRef, refs: seq<TyRef>, at: seq<nat>, c: Layout)
    requires PoolValid(types, h) && ty < |types| && Before(refs, ty)
  {
    AllExist(types, h, ty, refs) ==> InOrder(1, FieldLayouts(types, h, ty, refs), at, c)
  }

  /** The layout of an enum is the least one in which the fields of every
      variant that can exist follow each other in order behind the tag. */
  lemma {:induction false} EnumIsLeast(types: seq<Ty>, h: Host, ty: TyRef, ats: seq<seq<nat>>, c: Layout)
    requires PoolValid(types, h) && ty < |types| && types[ty].Enum? && CanExist(types, h, ty) && Valid(c)
    requires |ats| == |types[ty].variants|
    requires forall k :: 0 <= k < |ats| ==> Before(types[ty].variants[k].1, ty)
    requires forall k :: 0 <= k < |ats| ==> HasRoom(types, h, ty, types[ty].variants[k].1, ats[k], c)
    ensures LayoutOf(types, h, ty).Some? && Covers(c, LayoutOf(types, h, ty).value)
  {
    hide PoolValid, LayoutOf, VariantLayout, HasRoom, CanExist;
    LayoutMeansExistence(types, h, ty);
    LayoutOfEnum(types, h, ty);
    var variants := types[ty].variants;
    var vs := VariantLayouts(types, h, variants);
    forall k | 0 <= k < |vs| && vs[k].Some?
      ensures Covers(c, vs[k].value)
    {
      VariantIsLeast(types, h, ty, variants[k].1, ats[k], c);
    }
    UnionIsBelow(vs, c);
  }

  lemma {:induction false} VariantIsLeast(types: seq<Ty>, h: Host, ty: TyRef, refs: seq<TyRef>, at: seq<nat>, c: Layout)
    requires PoolValid(types, h) && ty < |types| && Before(refs, ty) && Known(types, refs) && Valid(c)
    requires HasRoom(types, h, ty, refs, at, c) && VariantLayout(types, h, refs).Some?
    ensures Covers(c, VariantLayout(types, h, refs).value)
  {
    hide PoolValid, LayoutOf, InOrder, Valid, Fill;
    LayoutsMeanExistence(types, h, ty, refs);
    assert Sound(TAGGED) && c.align % TAGGED.align == 0;
    FillIsLeast(TAGGED, Values(LayoutsOf(types, h, refs)), at, c);
  }

  /** No such order has a field of a variant that can exist further to the
      front. */
  lemma {:induction false} VariantFieldIsLeast(types: seq<Ty>, h: Host, ty: TyRef, k: nat, i: nat, final: TyRef,
      at: seq<nat>, c: Layout)
    requires PoolValid(types, h) && ty < |types| && types[ty].Enum? && k < |types[ty].variants| && final < |types|
    requires k == IndexOfName(types[ty].variants, types[ty].variants[k].0) && i < |types[ty].variants[k].1|
    requires Before(types[ty].variants[k].1, ty) && AllExist(types, h, ty, types[ty].variants[k].1) && Valid(c)
    requires InOrder(1, FieldLayouts(types, h, ty, types[ty].variants[k].1), at, c)
    ensures var l := LocationOf(types, h, ty, [VariantField(types[ty].variants[k].0, i)], final);
      l.Pointer? && l.offset <= at[i]
  {
    hide PoolValid, LayoutOf, InOrder, Valid, Fill, OffsetOf, Existing;
    var refs := types[ty].variants[k].1;
    LayoutsMeanExistence(types, h, ty, refs);
    var ls := LayoutsOf(types, h, refs);
    assert Sound(TAGGED) && c.align % TAGGED.align == 0;
    FillIsLeast(TAGGED, Values(ls), at, c);
    PrefixExists(ls, |ls|);
    assert ls[..|ls|] == ls;
    VariantFieldIs(types, h, ty, types[ty].variants[k].0, refs, i);
    PrefixOffset(TAGGED, ls, i);
    OneStep(types, h, ty, VariantField(types[ty].variants[k].0, i));
  }

  lemma {:induction false} UnionIsBelow(vs: seq<Option<Layout>>, c: Layout)
    requires Usable(vs) && Valid(c) && forall k :: 0 <= k < |vs| && vs[k].Some? ==> Covers(c, vs[k].value)
    ensures UnionOf(vs).Some? ==> Covers(c, UnionOf(vs).value)
    decreases |vs|
  {
    hide Covers, Union, IsPowerOfTwo;
    if vs != [] {
      var n := |vs| - 1;
      assert forall k :: 0 <= k < n ==> vs[..n][k] == vs[k];
      UnionIsBelow(vs[..n], c);
      if vs[n].Some? && UnionOf(vs[..n]).Some? {
        UnionIsLeast(UnionOf(vs[..n]).value, vs[n].value);
      }
    }
  }

  /** In the layout of an enum the fields of every variant that can exist follow
      each other in order behind the tag. */
  lemma {:induction false} VariantIsInOrder(types: seq<Ty>, h: Host, ty: TyRef, k: nat)
    requires PoolValid(types, h) && ty < |types| && types[ty].Enum? && k < |types[ty].variants|
    requires Before(types[ty].variants[k].1, ty) && AllExist(types, h, ty, types[ty].variants[k].1)
    ensures LayoutOf(types, h, ty).Some?
    ensures exists at ::
      InOrder(1, FieldLayouts(types, h, ty, types[ty].variants[k].1), at, LayoutOf(types, h, ty).value)
  {
    hide PoolValid, LayoutOf, OffsetOf, InOrder, CanExist, Fill, UnionOf, Covers;
    var refs := types[ty].variants[k].1;
    LayoutsMeanExistence(types, h, ty, refs);
    LayoutOfEnum(types, h, ty);
    UnionCovers(VariantLayouts(types, h, types[ty].variants), k);
    var fields := FieldLayouts(types, h, ty, refs);
    assert fields == Values(LayoutsOf(types, h, refs));
    FillIsInOrder(TAGGED, fields);
    var at := Offsets(TAGGED, fields);
    WiderOrder(1, fields, at, VariantLayout(types, h, refs).value, LayoutOf(types, h, ty).value);
    assert InOrder(1, fields, at, LayoutOf(types, h, ty).value);
  }

  lemma {:induction false} WiderOrder(start: nat, fields: seq<Layout>, at: seq<nat>, c: Layout, d: Layout)
    requires InOrder(start, fields, at, c) && Valid(c) && Valid(d) && Covers(d, c)
    ensures InOrder(start, fields, at, d)
  {
    forall i | 0 <= i < |at|
      ensures d.align % fields[i].align == 0
    {
      DividesThrough(fields[i].align, c.align, d.align);
    }
  }

  // -------------------------------------------------------- where values are

  /** Nothing is stored for the values of the type. */
  predicate Weightless(types: seq<Ty>, h: Host, ty: TyRef)
    requires PoolValid(types, h) && ty < |types|
    decreases ty
  {
    match types[ty]
    case Unit => true
    case Record(fields) =>
      ChildrenBefore(types, h, ty);
      var refs := FieldTypes(fields);
      forall i :: 0 <= i < |refs| ==> Weightless(types, h, refs[i])
    case Prim(Text) => h.text.size == 0
    case Prim(IpAddr) => h.ipAddr.size == 0
    case Prim(Prefix) => h.prefix.size == 0
    case List(_) => h.list.size == 0
    case Runtime(id) => h.runtime[id].size == 0
    case _ => false
  }

  lemma {:induction false} WeightlessIsEmpty(types: seq<Ty>, h: Host, ty: TyRef)
    requires PoolValid(types, h) && ty < |types| && LayoutOf(types, h, ty).Some?
    ensures LayoutOf(types, h, ty).value.size == 0 <==> Weightless(types, h, ty)
    decreases ty
  {
    ChildrenBefore(types, h, ty);
    match types[ty]
    case Record(fields) =>
      LayoutOfRecord(types, h, ty);
      var refs := FieldTypes(fields);
      var ls := LayoutsOf(types, h, refs);
      forall i | 0 <= i < |refs|
        ensures Values(ls)[i].size == 0 <==> Weightless(types, h, refs[i])
      {
        WeightlessIsEmpty(types, h, refs[i]);
      }
      EmptyFields(Values(ls));
    case Enum(_) => EnumHasTag(types, h, ty);
    case _ =>
  }

  /** Fields without size make a layout without size. */
  lemma {:induction false} EmptyFields(fields: seq<Layout>)
    requires AllValid(fields)
    ensures Sound(Fill(EMPTY, fields))
    ensures Finished(Fill(EMPTY, fields)).size == 0 <==> forall i :: 0 <= i < |fields| ==> fields[i].size == 0
  {
    FillGrows(EMPTY, fields, 0);
    forall i | 0 <= i < |fields|
      ensures fields[i].size <= Finished(Fill(EMPTY, fields)).size
    {
      FieldFits(EMPTY, fields, i);
    }
    if forall i :: 0 <= i < |fields| ==> fields[i].size == 0 {
      NothingPlaced(fields);
    }
  }

  lemma {:induction false} NothingPlaced(fields: seq<Layout>)
    requires AllValid(fields) && forall i :: 0 <= i < |fields| ==> fields[i].size == 0
    ensures Fill(EMPTY, fields).size == 0
    decreases |fields|
  {
    if fields != [] {
      NothingPlaced(fields[..|fields| - 1]);
    }
  }

  /** Types whose values are kept in a variable. */
  predicate IsScalar(t: Ty) {
    t.Unit? || (t.Prim? && !t.primitive.Text? && !t.primitive.IpAddr? && !t.primitive.Prefix?)
  }

  /** Where a whole variable is: nowhere if its type has no values, itself if it
      is a scalar or takes no bytes, and behind a pointer otherwise. */
  lemma {:induction false} LocationOfVariable(types: seq<Ty>, h: Host, root: TyRef, final: TyRef)
    requires PoolValid(types, h) && root < |types| && final < |types|
    ensures var l := LocationOf(types, h, root, [], final);
      if !CanExist(types, h, final) then l == Nowhere
      else if IsScalar(types[final]) || Weightless(types, h, final) then l == Variable
      else l == Pointer(0)
  {
    hide PoolValid, CanExist, Weightless, LayoutOf;
    LayoutMeansExistence(types, h, final);
    ReferencesAre(types, h, final);
    if CanExist(types, h, final) {
      WeightlessIsEmpty(types, h, final);
    }
  }

  /** The size of a scalar that takes bytes is its alignment. */
  lemma {:induction false} ScalarIsSquare(types: seq<Ty>, h: Host, ty: TyRef)
    requires PoolValid(types, h) && ty < |types| && IsScalar(types[ty])
    ensures var l := LayoutOf(types, h, ty);
      l.Some? && (l.value.size == l.value.align || l.value.size == 0)
  {
    ScalarLayouts(types, h, ty);
  }

  lemma {:induction false} ReferencesAre(types: seq<Ty>, h: Host, ty: TyRef)
    requires PoolValid(types, h) && ty < |types|
    ensures var l := LayoutOf(types, h, ty);
      IsReferenceType(types, h, ty) == if l.None? then None else Some(l.value.size > 0 && !IsScalar(types[ty]))
  {
    ScalarLayouts(types, h, ty);
  }

  /** Field i of a record, or of a variant, and everything before it can exist. */
  predicate ExistUpTo(types: seq<Ty>, h: Host, ty: TyRef, refs: seq<TyRef>, n: nat)
    requires PoolValid(types, h) && ty < |types| && Before(refs, ty)
  {
    forall i :: 0 <= i < n && i < |refs| ==> CanExist(types, h, refs[i])
  }

  /** When the projection to a field leads somewhere: if the record has the
      field, and it and everything before it can exist; otherwise the compiler
      panics. */
  lemma {:induction false} FieldIs(types: seq<Ty>, h: Host, ty: TyRef, name: Identifier)
    requires PoolValid(types, h) && ty < |types|
    ensures types[ty].Record? ==> Before(FieldTypes(types[ty].fields), ty)
    ensures var l := FieldAt(types, h, ty, name);
      && !l.Uninhabited?
      && (l.At? <==>
            && types[ty].Record?
            && var i := IndexOfName(types[ty].fields, name);
               i < |types[ty].fields| && ExistUpTo(types, h, ty, FieldTypes(types[ty].fields), i + 1))
  {
    hide PoolValid, LayoutOf, CanExist, OffsetOf;
    ChildrenBefore(types, h, ty);
    if types[ty].Record? {
      ChildrenKnown(types, h, ty);
      var refs := FieldTypes(types[ty].fields);
      var i := IndexOfName(types[ty].fields, name);
      if i < |refs| {
        PrefixExistence(types, h, ty, refs, i + 1);
      }
    }
  }

  lemma {:induction false} PrefixExistence(types: seq<Ty>, h: Host, ty: TyRef, refs: seq<TyRef>, n: nat)
    requires PoolValid(types, h) && ty < |types| && Before(refs, ty) && n <= |refs|
    ensures Known(types, refs) && (AllSome(LayoutsOf(types, h, refs[..n])) <==> ExistUpTo(types, h, ty, refs, n))
  {
    hide PoolValid, LayoutOf, CanExist;
    LayoutsMeanExistence(types, h, ty, refs[..n]);
    assert forall i :: 0 <= i < n ==> refs[..n][i] == refs[i];
  }

  /** When the projection to a field of a variant leads somewhere: if the enum
      has the variant, the variant has fields, and the field and everything
      before it can exist.  Otherwise, if the variant is there, it cannot exist;
      if not, or if it has no fields, the compiler panics. */
  lemma {:induction false} VariantFieldLeads(types: seq<Ty>, h: Host, ty: TyRef, variant: Identifier, n: nat)
    requires PoolValid(types, h) && ty < |types|
    ensures types[ty].Enum? ==> forall k :: 0 <= k < |types[ty].variants| ==> Before(types[ty].variants[k].1, ty)
    ensures var l := VariantFieldAt(types, h, ty, variant, n);
      if types[ty].Enum? && IndexOfName(types[ty].variants, variant) < |types[ty].variants| then
        var refs := types[ty].variants[IndexOfName(types[ty].variants, variant)].1;
        if !ExistUpTo(types, h, ty, refs, n + 1) then l == Uninhabited
        else if refs == [] then l == Ice
        else l.At?
      else l == Ice
  {
    hide PoolValid, LayoutOf, CanExist, OffsetOf;
    ChildrenBefore(types, h, ty);
    if types[ty].Enum? {
      ChildrenKnown(types, h, ty);
      var k := IndexOfName(types[ty].variants, variant);
      if k < |types[ty].variants| {
        var refs := types[ty].variants[k].1;
        PrefixExistence(types, h, ty, refs, Min(n + 1, |refs|));
      }
    }
  }

  // ------------------------------------------------------- places with paths

  /** A path that fits leads behind the pointer, aligned for the type it leads
      to, and with all its bytes inside the variable. */
  lemma {:induction false} LocationInside(types: seq<Ty>, h: Host, root: TyRef, path: seq<Projection>, final: TyRef)
    requires PoolValid(types, h) && root < |types| && final < |types| && LayoutOf(types, h, root).Some?
    requires path != [] && PathFits(types, h, root, path)
    ensures var l, ty := LocationOf(types, h, root, path, final), TypeAt(types, h, root, path);
      && l.Pointer? && ty.Some? && LayoutOf(types, h, ty.value).Some?
      && Inside(LayoutOf(types, h, root).value, l.offset, LayoutOf(types, h, ty.value).value)
  {
    hide PoolValid, LayoutOf, Locate, PathFits;
    PathInside(types, h, root, path);
  }

  /** Paths that part lead to bytes that do not overlap. */
  lemma {:induction false} LocationsApart(types: seq<Ty>, h: Host, root: TyRef, p: seq<Projection>, q: seq<Projection>,
      final: TyRef, other: TyRef)
    requires PoolValid(types, h) && root < |types| && LayoutOf(types, h, root).Some?
    requires final < |types| && other < |types|
    requires PathFits(types, h, root, p) && PathFits(types, h, root, q) && Part(p, q)
    ensures var l, m := LocationOf(types, h, root, p, final), LocationOf(types, h, root, q, other);
      && l.Pointer? && m.Pointer?
      && l.offset + SizeAt(types, h, root, p) <= LayoutOf(types, h, root).value.size
      && m.offset + SizeAt(types, h, root, q) <= LayoutOf(types, h, root).value.size
      && (l.offset + SizeAt(types, h, root, p) <= m.offset || m.offset + SizeAt(types, h, root, q) <= l.offset)
  {
    hide PoolValid, LayoutOf, Locate, PathFits;
    PathInside(types, h, root, p);
    PathInside(types, h, root, q);
    PathsApart(types, h, root, p, q);
  }

  /** The size of what a path leads to. */
  function SizeAt(types: seq<Ty>, h: Host, ty: TyRef, path: seq<Projection>): nat
    requires PoolValid(types, h) && ty < |types|
  {
    var t := TypeAt(types, h, ty, path);
    if t.Some? && LayoutOf(types, h, t.value).Some? then LayoutOf(types, h, t.value).value.size else 0
  }

  /** The distances of two paths in a row add up. */
  lemma {:induction false} LocationsAdd(types: seq<Ty>, h: Host, root: TyRef, p: seq<Projection>, q: seq<Projection>,
      final: TyRef)
    requires PoolValid(types, h) && root < |types| && final < |types| && LayoutOf(types, h, root).Some?
    requires p != [] && q != [] && PathFits(types, h, root, p + q)
    ensures PathFits(types, h, root, p) && TypeAt(types, h, root, p).Some?
    ensures var middle := TypeAt(types, h, root, p).value;
      && LocationOf(types, h, root, p, final).Pointer? && LocationOf(types, h, middle, q, final).Pointer?
      && LocationOf(types, h, root, p + q, final) == Pointer(LocationOf(types, h, root, p, final).offset
           + LocationOf(types, h, middle, q, final).offset)
  {
    hide PoolValid, LayoutOf, Locate, PathFits;
    PathInside(types, h, root, p + q);
    LocateJoin(types, h, root, p, q);
    PathInside(types, h, root, p);
    PathInside(types, h, Locate(types, h, root, p).ty, q);
  }

  /** A path that leads nowhere ends where its first step that leads nowhere
      does. */
  lemma {:induction false} LocationFails(types: seq<Ty>, h: Host, root: TyRef, p: seq<Projection>, step: Projection,
      q: seq<Projection>, final: TyRef)
    requires PoolValid(types, h) && root < |types| && final < |types|
    requires Locate(types, h, root, p).At? && !Project(types, h, Locate(types, h, root, p).ty, step).At?
    ensures TypeAt(types, h, root, p) == Some(Locate(types, h, root, p).ty)
    ensures LocationOf(types, h, root, p + [step] + q, final) ==
      if Project(types, h, Locate(types, h, root, p).ty, step).Uninhabited? then Nowhere else Panic
  {
    hide PoolValid, Project;
    PathType(types, h, root, p);
    assert p + [step] + q == p + ([step] + q);
    LocateFails(types, h, root, p, step, q);
  }

  lemma {:induction false} LocateFails(types: seq<Ty>, h: Host, root: TyRef, p: seq<Projection>, step: Projection,
      q: seq<Projection>)
    requires PoolValid(types, h) && root < |types|
    requires Locate(types, h, root, p).At? && !Project(types, h, Locate(types, h, root, p).ty, step).At?
    ensures Locate(types, h, root, p + ([step] + q)) == Project(types, h, Locate(types, h, root, p).ty, step)
    decreases |p|
  {
    hide PoolValid, Project;
    var path := p + ([step] + q);
    if p == [] {
      assert path[0] == step;
    } else {
      assert path[0] == p[0] && path[1..] == p[1..] + ([step] + q);
      LocateFails(types, h, Project(types, h, root, p[0]).ty, p[1..], step, q);
    }
  }

  /** What is written to where one path leads is read back from there, and what
      another one leads to stays as it was. */
  lemma {:induction false} WriteThroughPath(types: seq<Ty>, h: Host, root: TyRef,
      p: seq<Projection>, q: seq<Projection>, final: TyRef, other: TyRef, memory: Memory, data: seq<bv8>)
    requires PoolValid(types, h) && root < |types| && final < |types| && other < |types|
    requires LayoutOf(types, h, root).Some? && |memory| == LayoutOf(types, h, root).value.size
    requires PathFits(types, h, root, p) && PathFits(types, h, root, q) && Part(p, q)
    requires |data| == SizeAt(types, h, root, p)
    ensures var l, m := LocationOf(types, h, root, p, final), LocationOf(types, h, root, q, other);
      var n := SizeAt(types, h, root, q);
      && l.Pointer? && m.Pointer? && l.offset + |data| <= |memory| && m.offset + n <= |memory|
      && var after := Write(memory, l.offset, data);
      && |after| == |memory|
      && Read(after, l.offset, |data|) == data && Read(after, m.offset, n) == Read(memory, m.offset, n)
  {
    hide PoolValid, LayoutOf, PathFits, SizeAt, LocationOf;
    LocationsApart(types, h, root, p, q, final, other);
    WriteApart(memory, LocationOf(types, h, root, p, final).offset, data, LocationOf(types, h, root, q, other).offset,
      SizeAt(types, h, root, q));
  }
}

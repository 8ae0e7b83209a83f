/** Types of the MIR, their layouts (src/mir/ty.rs) and the places inside them
    (src/lir/lower.rs).  Layouts are computed in one part of the compiler and
    offsets recomputed in another; both agree. */
module Places {
  import opened Collections
  import opened Layouts

  type TyRef = nat

  type Identifier = string

  datatype IntKind = Unsigned | Signed

  datatype IntSize = I8 | I16 | I32 | I64

  datatype FloatSize = F32 | F64

  datatype Primitive = Int(kind: IntKind,
    size: IntSize) | Float(floatSize: FloatSize) | Text | Char | Bool | Asn | IpAddr | Prefix

  datatype Ty =
    | Unit
    | Never
    | Record(fields: seq<(Identifier, TyRef)>)
    | Enum(variants: seq<(Identifier, seq<TyRef>)>)
    | Prim(primitive: Primitive)
    | List(element: TyRef)
    | Runtime(id: nat)

  /** The layouts that come from the host language. */
  datatype Host = Host(text: Layout, ipAddr: Layout, prefix: Layout, list: Layout, runtime: map<nat, Layout>)

  predicate HostValid(h: Host) {
    && Valid(h.text) && Valid(h.ipAddr) && Valid(h.prefix) && Valid(h.list)
    && forall id :: id in h.runtime ==> Valid(h.runtime[id])
  }

  function Bytes(size: IntSize): nat {
    match size
    case I8 => 1
    case I16 => 2
    case I32 => 4
    case I64 => 8
  }

  function PrimitiveLayout(h: Host, p: Primitive): Layout {
    match p
    case Int(_, size) => Layout(Bytes(size), Bytes(size))
    case Float(F32) => Layout(4, 4)
    case Float(F64) => Layout(8, 8)
    case Bool => Layout(1, 1)
    case Char => Layout(4, 4)
    case Asn => Layout(4, 4)
    case Text => h.text
    case IpAddr => h.ipAddr
    case Prefix => h.prefix
  }

  // -------------------------------------------------------------------- pool

  function Children(t: Ty): set<TyRef> {
    match t
    case Record(fields) => set i | 0 <= i < |fields| :: fields[i].1
    case Enum(variants) => set i, k | 0 <= i < |variants| && 0 <= k < |variants[i].1| :: variants[i].1[k]
    case List(element) => {element}
    case _ => {}
  }

  /** Every type refers to earlier types of the pool only, no type occurs
      twice, and registered types are known. */
  ghost predicate PoolValid(types: seq<Ty>, h: Host) {
    && (forall i, c :: 0 <= i < |types| && c in Children(types[i]) ==> c < i)
    && (forall i, j :: 0 <= i < j < |types| ==> types[i] != types[j])
    && (forall i :: 0 <= i < |types| && types[i].Runtime? ==> types[i].id in h.runtime)
    && HostValid(h)
  }

  // ----------------------------------------------------------------- layouts

  function Values(ls: seq<Option<Layout>>): seq<Layout>
    requires forall i :: 0 <= i < |ls| ==> ls[i].Some?
  {
    seq(|ls|, i requires 0 <= i < |ls| => ls[i].value)
  }

  predicate AllSome(ls: seq<Option<Layout>>) {
    forall i :: 0 <= i < |ls| ==> ls[i].Some?
  }

  predicate Usable(ls: seq<Option<Layout>>) {
    forall i :: 0 <= i < |ls| && ls[i].Some? ==> Valid(ls[i].value)
  }

  /** The fields behind what is already in the builder; none, if one of them
      has no layout. */
  function Sized(b: Building, ls: seq<Option<Layout>>): (r: Option<Layout>)
    requires Sound(b) && Usable(ls)
    ensures r.Some? ==> Valid(r.value)
    ensures r.Some? <==> AllSome(ls)
  {
    if AllSome(ls) then
      FillGrows(b, Values(ls), 0);
      NextMultipleIsLeast(Fill(b, Values(ls)).size, Fill(b, Values(ls)).align);
      Some(Finished(Fill(b, Values(ls))))
    else None
  }

  /** The union of the variants that have a layout. */
  function UnionOf(vs: seq<Option<Layout>>): (r: Option<Layout>)
    requires Usable(vs)
    ensures r.Some? ==> Valid(r.value)
  {
    if vs == [] then None else
      var last := vs[|vs| - 1];
      var before := UnionOf(vs[..|vs| - 1]);
      if last.None? then before
      else if before.None? then last
      else
        UnionIsLeast(before.value, last.value);
        Some(Union(before.value, last.value))
  }

  function LayoutOf(types: seq<Ty>, h: Host, ty: TyRef): (r: Option<Layout>)
    requires PoolValid(types, h) && ty < |types|
    ensures r.Some? ==> Valid(r.value)
    decreases ty
  {
    match types[ty]
    case Never => None
    case Unit => Some(Layout(0, 1))
    case Prim(p) => Some(PrimitiveLayout(h, p))
    case Runtime(id) => Some(h.runtime[id])
    case Record(fields) =>
      Sized(EMPTY, seq(|fields|, i requires 0 <= i < |fields| =>
        assert fields[i].1 in Children(types[ty]);
        LayoutOf(types, h, fields[i].1)))
    case Enum(variants) =>
      UnionOf(seq(|variants|, k requires 0 <= k < |variants| =>
        Sized(TAGGED, seq(|variants[k].1|, i requires 0 <= i < |variants[k].1| =>
          assert variants[k].1[i] in Children(types[ty]);
          LayoutOf(types, h, variants[k].1[i])))))
    case List(_) => Some(h.list)
  }

  function FieldTypes(fields: seq<(Identifier, TyRef)>): seq<TyRef> {
    seq(|fields|, i requires 0 <= i < |fields| => fields[i].1)
  }

  predicate Known(types: seq<Ty>, refs: seq<TyRef>) {
    forall i :: 0 <= i < |refs| ==> refs[i] < |types|
  }

  function LayoutsOf(types: seq<Ty>, h: Host, refs: seq<TyRef>): (ls: seq<Option<Layout>>)
    requires PoolValid(types, h) && Known(types, refs)
    ensures |ls| == |refs| && Usable(ls)
    ensures forall i :: 0 <= i < |refs| ==> ls[i] == LayoutOf(types, h, refs[i])
  {
    seq(|refs|, i requires 0 <= i < |refs| => LayoutOf(types, h, refs[i]))
  }

  lemma {:induction false} ChildrenKnown(types: seq<Ty>, h: Host, ty: TyRef)
    requires PoolValid(types, h) && ty < |types|
    ensures types[ty].Record? ==> Known(types, FieldTypes(types[ty].fields))
    ensures types[ty].Enum? ==> forall k :: 0 <= k < |types[ty].variants| ==> Known(types, types[ty].variants[k].1)
  {
    match types[ty]
    case Record(fields) =>
      forall i | 0 <= i < |fields|
        ensures fields[i].1 < |types|
      {
        assert fields[i].1 in Children(types[ty]);
      }
    case Enum(variants) =>
      forall k, i | 0 <= k < |variants| && 0 <= i < |variants[k].1|
        ensures variants[k].1[i] < |types|
      {
        assert variants[k].1[i] in Children(types[ty]);
      }
    case _ =>
  }

  lemma {:induction false} LayoutOfRecord(types: seq<Ty>, h: Host, ty: TyRef)
    requires PoolValid(types, h) && ty < |types| && types[ty].Record?
    ensures Known(types, FieldTypes(types[ty].fields))
    ensures LayoutOf(types, h, ty) == Sized(EMPTY, LayoutsOf(types, h, FieldTypes(types[ty].fields)))
  {
    ChildrenKnown(types, h, ty);
    var fields := types[ty].fields;
    assert seq(|fields|, i requires 0 <= i < |fields| =>
        assert fields[i].1 in Children(types[ty]);
        LayoutOf(types, h, fields[i].1)) == LayoutsOf(types, h, FieldTypes(fields));
  }

  /** The layout of one variant, tag included. */
  function VariantLayout(types: seq<Ty>, h: Host, refs: seq<TyRef>): Option<Layout>
    requires PoolValid(types, h) && Known(types, refs)
  {
    Sized(TAGGED, LayoutsOf(types, h, refs))
  }

  function VariantLayouts(types: seq<Ty>, h: Host, variants: seq<(Identifier, seq<TyRef>)>): (vs: seq<Option<Layout>>)
    requires PoolValid(types, h) && forall k :: 0 <= k < |variants| ==> Known(types, variants[k].1)
    ensures |vs| == |variants| && Usable(vs)
    ensures forall k :: 0 <= k < |variants| ==> vs[k] == VariantLayout(types, h, variants[k].1)
  {
    seq(|variants|, k requires 0 <= k < |variants| => VariantLayout(types, h, variants[k].1))
  }

  lemma {:induction false} LayoutOfEnum(types: seq<Ty>, h: Host, ty: TyRef)
    requires PoolValid(types, h) && ty < |types| && types[ty].Enum?
    ensures forall k :: 0 <= k < |types[ty].variants| ==> Known(types, types[ty].variants[k].1)
    ensures LayoutOf(types, h, ty) == UnionOf(VariantLayouts(types, h, types[ty].variants))
  {
    ChildrenKnown(types, h, ty);
    var variants := types[ty].variants;
    forall k | 0 <= k < |variants|
      ensures seq(|variants[k].1|, i requires 0 <= i < |variants[k].1| =>
        assert variants[k].1[i] in Children(types[ty]);
        LayoutOf(types, h, variants[k].1[i])) == LayoutsOf(types, h, variants[k].1)
    {
    }
    assert seq(|variants|, k requires 0 <= k < |variants| =>
        Sized(TAGGED, seq(|variants[k].1|, i requires 0 <= i < |variants[k].1| =>
          assert variants[k].1[i] in Children(types[ty]);
          LayoutOf(types, h, variants[k].1[i])))) == VariantLayouts(types, h, variants);
  }

  // ------------------------------------------------------------------ places

  datatype Projection = Field(name: Identifier) | VariantField(variant: Identifier, index: nat)

  /** Where a projection leads; Ice stands for a panic of the compiler. */
  datatype Located = At(offset: nat, ty: TyRef) | Uninhabited | Ice

  function IndexOfName<T>(entries: seq<(Identifier, T)>, name: Identifier): (i: nat)
    ensures i <= |entries|
    ensures i < |entries| ==> entries[i].0 == name
    ensures forall k :: 0 <= k < i ==> entries[k].0 != name
  {
    if entries == [] || entries[0].0 == name then 0 else
      var i := IndexOfName(entries[1..], name);
      assert forall k :: 1 <= k < |entries| ==> entries[1..][k - 1] == entries[k];
      i + 1
  }

  function FieldAt(types: seq<Ty>, h: Host, ty: TyRef, name: Identifier): (l: Located)
    requires PoolValid(types, h) && ty < |types|
    ensures l.At? ==> l.ty < |types|
  {
    if !types[ty].Record? then Ice else
      ChildrenKnown(types, h, ty);
      var refs := FieldTypes(types[ty].fields);
      var i := IndexOfName(types[ty].fields, name);
      if i == |refs| then Ice else
        var ls := LayoutsOf(types, h, refs[..i + 1]);
        if AllSome(ls) then At(OffsetOf(EMPTY, Values(ls), i), refs[i]) else Ice
  }

  function Min(a: nat, b: nat): nat {
    if a < b then a else b
  }

  /** The place of the last of some fields. */
  function LastPlace(b: Building, ls: seq<Option<Layout>>, refs: seq<TyRef>): Located
    requires Usable(ls) && |ls| == |refs|
  {
    if !AllSome(ls) then Uninhabited
    else if refs == [] then Ice
    else At(OffsetOf(b, Values(ls), |refs| - 1), refs[|refs| - 1])
  }

  function VariantFieldAt(types: seq<Ty>, h: Host, ty: TyRef, variant: Identifier, n: nat): (l: Located)
    requires PoolValid(types, h) && ty < |types|
    ensures l.At? ==> l.ty < |types|
  {
    if !types[ty].Enum? then Ice else
      ChildrenKnown(types, h, ty);
      var k := IndexOfName(types[ty].variants, variant);
      if k == |types[ty].variants| then Ice else
        var refs := types[ty].variants[k].1;
        var m := Min(n + 1, |refs|);
        LastPlace(TAGGED, LayoutsOf(types, h, refs[..m]), refs[..m])
  }

  function Project(types: seq<Ty>, h: Host, ty: TyRef, p: Projection): (l: Located)
    requires PoolValid(types, h) && ty < |types|
    ensures l.At? ==> l.ty < |types|
  {
    match p
    case Field(name) => FieldAt(types, h, ty, name)
    case VariantField(variant, index) => VariantFieldAt(types, h, ty, variant, index)
  }

  /** The type of what a projection names: the first field of this name; of the
      first variant of this name the field with this index, or the last one. */
  function FieldTypeOf(types: seq<Ty>, h: Host, ty: TyRef, p: Projection): (r: Option<TyRef>)
    requires PoolValid(types, h) && ty < |types|
    ensures r.Some? ==> r.value < |types|
  {
    ChildrenKnown(types, h, ty);
    match p
    case Field(name) =>
      if !types[ty].Record? then None else
        var refs := FieldTypes(types[ty].fields);
        var i := IndexOfName(types[ty].fields, name);
        if i < |refs| then Some(refs[i]) else None
    case VariantField(variant, index) =>
      if !types[ty].Enum? then None else
        var k := IndexOfName(types[ty].variants, variant);
        if k == |types[ty].variants| then None else
          var refs := types[ty].variants[k].1;
          if refs == [] then None else Some(refs[Min(index, |refs| - 1)])
  }

  /** The type of what a path leads to. */
  function TypeAt(types: seq<Ty>, h: Host, ty: TyRef, path: seq<Projection>): (r: Option<TyRef>)
    requires PoolValid(types, h) && ty < |types|
    ensures r.Some? ==> r.value < |types|
    decreases |path|
  {
    if path == [] then Some(ty) else
      var next := FieldTypeOf(types, h, ty, path[0]);
      if next.None? then None else TypeAt(types, h, next.value, path[1..])
  }

  function Locate(types: seq<Ty>, h: Host, ty: TyRef, path: seq<Projection>): (l: Located)
    requires PoolValid(types, h) && ty < |types|
    ensures l.At? ==> l.ty < |types|
    decreases |path|
  {
    if path == [] then At(0, ty) else
      var step := Project(types, h, ty, path[0]);
      if !step.At? then step else
        var rest := Locate(types, h, step.ty, path[1..]);
        if rest.At? then At(step.offset + rest.offset, rest.ty) else rest
  }

  /** How many fields come before the first one that cannot exist. */
  function Existing(ls: seq<Option<Layout>>): (n: nat)
    ensures n <= |ls| && AllSome(ls[..n]) && (n < |ls| ==> ls[n].None?)
  {
    if ls == [] || ls[0].None? then 0 else
      var n := 1 + Existing(ls[1..]);
      assert ls[..n] == [ls[0]] + ls[1..][..n - 1];
      n
  }

  /** The layout of a variant, tag included, up to the first field that cannot
      exist: the whole of it, if every field can. */
  function ExistingLayout(types: seq<Ty>, h: Host, refs: seq<TyRef>): (l: Layout)
    requires PoolValid(types, h) && Known(types, refs)
    ensures Valid(l)
  {
    var ls := LayoutsOf(types, h, refs);
    Sized(TAGGED, ls[..Existing(ls)]).value
  }

  /** The projection leads to a field that can exist, and the enum has room for
      what exists of the variant. */
  predicate StepFits(types: seq<Ty>, h: Host, ty: TyRef, p: Projection)
    requires PoolValid(types, h) && ty < |types|
  {
    match p
    case Field(name) => types[ty].Record? && IndexOfName(types[ty].fields, name) < |types[ty].fields|
    case VariantField(variant, index) =>
      && types[ty].Enum?
      && var k := IndexOfName(types[ty].variants, variant);
      && k < |types[ty].variants|
      && (ChildrenKnown(types, h, ty);
          var refs := types[ty].variants[k].1;
          && index < Existing(LayoutsOf(types, h, refs))
          && LayoutOf(types, h, ty).Some? && Covers(LayoutOf(types, h, ty).value, ExistingLayout(types, h, refs)))
  }

  predicate PathFits(types: seq<Ty>, h: Host, ty: TyRef, path: seq<Projection>)
    requires PoolValid(types, h) && ty < |types|
    decreases |path|
  {
    path != [] ==>
      && StepFits(types, h, ty, path[0])
      && var next := FieldTypeOf(types, h, ty, path[0]);
         next.Some? && PathFits(types, h, next.value, path[1..])
  }

  /** A layout inside another one. */
  predicate Inside(outer: Layout, offset: nat, inner: Layout) {
    inner.align > 0 && offset % inner.align == 0 && offset + inner.size <= outer.size && outer.align % inner.align == 0
  }

  lemma {:induction false} PrefixOffset(b: Building, ls: seq<Option<Layout>>, i: nat)
    requires AllSome(ls) && Usable(ls) && i < |ls|
    ensures AllSome(ls[..i + 1]) && OffsetOf(b, Values(ls[..i + 1]), i) == OffsetOf(b, Values(ls), i)
  {
    assert Values(ls[..i + 1])[..i] == Values(ls)[..i];
  }

  /** Each variant lies inside the union. */
  lemma {:induction false} UnionCovers(vs: seq<Option<Layout>>, k: nat)
    requires Usable(vs) && k < |vs| && vs[k].Some?
    ensures UnionOf(vs).Some? && Covers(UnionOf(vs).value, vs[k].value)
    decreases |vs|
  {
    var n := |vs| - 1;
    if k == n {
      CoversItself(vs[k].value);
      if UnionOf(vs[..n]).Some? {
        UnionIsLeast(UnionOf(vs[..n]).value, vs[n].value);
      }
    } else {
      UnionCovers(vs[..n], k);
      if vs[n].Some? {
        UnionIsLeast(UnionOf(vs[..n]).value, vs[n].value);
        CoversThrough(UnionOf(vs).value, UnionOf(vs[..n]).value, vs[k].value);
      }
    }
  }

  lemma {:induction false} CoversItself(l: Layout)
    requires Valid(l)
    ensures Covers(l, l)
  {
    MultipleDivides(1, l.align);
  }

  /** The projection names something, and not inside an uninhabited variant. */
  predicate StepInhabited(types: seq<Ty>, h: Host, ty: TyRef, p: Projection)
    requires PoolValid(types, h) && ty < |types|
  {
    match p
    case Field(name) => types[ty].Record? && IndexOfName(types[ty].fields, name) < |types[ty].fields|
    case VariantField(variant, index) =>
      && types[ty].Enum?
      && var k := IndexOfName(types[ty].variants, variant);
      && k < |types[ty].variants| && index < |types[ty].variants[k].1|
      && (ChildrenKnown(types, h, ty); AllSome(LayoutsOf(types, h, types[ty].variants[k].1)))
  }

  /** The layout of an enum covers every variant that can exist. */
  lemma {:induction false} InhabitedFits(types: seq<Ty>, h: Host, ty: TyRef, p: Projection)
    requires PoolValid(types, h) && ty < |types| && LayoutOf(types, h, ty).Some? && StepInhabited(types, h, ty, p)
    ensures StepFits(types, h, ty, p)
  {
    hide PoolValid, LayoutOf, UnionOf, Sized, Existing, Covers;
    if p.VariantField? {
      LayoutOfEnum(types, h, ty);
      var k := IndexOfName(types[ty].variants, p.variant);
      var ls := LayoutsOf(types, h, types[ty].variants[k].1);
      PrefixExists(ls, |ls|);
      assert ls[..|ls|] == ls;
      UnionCovers(VariantLayouts(types, h, types[ty].variants), k);
    }
  }

  /** A projection that leads somewhere leads to what it names. */
  lemma {:induction false} StepType(types: seq<Ty>, h: Host, ty: TyRef, p: Projection)
    requires PoolValid(types, h) && ty < |types| && Project(types, h, ty, p).At?
    ensures FieldTypeOf(types, h, ty, p) == Some(Project(types, h, ty, p).ty)
  {
    hide PoolValid, LayoutsOf, OffsetOf;
    ChildrenKnown(types, h, ty);
  }

  lemma {:induction false} PathType(types: seq<Ty>, h: Host, ty: TyRef, path: seq<Projection>)
    requires PoolValid(types, h) && ty < |types| && Locate(types, h, ty, path).At?
    ensures TypeAt(types, h, ty, path) == Some(Locate(types, h, ty, path).ty)
    decreases |path|
  {
    hide PoolValid, Project, FieldTypeOf;
    if path != [] {
      StepType(types, h, ty, path[0]);
      PathType(types, h, Project(types, h, ty, path[0]).ty, path[1..]);
    }
  }

  /** One projection stays inside the type it projects from. */
  lemma {:induction false} StepInside(types: seq<Ty>, h: Host, ty: TyRef, p: Projection)
    requires PoolValid(types, h) && ty < |types| && LayoutOf(types, h, ty).Some?
    requires StepFits(types, h, ty, p)
    ensures var step := Project(types, h, ty, p);
      && step.At? && FieldTypeOf(types, h, ty, p) == Some(step.ty) && LayoutOf(types, h, step.ty).Some?
      && Inside(LayoutOf(types, h, ty).value, step.offset, LayoutOf(types, h, step.ty).value)
      && (p.VariantField? ==> step.offset >= 1)
  {
    if p.Field? {
      FieldStepInside(types, h, ty, p.name);
    } else {
      VariantStepInside(types, h, ty, p.variant, p.index);
    }
    StepType(types, h, ty, p);
  }

  lemma {:induction false} FieldStepInside(types: seq<Ty>, h: Host, ty: TyRef, name: Identifier)
    requires PoolValid(types, h) && ty < |types| && LayoutOf(types, h, ty).Some?
    requires StepFits(types, h, ty, Field(name))
    ensures var step := FieldAt(types, h, ty, name);
      && step.At? && LayoutOf(types, h, step.ty).Some?
      && Inside(LayoutOf(types, h, ty).value, step.offset, LayoutOf(types, h, step.ty).value)
  {
    hide PoolValid, LayoutOf, OffsetOf, Inside;
    LayoutOfRecord(types, h, ty);
    FieldInside(types, h, FieldTypes(types[ty].fields), EMPTY, IndexOfName(types[ty].fields, name));
  }

  lemma {:induction false} VariantStepInside(types: seq<Ty>, h: Host, ty: TyRef, variant: Identifier, index: nat)
    requires PoolValid(types, h) && ty < |types| && LayoutOf(types, h, ty).Some?
    requires StepFits(types, h, ty, VariantField(variant, index))
    ensures var step := VariantFieldAt(types, h, ty, variant, index);
      && step.At? && LayoutOf(types, h, step.ty).Some? && step.offset >= 1
      && Inside(LayoutOf(types, h, ty).value, step.offset, LayoutOf(types, h, step.ty).value)
  {
    hide PoolValid, LayoutOf, OffsetOf, UnionOf, Sized, Valid;
    ChildrenKnown(types, h, ty);
    var refs := types[ty].variants[IndexOfName(types[ty].variants, variant)].1;
    ExistingInside(types, h, refs, index);
    var inner := LayoutOf(types, h, refs[index]).value;
    DividesThrough(inner.align, ExistingLayout(types, h, refs).align, LayoutOf(types, h, ty).value.align);
  }

  /** The place of a field that can exist, inside what exists of the variant. */
  lemma {:induction false} ExistingInside(types: seq<Ty>, h: Host, refs: seq<TyRef>, i: nat)
    requires PoolValid(types, h) && Known(types, refs) && i < Existing(LayoutsOf(types, h, refs))
    ensures var ls := LayoutsOf(types, h, refs[..i + 1]);
      && AllSome(ls) && LayoutOf(types, h, refs[i]).Some? && OffsetOf(TAGGED, Values(ls), i) >= 1
      && Inside(ExistingLayout(types, h, refs), OffsetOf(TAGGED, Values(ls), i), LayoutOf(types, h, refs[i]).value)
  {
    hide PoolValid, LayoutOf, OffsetOf, Inside, Existing;
    var ls := LayoutsOf(types, h, refs);
    var n := Existing(ls);
    assert LayoutsOf(types, h, refs[..n]) == ls[..n];
    FieldInside(types, h, refs[..n], TAGGED, i);
    assert refs[..n][..i + 1] == refs[..i + 1];
  }

  lemma {:induction false} FieldInside(types: seq<Ty>, h: Host, refs: seq<TyRef>, b: Building, i: nat)
    requires PoolValid(types, h) && Known(types, refs) && Sound(b) && i < |refs|
    requires AllSome(LayoutsOf(types, h, refs))
    ensures var ls := LayoutsOf(types, h, refs[..i + 1]);
      && AllSome(ls) && Sized(b, LayoutsOf(types, h, refs)).Some?
      && Inside(Sized(b, LayoutsOf(types, h, refs)).value, OffsetOf(b, Values(ls), i),
        LayoutOf(types, h, refs[i]).value)
      && OffsetOf(b, Values(ls), i) >= b.size
      && OffsetOf(b, Values(ls), i) == OffsetOf(b, Values(LayoutsOf(types, h, refs)), i)
  {
    var ls := LayoutsOf(types, h, refs);
    assert LayoutsOf(types, h, refs[..i + 1]) == ls[..i + 1];
    PrefixOffset(b, ls, i);
    FieldFits(b, Values(ls), i);
  }

  /** Every such place is aligned and lies inside its root. */
  lemma {:induction false} PathInside(types: seq<Ty>, h: Host, ty: TyRef, path: seq<Projection>)
    requires PoolValid(types, h) && ty < |types| && LayoutOf(types, h, ty).Some?
    requires PathFits(types, h, ty, path)
    ensures var l := Locate(types, h, ty, path);
      && l.At? && TypeAt(types, h, ty, path) == Some(l.ty) && LayoutOf(types, h, l.ty).Some?
      && Inside(LayoutOf(types, h, ty).value, l.offset, LayoutOf(types, h, l.ty).value)
    decreases |path|
  {
    hide LayoutOf, Project, StepFits, PoolValid, IsPowerOfTwo, FieldTypeOf;
    if path == [] {
      CoversItself(LayoutOf(types, h, ty).value);
    } else {
      StepInside(types, h, ty, path[0]);
      var step := Project(types, h, ty, path[0]);
      PathInside(types, h, step.ty, path[1..]);
      var rest := Locate(types, h, step.ty, path[1..]);
      InsideThrough(LayoutOf(types, h, ty).value, step.offset, LayoutOf(types, h, step.ty).value, rest.offset,
        LayoutOf(types, h, rest.ty).value);
    }
  }

  lemma {:induction false} InsideThrough(a: Layout, i: nat, b: Layout, j: nat, c: Layout)
    requires Valid(a) && Valid(b) && Valid(c) && Inside(a, i, b) && Inside(b, j, c)
    ensures Inside(a, i + j, c)
  {
    DividesThrough(c.align, b.align, a.align);
    DividesThrough(c.align, b.align, i);
    MultiplesAdd(i, j, c.align);
  }

  // ---------------------------------------------------------------- overlaps

  /** Two paths that part at different fields of one record or of one variant. */
  predicate Part(p: seq<Projection>, q: seq<Projection>) {
    && p != [] && q != []
    && if p[0] == q[0] then Part(p[1..], q[1..])
       else (p[0].Field? && q[0].Field?) || (p[0].VariantField? && q[0].VariantField? && p[0].variant == q[0].variant)
  }

  predicate Disjoint(i: nat, a: Layout, j: nat, b: Layout) {
    i + a.size <= j || j + b.size <= i
  }

  lemma {:induction false} StepsApart(types: seq<Ty>, h: Host, ty: TyRef, p: Projection, q: Projection)
    requires PoolValid(types, h) && ty < |types| && LayoutOf(types, h, ty).Some?
    requires StepFits(types, h, ty, p) && StepFits(types, h, ty, q)
    requires p != q && ((p.Field? && q.Field?) || (p.VariantField? && q.VariantField? && p.variant == q.variant))
    ensures var s, t := Project(types, h, ty, p), Project(types, h, ty, q);
      && s.At? && t.At? && LayoutOf(types, h, s.ty).Some? && LayoutOf(types, h, t.ty).Some?
      && Disjoint(s.offset, LayoutOf(types, h, s.ty).value, t.offset, LayoutOf(types, h, t.ty).value)
  {
    if p.Field? {
      FieldsPart(types, h, ty, p.name, q.name);
    } else {
      VariantFieldsPart(types, h, ty, p.variant, p.index, q.index);
    }
  }

  lemma {:induction false} FieldsPart(types: seq<Ty>, h: Host, ty: TyRef, f: Identifier, g: Identifier)
    requires PoolValid(types, h) && ty < |types| && LayoutOf(types, h, ty).Some? && f != g
    requires StepFits(types, h, ty, Field(f)) && StepFits(types, h, ty, Field(g))
    ensures var s, t := FieldAt(types, h, ty, f), FieldAt(types, h, ty, g);
      && s.At? && t.At? && LayoutOf(types, h, s.ty).Some? && LayoutOf(types, h, t.ty).Some?
      && Disjoint(s.offset, LayoutOf(types, h, s.ty).value, t.offset, LayoutOf(types, h, t.ty).value)
  {
    hide PoolValid, LayoutOf, OffsetOf;
    LayoutOfRecord(types, h, ty);
    var refs, fields := FieldTypes(types[ty].fields), types[ty].fields;
    RefsApart(types, h, refs, EMPTY, IndexOfName(fields, f), IndexOfName(fields, g));
  }

  lemma {:induction false} VariantFieldsPart(types: seq<Ty>, h: Host, ty: TyRef, variant: Identifier, i: nat, j: nat)
    requires PoolValid(types, h) && ty < |types| && i != j
    requires StepFits(types, h, ty, VariantField(variant, i)) && StepFits(types, h, ty, VariantField(variant, j))
    ensures var s, t := VariantFieldAt(types, h, ty, variant, i), VariantFieldAt(types, h, ty, variant, j);
      && s.At? && t.At? && LayoutOf(types, h, s.ty).Some? && LayoutOf(types, h, t.ty).Some?
      && Disjoint(s.offset, LayoutOf(types, h, s.ty).value, t.offset, LayoutOf(types, h, t.ty).value)
  {
    hide PoolValid, LayoutOf, OffsetOf, Existing;
    ChildrenKnown(types, h, ty);
    var refs := types[ty].variants[IndexOfName(types[ty].variants, variant)].1;
    var ls := LayoutsOf(types, h, refs);
    var n := Existing(ls);
    assert LayoutsOf(types, h, refs[..n]) == ls[..n];
    RefsApart(types, h, refs[..n], TAGGED, i, j);
    assert refs[..n][..i + 1] == refs[..i + 1] && refs[..n][..j + 1] == refs[..j + 1];
  }

  lemma {:induction false} RefsApart(types: seq<Ty>, h: Host, refs: seq<TyRef>, b: Building, i: nat, j: nat)
    requires PoolValid(types, h) && Known(types, refs) && Sound(b) && i < |refs| && j < |refs| && i != j
    requires AllSome(LayoutsOf(types, h, refs))
    ensures var ls, ms := LayoutsOf(types, h, refs[..i + 1]), LayoutsOf(types, h, refs[..j + 1]);
      && AllSome(ls) && AllSome(ms)
      && Disjoint(OffsetOf(b, Values(ls), i), LayoutOf(types, h, refs[i]).value, OffsetOf(b, Values(ms), j),
        LayoutOf(types, h, refs[j]).value)
  {
    FieldInside(types, h, refs, b, i);
    FieldInside(types, h, refs, b, j);
    var all := Values(LayoutsOf(types, h, refs));
    if i < j { FieldsApart(b, all, i, j); } else { FieldsApart(b, all, j, i); }
  }

  /** The bytes of two such places never overlap. */
  lemma {:induction false} PathsApart(types: seq<Ty>, h: Host, ty: TyRef, p: seq<Projection>, q: seq<Projection>)
    requires PoolValid(types, h) && ty < |types| && LayoutOf(types, h, ty).Some?
    requires PathFits(types, h, ty, p) && PathFits(types, h, ty, q) && Part(p, q)
    ensures var l, m := Locate(types, h, ty, p), Locate(types, h, ty, q);
      && l.At? && m.At? && LayoutOf(types, h, l.ty).Some? && LayoutOf(types, h, m.ty).Some?
      && Disjoint(l.offset, LayoutOf(types, h, l.ty).value, m.offset, LayoutOf(types, h, m.ty).value)
    decreases |p|
  {
    StepInside(types, h, ty, p[0]);
    StepInside(types, h, ty, q[0]);
    var s, t := Project(types, h, ty, p[0]), Project(types, h, ty, q[0]);
    PathInside(types, h, s.ty, p[1..]);
    PathInside(types, h, t.ty, q[1..]);
    if p[0] == q[0] {
      PathsApart(types, h, s.ty, p[1..], q[1..]);
    } else {
      StepsApart(types, h, ty, p[0], q[0]);
    }
  }

  lemma {:induction false} LocateJoin(types: seq<Ty>, h: Host, ty: TyRef, p: seq<Projection>, q: seq<Projection>)
    requires PoolValid(types, h) && ty < |types| && LayoutOf(types, h, ty).Some? && PathFits(types, h, ty, p + q)
    ensures PathFits(types, h, ty, p) && Locate(types, h, ty, p).At?
    ensures var l := Locate(types, h, ty, p);
      var m := Locate(types, h, l.ty, q);
      PathFits(types, h, l.ty, q) && Locate(types, h, ty, p + q) == if m.At? then At(l.offset + m.offset, m.ty) else m
    decreases |p|
  {
    hide PoolValid, LayoutOf, Project, StepFits, FieldTypeOf;
    if p == [] {
      assert p + q == q;
    } else {
      StepInside(types, h, ty, (p + q)[0]);
      assert (p + q)[0] == p[0] && (p + q)[1..] == p[1..] + q;
      LocateJoin(types, h, Project(types, h, ty, p[0]).ty, p[1..], q);
    }
  }

  /** The tag of an enum is one byte at its start; no field of a variant covers
      it. */
  lemma {:induction false} TagIsApart(types: seq<Ty>, h: Host, ty: TyRef, p: seq<Projection>, q: seq<Projection>)
    requires PoolValid(types, h) && ty < |types| && LayoutOf(types, h, ty).Some?
    requires PathFits(types, h, ty, p + q) && q != [] && q[0].VariantField?
    ensures var e, l := Locate(types, h, ty, p), Locate(types, h, ty, p + q);
      && e.At? && types[e.ty].Enum? && l.At?
      && e.offset + 1 <= l.offset && e.offset + 1 <= LayoutOf(types, h, ty).value.size
  {
    LocateJoin(types, h, ty, p, q);
    var e := Locate(types, h, ty, p);
    PathInside(types, h, ty, p);
    StepInside(types, h, e.ty, q[0]);
    PathInside(types, h, e.ty, q);
    PathInside(types, h, ty, p + q);
  }

  // ------------------------------------------------------------------ memory

  type Memory = seq<bv8>

  function Write(memory: Memory, at: nat, data: seq<bv8>): Memory
    requires at + |data| <= |memory|
  {
    memory[..at] + data + memory[at + |data|..]
  }

  function Read(memory: Memory, at: nat, n: nat): seq<bv8>
    requires at + n <= |memory|
  {
    memory[at..at + n]
  }

  lemma {:induction false} WriteApart(memory: Memory, at: nat, data: seq<bv8>, from: nat, n: nat)
    requires at + |data| <= |memory| && from + n <= |memory|
    requires from + n <= at || at + |data| <= from
    ensures |Write(memory, at, data)| == |memory|
    ensures Read(Write(memory, at, data), from, n) == Read(memory, from, n)
    ensures Read(Write(memory, at, data), at, |data|) == data
  {
  }

  // ---------------------------------------- fields of uninhabited variants

  /** Every place in a variant lies inside the enum, if it has one. */
  ghost predicate VariantInside(types: seq<Ty>, h: Host, ty: TyRef, variant: Identifier)
    requires PoolValid(types, h) && ty < |types| && LayoutOf(types, h, ty).Some?
  {
    forall index: nat :: FieldIsInside(types, h, ty, variant, index)
  }

  predicate FieldIsInside(types: seq<Ty>, h: Host, ty: TyRef, variant: Identifier, index: nat)
    requires PoolValid(types, h) && ty < |types| && LayoutOf(types, h, ty).Some?
  {
    var l := VariantFieldAt(types, h, ty, variant, index);
    l.At? ==>
      LayoutOf(types, h, l.ty).Some? && Inside(LayoutOf(types, h, ty).value, l.offset, LayoutOf(types, h, l.ty).value)
  }

  /** The places of a variant lie inside its enum if and only if the layout of
      the enum covers what exists of the variant. */
  lemma {:induction false} VariantIsInside(types: seq<Ty>, h: Host, ty: TyRef, variant: Identifier)
    requires PoolValid(types, h) && ty < |types| && LayoutOf(types, h, ty).Some? && types[ty].Enum?
    requires IndexOfName(types[ty].variants, variant) < |types[ty].variants|
    ensures var refs := types[ty].variants[IndexOfName(types[ty].variants, variant)].1;
      && Known(types, refs)
      && (VariantInside(types, h, ty, variant) <==>
        Covers(LayoutOf(types, h, ty).value, ExistingLayout(types, h, refs)))
  {
    hide PoolValid, LayoutOf, VariantFieldAt, ExistingLayout, Inside, Existing;
    ChildrenKnown(types, h, ty);
    var refs := types[ty].variants[IndexOfName(types[ty].variants, variant)].1;
    var outer := LayoutOf(types, h, ty).value;
    if Covers(outer, ExistingLayout(types, h, refs)) {
      forall index: nat
        ensures FieldIsInside(types, h, ty, variant, index)
      {
        CoveredIsInside(types, h, ty, variant, refs, index);
      }
    }
    if VariantInside(types, h, ty, variant) {
      var n := Existing(LayoutsOf(types, h, refs));
      forall i | 0 <= i < n
        ensures ExistingIsInside(types, h, refs, outer, i)
      {
        assert FieldIsInside(types, h, ty, variant, i);
        InsideExists(types, h, ty, variant, refs, i);
      }
      EnumHasTag(types, h, ty);
      InsideIsCovered(types, h, refs, outer);
    }
  }

  /** Field i of a variant, which can exist, lies inside a layout. */
  predicate ExistingIsInside(types: seq<Ty>, h: Host, refs: seq<TyRef>, outer: Layout, i: nat)
    requires PoolValid(types, h) && Known(types, refs) && i < Existing(LayoutsOf(types, h, refs))
  {
    var ls := LayoutsOf(types, h, refs);
    var existing := ls[..Existing(ls)];
    Inside(outer, OffsetOf(TAGGED, Values(existing), i), existing[i].value)
  }

  /** The place of a field that can exist. */
  function ExistingField(types: seq<Ty>, h: Host, refs: seq<TyRef>, i: nat): Located
    requires PoolValid(types, h) && Known(types, refs) && i < Existing(LayoutsOf(types, h, refs))
  {
    var ls := LayoutsOf(types, h, refs);
    PrefixExists(ls, i + 1);
    At(OffsetOf(TAGGED, Values(ls[..i + 1]), i), refs[i])
  }

  /** Where a field of a variant is: nowhere behind one that cannot exist, and
      with an index behind the last field at the last field. */
  lemma {:induction false} VariantFieldIs(types: seq<Ty>, h: Host, ty: TyRef, variant: Identifier,
      refs: seq<TyRef>, index: nat)
    requires PoolValid(types, h) && ty < |types| && types[ty].Enum?
    requires IndexOfName(types[ty].variants, variant) < |types[ty].variants|
    requires refs == types[ty].variants[IndexOfName(types[ty].variants, variant)].1 && Known(types, refs)
    ensures var l := VariantFieldAt(types, h, ty, variant, index);
      var i := if index < |refs| then index else |refs| - 1;
      && (l.At? <==> 0 <= i < Existing(LayoutsOf(types, h, refs)))
      && (l.At? ==> l == ExistingField(types, h, refs, i))
  {
    hide PoolValid, LayoutOf, OffsetOf;
    var ls := LayoutsOf(types, h, refs);
    var m := Min(index + 1, |refs|);
    assert LayoutsOf(types, h, refs[..m]) == ls[..m];
    PrefixExists(ls, m);
  }

  lemma {:induction false} PrefixExists(ls: seq<Option<Layout>>, m: nat)
    requires m <= |ls|
    ensures AllSome(ls[..m]) <==> m <= Existing(ls)
  {
    var n := Existing(ls);
    if n < m {
      assert ls[..m][n].None?;
    } else {
      assert forall i :: 0 <= i < m ==> ls[..m][i] == ls[..n][i];
    }
  }

  lemma {:induction false} CoveredIsInside(types: seq<Ty>, h: Host, ty: TyRef, variant: Identifier,
      refs: seq<TyRef>, index: nat)
    requires PoolValid(types, h) && ty < |types| && LayoutOf(types, h, ty).Some? && types[ty].Enum?
    requires IndexOfName(types[ty].variants, variant) < |types[ty].variants|
    requires refs == types[ty].variants[IndexOfName(types[ty].variants, variant)].1 && Known(types, refs)
    requires Covers(LayoutOf(types, h, ty).value, ExistingLayout(types, h, refs))
    ensures FieldIsInside(types, h, ty, variant, index)
  {
    hide PoolValid, LayoutOf, VariantFieldAt, ExistingLayout, OffsetOf, Existing;
    VariantFieldIs(types, h, ty, variant, refs, index);
    if VariantFieldAt(types, h, ty, variant, index).At? {
      var i := if index < |refs| then index else |refs| - 1;
      assert LayoutsOf(types, h, refs[..i + 1]) == LayoutsOf(types, h, refs)[..i + 1];
      ExistingInside(types, h, refs, i);
      DividesThrough(LayoutOf(types, h, refs[i]).value.align, ExistingLayout(types, h, refs).align,
        LayoutOf(types, h, ty).value.align);
    }
  }

  lemma {:induction false} InsideExists(types: seq<Ty>, h: Host, ty: TyRef,
      variant: Identifier, refs: seq<TyRef>, i: nat)
    requires PoolValid(types, h) && ty < |types| && LayoutOf(types, h, ty).Some? && types[ty].Enum?
    requires IndexOfName(types[ty].variants, variant) < |types[ty].variants|
    requires refs == types[ty].variants[IndexOfName(types[ty].variants, variant)].1 && Known(types, refs)
    requires i < Existing(LayoutsOf(types, h, refs)) && FieldIsInside(types, h, ty, variant, i)
    ensures ExistingIsInside(types, h, refs, LayoutOf(types, h, ty).value, i)
  {
    hide PoolValid, LayoutOf, VariantFieldAt, OffsetOf, Existing, Inside;
    VariantFieldIs(types, h, ty, variant, refs, i);
    var ls := LayoutsOf(types, h, refs);
    var existing := ls[..Existing(ls)];
    PrefixOffset(TAGGED, existing, i);
    assert existing[..i + 1] == ls[..i + 1];
  }

  /** An enum that can exist has room for its tag. */
  lemma {:induction false} EnumHasTag(types: seq<Ty>, h: Host, ty: TyRef)
    requires PoolValid(types, h) && ty < |types| && LayoutOf(types, h, ty).Some? && types[ty].Enum?
    ensures LayoutOf(types, h, ty).value.size >= 1
  {
    hide PoolValid, LayoutOf, UnionOf, Sized, LayoutsOf;
    LayoutOfEnum(types, h, ty);
    var variants := types[ty].variants;
    forall k | 0 <= k < |variants| && VariantLayout(types, h, variants[k].1).Some?
      ensures VariantLayout(types, h, variants[k].1).value.size >= 1
    {
      SizedGrows(TAGGED, LayoutsOf(types, h, variants[k].1));
    }
    UnionHasTag(VariantLayouts(types, h, variants));
  }

  lemma {:induction false} SizedGrows(b: Building, ls: seq<Option<Layout>>)
    requires Sound(b) && Usable(ls)
    ensures Sized(b, ls).Some? ==> Sized(b, ls).value.size >= b.size
  {
    if AllSome(ls) {
      FillGrows(b, Values(ls), 0);
      NextMultipleIsLeast(Fill(b, Values(ls)).size, Fill(b, Values(ls)).align);
    }
  }

  lemma {:induction false} UnionHasTag(vs: seq<Option<Layout>>)
    requires Usable(vs) && UnionOf(vs).Some? && forall k :: 0 <= k < |vs| && vs[k].Some? ==> vs[k].value.size >= 1
    ensures UnionOf(vs).value.size >= 1
    decreases |vs|
  {
    var n := |vs| - 1;
    if vs[n].Some? {
      UnionCovers(vs, n);
    } else {
      UnionHasTag(vs[..n]);
    }
  }

  /** If every field of what exists of a variant lies inside a layout, the
      layout covers all of it. */
  lemma {:induction false} InsideIsCovered(types: seq<Ty>, h: Host, refs: seq<TyRef>, outer: Layout)
    requires PoolValid(types, h) && Known(types, refs) && Valid(outer) && outer.size >= 1
    requires forall i :: 0 <= i < Existing(LayoutsOf(types, h, refs)) ==> ExistingIsInside(types, h, refs, outer, i)
    ensures Covers(outer, ExistingLayout(types, h, refs))
  {
    hide PoolValid, LayoutOf, OffsetOf, Existing;
    var ls := LayoutsOf(types, h, refs);
    var existing := ls[..Existing(ls)];
    var fields := Values(existing);
    forall i | 0 <= i < |fields|
      ensures Inside(outer, OffsetOf(TAGGED, fields, i), fields[i])
    {
      assert ExistingIsInside(types, h, refs, outer, i);
    }
    FillInside(TAGGED, fields, outer);
    var all := Fill(TAGGED, fields);
    FillGrows(TAGGED, fields, 0);
    MultipleIsRoom(all.size, all.align, outer);
  }

  lemma {:induction false} MultipleIsRoom(n: nat, align: nat, outer: Layout)
    requires align > 0 && Valid(outer) && n <= outer.size && outer.align % align == 0
    ensures NextMultipleOf(n, align) <= outer.size
  {
    DividesThrough(align, outer.align, outer.size);
    NextMultipleIsLeast(n, align);
  }

  /** What has been placed ends inside a layout that every field is inside of,
      and is no more aligned. */
  lemma {:induction false} FillInside(b: Building, fields: seq<Layout>, outer: Layout)
    requires Sound(b) && AllValid(fields) && b.size <= outer.size && outer.align % b.align == 0
    requires forall i :: 0 <= i < |fields| ==> Inside(outer, OffsetOf(b, fields, i), fields[i])
    ensures Fill(b, fields).size <= outer.size && Sound(Fill(b, fields)) && outer.align % Fill(b, fields).align == 0
    decreases |fields|
  {
    hide Inside, Placed, Sound, NextMultipleOf;
    if fields != [] {
      var n := |fields| - 1;
      forall i | 0 <= i < n
        ensures Inside(outer, OffsetOf(b, fields[..n], i), fields[..n][i])
      {
        OffsetInPrefix(b, fields, n, i);
        assert Inside(outer, OffsetOf(b, fields, i), fields[i]);
      }
      FillInside(b, fields[..n], outer);
      assert Inside(outer, OffsetOf(b, fields, n), fields[n]);
      PlacedInside(Fill(b, fields[..n]), fields[n], outer);
    }
  }

  lemma {:induction false} OffsetInPrefix(b: Building, fields: seq<Layout>, n: nat, i: nat)
    requires AllValid(fields) && i < n <= |fields|
    ensures OffsetOf(b, fields[..n], i) == OffsetOf(b, fields, i)
  {
    assert fields[..n][..i] == fields[..i];
  }

  lemma {:induction false} PlacedInside(b: Building, l: Layout, outer: Layout)
    requires Sound(b) && Valid(l) && outer.align % b.align == 0 && Inside(outer, NextMultipleOf(b.size, l.align), l)
    ensures Placed(b, l).size <= outer.size && Sound(Placed(b, l)) && outer.align % Placed(b, l).align == 0
  {
    PlacedGrows(b, l);
  }

  /** A place in a variant that can never exist may lie outside its root: the
      layout of the enum leaves such variants out, location does not. */
  lemma {:induction false} UninhabitedVariantIsOutside(h: Host)
    requires HostValid(h)
    ensures var types := [Prim(Int(Unsigned, I64)), Never, Enum([("A", [0, 1]), ("B", [])])];
      var path := [VariantField("A", 0)];
      && PoolValid(types, h) && !PathFits(types, h, 2, path)
      && LayoutOf(types, h, 2) == Some(Layout(1, 1)) && LayoutOf(types, h, 0) == Some(Layout(8, 8))
      && Locate(types, h, 2, path) == At(8, 0)
  {
    var types := [Prim(Int(Unsigned, I64)), Never, Enum([("A", [0, 1]), ("B", [])])];
    assert PoolValid(types, h);
    OnlySecondVariant(types, h);
    FirstVariantField(types, h);
  }

  lemma {:induction false} FirstVariantField(types: seq<Ty>, h: Host)
    requires PoolValid(types, h) && types == [Prim(Int(Unsigned, I64)), Never, Enum([("A", [0, 1]), ("B", [])])]
    ensures Locate(types, h, 2, [VariantField("A", 0)]) == At(8, 0)
  {
    hide PoolValid;
    var ls := LayoutsOf(types, h, [0, 1][..1]);
    assert ls == [Some(Layout(8, 8))];
    assert Values(ls)[..0] == [];
    assert OffsetOf(TAGGED, Values(ls), 0) == 8;
    var path := [VariantField("A", 0)];
    assert Project(types, h, 2, path[0]) == At(8, 0);
    assert path[1..] == [];
  }

  lemma {:induction false} OnlySecondVariant(types: seq<Ty>, h: Host)
    requires PoolValid(types, h) && types == [Prim(Int(Unsigned, I64)), Never, Enum([("A", [0, 1]), ("B", [])])]
    ensures LayoutOf(types, h, 2) == Some(Layout(1, 1)) && LayoutsOf(types, h, [0, 1])[1] == None
  {
    hide PoolValid;
    LayoutOfEnum(types, h, 2);
    var a, b := VariantLayout(types, h, [0, 1]), VariantLayout(types, h, []);
    assert LayoutOf(types, h, 1) == None;
    assert LayoutsOf(types, h, [0, 1])[1] == None;
    assert LayoutsOf(types, h, []) == [] && Values([]) == [];
    assert b == Some(Layout(1, 1));
    var vs := VariantLayouts(types, h, types[2].variants);
    assert vs == [a, b];
    assert vs[..1] == [a] && [a][..0] == [];
    assert a == None;
    assert UnionOf([a]) == None;
    assert UnionOf(vs) == b;
  }

  // ----------------------------------------------------- passed by reference

  function IsReferenceType(types: seq<Ty>, h: Host, ty: TyRef): Option<bool>
    requires PoolValid(types, h) && ty < |types|
  {
    var l := LayoutOf(types, h, ty);
    if l.None? then None
    else if l.value.size == 0 then Some(false)
    else match types[ty]
      case Never => None
      case Record(_) => Some(true)
      case Enum(_) => Some(true)
      case Prim(Text) => Some(true)
      case Prim(IpAddr) => Some(true)
      case Prim(Prefix) => Some(true)
      case List(_) => Some(true)
      case Runtime(_) => Some(true)
      case Unit => Some(false)
      case Prim(_) => Some(false)
  }

  /** What is passed by value fits a register, and only what does not exist has
      no answer. */
  lemma {:induction false} ValuesAreScalars(types: seq<Ty>, h: Host, ty: TyRef)
    requires PoolValid(types, h) && ty < |types|
    ensures IsReferenceType(types, h, ty) == None <==> LayoutOf(types, h, ty) == None
    ensures IsReferenceType(types, h, ty) == Some(false) ==>
      var l := LayoutOf(types, h, ty).value; l.size == 0 || (l.size == l.align && l.size in {1, 2, 4, 8})
  {
  }

  /** Types that are added later change no layout. */
  lemma {:induction false} LayoutIsStable(types: seq<Ty>, more: seq<Ty>, h: Host, ty: TyRef)
    requires PoolValid(types, h) && PoolValid(more, h) && types <= more && ty < |types|
    ensures LayoutOf(more, h, ty) == LayoutOf(types, h, ty)
    decreases ty
  {
    assert more[ty] == types[ty];
    match types[ty]
    case Record(fields) =>
      LayoutOfRecord(types, h, ty);
      LayoutOfRecord(more, h, ty);
      RefsAreStable(types, more, h, ty, FieldTypes(fields));
    case Enum(variants) =>
      LayoutOfEnum(types, h, ty);
      LayoutOfEnum(more, h, ty);
      forall k | 0 <= k < |variants|
        ensures VariantLayout(more, h, variants[k].1) == VariantLayout(types, h, variants[k].1)
      {
        RefsAreStable(types, more, h, ty, variants[k].1);
      }
      assert VariantLayouts(more, h, variants) == VariantLayouts(types, h, variants);
    case _ =>
  }

  lemma {:induction false} RefsAreStable(types: seq<Ty>, more: seq<Ty>, h: Host, ty: TyRef, refs: seq<TyRef>)
    requires PoolValid(types, h) && PoolValid(more, h) && types <= more && ty < |types|
    requires forall i :: 0 <= i < |refs| ==> refs[i] in Children(types[ty])
    ensures Known(types, refs) && Known(more, refs) && LayoutsOf(more, h, refs) == LayoutsOf(types, h, refs)
    decreases ty, 0
  {
    forall i | 0 <= i < |refs|
      ensures refs[i] < ty && LayoutOf(more, h, refs[i]) == LayoutOf(types, h, refs[i])
    {
      LayoutIsStable(types, more, h, refs[i]);
    }
  }

  // --------------------------------------------------------- the pool itself

  const UNIT: TyRef := 0
  const NEVER: TyRef := 1
  const BOOL: TyRef := 2
  const STRING: TyRef := 13

  function WellKnown(): seq<Ty> {
    [Unit, Never, Prim(Bool),
     Prim(Int(Unsigned, I8)), Prim(Int(Unsigned, I16)), Prim(Int(Unsigned, I32)), Prim(Int(Unsigned, I64)),
     Prim(Int(Signed, I8)), Prim(Int(Signed, I16)), Prim(Int(Signed, I32)), Prim(Int(Signed, I64)),
     Prim(Float(F32)), Prim(Float(F64)), Prim(Text)]
  }

  lemma {:induction false} WellKnownTypes()
    ensures |WellKnown()| == 14
    ensures WellKnown()[UNIT] == Unit && WellKnown()[NEVER] == Never && WellKnown()[BOOL] == Prim(Bool)
      && WellKnown()[STRING] == Prim(Text)
    ensures WellKnown()[3] == Prim(Int(Unsigned, I8)) && WellKnown()[4] == Prim(Int(Unsigned, I16))
    ensures WellKnown()[5] == Prim(Int(Unsigned, I32)) && WellKnown()[6] == Prim(Int(Unsigned, I64))
    ensures WellKnown()[7] == Prim(Int(Signed, I8)) && WellKnown()[8] == Prim(Int(Signed, I16))
    ensures WellKnown()[9] == Prim(Int(Signed, I32)) && WellKnown()[10] == Prim(Int(Signed, I64))
    ensures WellKnown()[11] == Prim(Float(F32)) && WellKnown()[12] == Prim(Float(F64))
    ensures forall i, j :: 0 <= i < j < 14 ==> WellKnown()[i] != WellKnown()[j]
    ensures forall i :: 0 <= i < 14 ==> Children(WellKnown()[i]) == {} && !WellKnown()[i].Runtime?
  {
  }

  /** A type made of types of the pool may be added to it. */
  lemma {:induction false} InternKeepsPool(types: seq<Ty>, h: Host, t: Ty)
    requires PoolValid(types, h) && (forall c :: c in Children(t) ==> c < |types|) && (t.Runtime? ==> t.id in h.runtime)
    ensures PoolValid(if t in types then types else types + [t], h)
  {
    var more := types + [t];
    assert forall i :: 0 <= i < |types| ==> more[i] == types[i];
    assert more[|types|] == t;
  }

  lemma {:induction false} WellKnownIsValid(h: Host)
    requires HostValid(h)
    ensures PoolValid(WellKnown(), h)
  {
    hide WellKnown, Children;
    WellKnownTypes();
  }

  class Pool {
    var types: seq<Ty>

    constructor ()
      ensures |types| == 14
      ensures types[UNIT] == Unit && types[NEVER] == Never && types[BOOL] == Prim(Bool) && types[STRING] == Prim(Text)
      ensures types[3] == Prim(Int(Unsigned, I8)) && types[4] == Prim(Int(Unsigned, I16))
      ensures types[5] == Prim(Int(Unsigned, I32)) && types[6] == Prim(Int(Unsigned, I64))
      ensures types[7] == Prim(Int(Signed, I8)) && types[8] == Prim(Int(Signed, I16))
      ensures types[9] == Prim(Int(Signed, I32)) && types[10] == Prim(Int(Signed, I64))
      ensures types[11] == Prim(Float(F32)) && types[12] == Prim(Float(F64))
      ensures forall h :: HostValid(h) ==> PoolValid(types, h)
    {
      types := [];
      new;
      hide WellKnown, Children;
      WellKnownTypes();
      var wellKnown := WellKnown();
      var i := 0;
      while i < |wellKnown|
        invariant 0 <= i <= |wellKnown| && types == wellKnown[..i]
      {
        var r := Intern(wellKnown[i]);
        assert r == i;
        i := i + 1;
      }
      forall h | HostValid(h)
        ensures PoolValid(types, h)
      {
        WellKnownIsValid(h);
      }
    }

    /** A type gets the index of its first occurrence, or a new one. */
    method Intern(t: Ty) returns (r: TyRef)
      modifies this
      ensures r < |types| && types[r] == t && forall k :: 0 <= k < r ==> types[k] != t
      ensures types == if t in old(types) then old(types) else old(types) + [t]
    {
      r := 0;
      while r < |types| && types[r] != t
        invariant 0 <= r <= |types| && forall k :: 0 <= k < r ==> types[k] != t
      {
        r := r + 1;
      }
      if r == |types| {
        types := types + [t];
      }
    }

    method ComputeLayout(ty: TyRef, h: Host) returns (l: Option<Layout>)
      requires PoolValid(types, h) && ty < |types|
      ensures l == LayoutOf(types, h, ty)
      decreases ty, 3
    {
      match types[ty] {
        case Never => l := None;
        case Unit => l := Some(Layout(0, 1));
        case Prim(p) => l := Some(PrimitiveLayout(h, p));
        case Runtime(id) => l := Some(h.runtime[id]);
        case List(_) => l := Some(h.list);
        case Record(fields) =>
          LayoutOfRecord(types, h, ty);
          var builder := new LayoutBuilder();
          l := LayoutBehind(builder, FieldTypes(fields), h, ty);
        case Enum(variants) =>
          LayoutOfEnum(types, h, ty);
          l := EnumLayout(variants, h, ty);
      }
    }

    /** The union of all variants that can exist, each behind the tag. */
    method EnumLayout(variants: seq<(Identifier, seq<TyRef>)>, h: Host, ghost ty: TyRef) returns (l: Option<Layout>)
      requires PoolValid(types, h) && ty < |types| && types[ty] == Enum(variants)
      ensures forall k :: 0 <= k < |variants| ==> Known(types, variants[k].1)
      ensures l == UnionOf(VariantLayouts(types, h, variants))
      decreases ty, 2, 0
    {
      hide PoolValid, LayoutOf, LayoutsOf, Sized, Fill, Placed, Union, VariantLayouts;
      TagPlaced();
      ChildrenKnown(types, h, ty);
      ghost var vs := VariantLayouts(types, h, variants);
      l := None;
      var k := 0;
      while k < |variants|
        invariant 0 <= k <= |variants| && l == UnionOf(vs[..k])
      {
        var builder := new LayoutBuilder();
        var _ := builder.Add(Layout(1, 1));
        assert forall i :: 0 <= i < |variants[k].1| ==> variants[k].1[i] in Children(types[ty]);
        var v := LayoutBehind(builder, variants[k].1, h, ty);
        assert vs[..k + 1][..k] == vs[..k];
        if v.Some? {
          l := Some(if l.None? then v.value else Union(l.value, v.value));
        }
        k := k + 1;
      }
      assert vs[..k] == vs;
    }

    /** The layout of a type is added to a builder, if it has one. */
    method PlaceField(builder: LayoutBuilder, ty: TyRef, h: Host) returns (offset: Option<nat>)
      requires PoolValid(types, h) && ty < |types| && Sound(builder.Contents())
      modifies builder
      ensures offset.Some? <==> LayoutOf(types, h, ty).Some?
      ensures offset.Some? ==>
        var l := LayoutOf(types, h, ty).value;
        builder.Contents() == Placed(old(builder.Contents()), l) && offset.value ==
          NextMultipleOf(old(builder.size), l.align)
      decreases ty, 4
    {
      var l := ComputeLayout(ty, h);
      if l.None? {
        return None;
      }
      var placed := builder.Add(l.value);
      offset := Some(placed);
    }

    /** Adds fields to a builder; no layout as soon as one of them has none. */
    method LayoutBehind(builder: LayoutBuilder, refs: seq<TyRef>, h: Host, ghost ty: TyRef) returns (l: Option<Layout>)
      requires PoolValid(types, h) && ty < |types| && Sound(builder.Contents())
      requires forall i :: 0 <= i < |refs| ==> refs[i] in Children(types[ty])
      modifies builder
      ensures Known(types, refs) && l == Sized(old(builder.Contents()), LayoutsOf(types, h, refs))
      decreases ty, 1
    {
      assert Known(types, refs);
      ghost var b := builder.Contents();
      ghost var ls := LayoutsOf(types, h, refs);
      FilledStart(b, ls);
      var i := 0;
      while i < |refs|
        invariant 0 <= i <= |refs| && Filled(b, builder.Contents(), ls, i)
      {
        assert refs[i] in Children(types[ty]);
        FilledSound(b, builder.Contents(), ls, i);
        ghost var before := builder.Contents();
        var offset := PlaceField(builder, refs[i], h);
        if offset.None? {
          return None;
        }
        FilledNext(b, before, ls, i);
        i := i + 1;
      }
      FilledAll(b, builder.Contents(), ls);
      l := builder.Finish();
    }

    /** get_field: the offsets of a record, recomputed up to one field. */
    method GetField(ty: TyRef, ident: Identifier, h: Host) returns (l: Located)
      requires PoolValid(types, h) && ty < |types|
      ensures l == FieldAt(types, h, ty, ident)
    {
      hide PoolValid, LayoutOf, FieldAt, LayoutsOf, IndexOfName, NameBehind, FoundAt, Filled, LastPlace, AllSome;
      FieldAtIs(types, h, ty, ident);
      if !types[ty].Record? {
        return Ice;
      }
      var fields := types[ty].fields;
      ghost var refs := FieldTypes(fields);
      ghost var ls := LayoutsOf(types, h, refs);
      var builder := new LayoutBuilder();
      FilledStart(EMPTY, ls);
      NameBehindStart(fields, ident);
      var i := 0;
      while i < |fields|
        invariant 0 <= i <= |fields| && NameBehind(fields, ident, i) && fresh(builder)
        invariant Filled(EMPTY, builder.Contents(), ls, i)
      {
        assert refs[i] == fields[i].1;
        FilledSound(EMPTY, builder.Contents(), ls, i);
        ghost var before := builder.Contents();
        var offset := PlaceField(builder, fields[i].1, h);
        FoundOrNot(before, ls, refs, fields, ident, i);
        if offset.None? {
          return Ice;
        }
        FilledNext(EMPTY, before, ls, i);
        if fields[i].0 == ident {
          return At(offset.value, fields[i].1);
        }
        i := i + 1;
      }
      FoundNowhere(ls, refs, fields, ident);
      l := Ice;
    }

    /** The field of a variant: offsets behind the tag, up to one field. */
    method GetVariantField(ty: TyRef, variant: Identifier, n: nat, h: Host) returns (l: Located)
      requires PoolValid(types, h) && ty < |types|
      ensures l == VariantFieldAt(types, h, ty, variant, n)
    {
      hide PoolValid, LayoutOf, OffsetOf, Filled, Fill, LayoutsOf;
      if !types[ty].Enum? {
        return Ice;
      }
      var variants := types[ty].variants;
      ChildrenKnown(types, h, ty);
      var k := 0;
      while k < |variants| && variants[k].0 != variant
        invariant 0 <= k <= |variants| && forall j :: 0 <= j < k ==> variants[j].0 != variant
      {
        k := k + 1;
      }
      NameIs(variants, variant, k);
      if k == |variants| {
        return Ice;
      }
      l := LastOffset(variants[k].1[..Min(n + 1, |variants[k].1|)], h);
    }

    /** Fields placed behind the tag; the place of the last of them. */
    method LastOffset(refs: seq<TyRef>, h: Host) returns (l: Located)
      requires PoolValid(types, h) && Known(types, refs)
      ensures l == LastPlace(TAGGED, LayoutsOf(types, h, refs), refs)
    {
      hide PoolValid, LayoutOf, Filled, Fill, LayoutsOf, LastPlace;
      ghost var ls := LayoutsOf(types, h, refs);
      var builder := new LayoutBuilder();
      var _ := builder.Add(Layout(1, 1));
      FilledStart(TAGGED, ls);
      NoPlace(TAGGED, ls, refs);
      var i := 0;
      l := Ice;
      while i < |refs|
        invariant 0 <= i <= |refs| && fresh(builder)
        invariant Filled(TAGGED, builder.Contents(), ls, i) && l == LastPlace(TAGGED, ls[..i], refs[..i])
      {
        FilledSound(TAGGED, builder.Contents(), ls, i);
        ghost var before := builder.Contents();
        var offset := PlaceField(builder, refs[i], h);
        FilledPlace(TAGGED, before, ls, refs, i);
        if offset.None? {
          return Uninhabited;
        }
        FilledNext(TAGGED, before, ls, i);
        l := At(offset.value, refs[i]);
        i := i + 1;
      }
      assert ls[..i] == ls && refs[..i] == refs;
    }

    /** location: the variable itself for a value that is passed by value,
        otherwise a pointer, with the offsets of all projections added up. */
    method Location(root: TyRef, path: seq<Projection>, final: TyRef, h: Host) returns (l: PlaceLocation)
      requires PoolValid(types, h) && root < |types| && final < |types|
      ensures l == LocationOf(types, h, root, path, final)
    {
      hide PoolValid, LayoutOf, FieldAt, VariantFieldAt, IsReferenceType;
      if path == [] {
        var byReference := IsReferenceType(types, h, final);
        return if byReference.None? then Nowhere else if byReference.value then Pointer(0) else Variable;
      }
      var offset: nat, ty: TyRef := 0, root;
      var i := 0;
      while i < |path|
        invariant 0 <= i <= |path| && ty < |types|
        invariant Locate(types, h, root, path) == Shifted(offset, Locate(types, h, ty, path[i..]))
      {
        var step;
        match path[i] {
          case Field(name) => step := GetField(ty, name, h);
          case VariantField(variant, index) => step := GetVariantField(ty, variant, index, h);
        }
        assert path[i..][1..] == path[i + 1..];
        if !step.At? {
          return if step.Uninhabited? then Nowhere else Panic;
        }
        offset, ty := offset + step.offset, step.ty;
        i := i + 1;
      }
      l := Pointer(offset);
    }
  }

  /** Where a place is found: in a variable, behind the pointer in a variable,
      or nowhere, if what it is in cannot exist. */
  datatype PlaceLocation = Variable | Pointer(offset: nat) | Nowhere | Panic

  /** The location of the value of type final that a path from a variable of
      type root leads to. */
  function LocationOf(types: seq<Ty>, h: Host, root: TyRef, path: seq<Projection>, final: TyRef): PlaceLocation
    requires PoolValid(types, h) && root < |types| && final < |types|
  {
    if path == [] then
      var byReference := IsReferenceType(types, h, final);
      if byReference.None? then Nowhere else if byReference.value then Pointer(0) else Variable
    else
      match Locate(types, h, root, path)
      case At(offset, _) => Pointer(offset)
      case Uninhabited => Nowhere
      case Ice => Panic
  }

  function Shifted(n: nat, l: Located): Located {
    if l.At? then At(n + l.offset, l.ty) else l
  }

  lemma {:induction false} NameIs<T>(entries: seq<(Identifier, T)>, name: Identifier, i: nat)
    requires i <= |entries| && (forall k :: 0 <= k < i ==> entries[k].0 != name)
      && (i < |entries| ==> entries[i].0 == name)
    ensures IndexOfName(entries, name) == i
  {
  }

  lemma {:induction false} TagPlaced()
    ensures Valid(Layout(1, 1)) && Placed(EMPTY, Layout(1, 1)) == TAGGED && Sound(TAGGED)
  {
  }

  /** The place of field i of a record. */
  function FoundAt(ls: seq<Option<Layout>>, refs: seq<TyRef>, i: nat): Located
    requires Usable(ls) && |ls| == |refs|
  {
    if i >= |ls| || !AllSome(ls[..i + 1]) then Ice else LastPlace(EMPTY, ls[..i + 1], refs[..i + 1])
  }

  /** get_field in terms of the layouts of all fields. */
  lemma {:induction false} FieldAtIs(types: seq<Ty>, h: Host, ty: TyRef, name: Identifier)
    requires PoolValid(types, h) && ty < |types|
    ensures types[ty].Record? ==>
      && Known(types, FieldTypes(types[ty].fields))
      && FieldAt(types, h, ty, name) ==
           FoundAt(LayoutsOf(types, h, FieldTypes(types[ty].fields)), FieldTypes(types[ty].fields),
             IndexOfName(types[ty].fields, name))
    ensures !types[ty].Record? ==> FieldAt(types, h, ty, name) == Ice
  {
    hide PoolValid, LayoutOf;
    if types[ty].Record? {
      ChildrenKnown(types, h, ty);
      var refs := FieldTypes(types[ty].fields);
      var i := IndexOfName(types[ty].fields, name);
      if i < |refs| {
        assert LayoutsOf(types, h, refs[..i + 1]) == LayoutsOf(types, h, refs)[..i + 1];
      }
    }
  }

  lemma {:induction false} FoundOrNot(now: Building, ls: seq<Option<Layout>>, refs: seq<TyRef>,
      fields: seq<(Identifier, TyRef)>, name: Identifier, i: nat)
    requires Usable(ls) && |ls| == |refs| == |fields| && i < |ls| && Filled(EMPTY, now, ls, i)
      && NameBehind(fields, name, i)
    ensures ls[i].None? ==> FoundAt(ls, refs, IndexOfName(fields, name)) == Ice
    ensures ls[i].Some? && fields[i].0 == name ==>
      FoundAt(ls, refs, IndexOfName(fields, name)) == At(NextMultipleOf(now.size, ls[i].value.align), refs[i])
    ensures fields[i].0 != name ==> NameBehind(fields, name, i + 1)
  {
    FilledPlace(EMPTY, now, ls, refs, i);
    var found := IndexOfName(fields, name);
    if ls[i].None? && found < |ls| {
      assert ls[..found + 1][i].None?;
    }
  }

  lemma {:induction false} FoundNowhere(ls: seq<Option<Layout>>, refs: seq<TyRef>,
      fields: seq<(Identifier, TyRef)>, name: Identifier)
    requires Usable(ls) && |ls| == |refs| == |fields| && NameBehind(fields, name, |fields|)
    ensures FoundAt(ls, refs, IndexOfName(fields, name)) == Ice
  {
  }

  /** A builder that started as b holds the first i fields. */
  ghost predicate Filled(b: Building, now: Building, ls: seq<Option<Layout>>, i: nat)
    requires Usable(ls) && i <= |ls|
  {
    AllSome(ls[..i]) && now == Fill(b, Values(ls[..i])) && Sound(now)
  }

  lemma {:induction false} FilledStart(b: Building, ls: seq<Option<Layout>>)
    requires Usable(ls) && Sound(b)
    ensures Filled(b, b, ls, 0)
  {
    assert Values(ls[..0]) == [];
  }

  lemma {:induction false} FilledNext(b: Building, now: Building, ls: seq<Option<Layout>>, i: nat)
    requires Usable(ls) && i < |ls| && Filled(b, now, ls, i) && ls[i].Some?
    ensures Sound(now) && Filled(b, Placed(now, ls[i].value), ls, i + 1)
  {
    FillNext(b, ls, i);
    PlacedGrows(now, ls[i].value);
  }

  lemma {:induction false} FilledSound(b: Building, now: Building, ls: seq<Option<Layout>>, i: nat)
    requires Usable(ls) && i <= |ls| && Filled(b, now, ls, i)
    ensures Sound(now)
  {
  }

  lemma {:induction false} FilledAll(b: Building, now: Building, ls: seq<Option<Layout>>)
    requires Usable(ls) && Sound(b) && Filled(b, now, ls, |ls|)
    ensures Sound(now) && Sized(b, ls) == Some(Finished(now))
  {
    assert ls[..|ls|] == ls;
  }

  lemma {:induction false} FilledOffset(b: Building, now: Building, ls: seq<Option<Layout>>, i: nat)
    requires Usable(ls) && i < |ls| && Filled(b, now, ls, i) && ls[i].Some?
    ensures AllSome(ls[..i + 1]) && OffsetOf(b, Values(ls[..i + 1]), i) == NextMultipleOf(now.size, ls[i].value.align)
  {
    FillNext(b, ls, i);
    OffsetIs(b, ls, i);
  }

  lemma {:induction false} NoPlace(b: Building, ls: seq<Option<Layout>>, refs: seq<TyRef>)
    requires Usable(ls) && |ls| == |refs|
    ensures LastPlace(b, ls[..0], refs[..0]) == Ice
  {
  }

  lemma {:induction false} FilledPlace(b: Building, now: Building, ls: seq<Option<Layout>>, refs: seq<TyRef>, i: nat)
    requires Usable(ls) && |ls| == |refs| && i < |ls| && Filled(b, now, ls, i)
    ensures LastPlace(b, ls[..i + 1], refs[..i + 1]) ==
      if ls[i].Some? then At(NextMultipleOf(now.size, ls[i].value.align), refs[i]) else Uninhabited
    ensures ls[i].None? ==> LastPlace(b, ls, refs) == Uninhabited
  {
    if ls[i].Some? {
      FilledOffset(b, now, ls, i);
    } else {
      assert ls[..i + 1][i].None?;
    }
  }

  lemma {:induction false} FillNext(b: Building, ls: seq<Option<Layout>>, i: nat)
    requires Usable(ls) && i < |ls| && AllSome(ls[..i]) && ls[i].Some?
    ensures AllSome(ls[..i + 1]) && Fill(b, Values(ls[..i + 1])) == Placed(Fill(b, Values(ls[..i])), ls[i].value)
  {
    assert Values(ls[..i + 1])[..i] == Values(ls[..i]);
  }

  lemma {:induction false} OffsetIs(b: Building, ls: seq<Option<Layout>>, i: nat)
    requires Usable(ls) && i < |ls| && AllSome(ls[..i + 1])
    ensures AllSome(ls[..i])
    ensures OffsetOf(b, Values(ls[..i + 1]), i) == NextMultipleOf(Fill(b, Values(ls[..i])).size, ls[i].value.align)
  {
    assert forall k :: 0 <= k < i ==> ls[..i][k] == ls[..i + 1][k];
    assert Values(ls[..i + 1])[..i] == Values(ls[..i]);
  }

  /** The first i entries have other names. */
  predicate NameBehind<T>(entries: seq<(Identifier, T)>, name: Identifier, i: nat) {
    i <= IndexOfName(entries, name)
  }

  lemma {:induction false} NameBehindStart<T>(entries: seq<(Identifier, T)>, name: Identifier)
    ensures NameBehind(entries, name, 0)
  {
  }
}

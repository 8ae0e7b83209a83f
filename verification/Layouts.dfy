/** Sizes and alignments (src/runtime/layout.rs).  Sizes are unbounded here. */
module Layouts {
  import opened Collections

  datatype Layout = Layout(size: nat, align: nat)

  predicate IsPowerOfTwo(n: nat) {
    n == 1 || (n > 1 && n % 2 == 0 && IsPowerOfTwo(n / 2))
  }

  /** What the documentation of Layout demands. */
  predicate Valid(l: Layout) {
    IsPowerOfTwo(l.align) && l.size % l.align == 0
  }

  /** Layout::new, whose assertions fail outside this condition. */
  function NewLayout(size: nat, align: nat): Option<Layout> {
    if align > 0 && IsPowerOfTwo(align) && size % align == 0 then Some(Layout(size, align)) else None
  }

  function NextMultipleOf(n: nat, k: nat): nat
    requires k > 0
  {
    if n % k == 0 then n else n + (k - n % k)
  }

  function Max(a: nat, b: nat): nat {
    if a < b then b else a
  }

  function Union(a: Layout, b: Layout): Layout
    requires a.align > 0
  {
    var align := Max(a.align, b.align);
    Layout(NextMultipleOf(Max(a.size, b.size), align), align)
  }

  function Power(k: nat): nat {
    if k == 0 then 1 else 2 * Power(k - 1)
  }

  lemma {:induction false} PowersAre(k: nat)
    ensures Power(k) > 0 && IsPowerOfTwo(Power(k))
  {
    hide IsPowerOfTwo;
    if k == 0 {
      OneIsPower();
    } else {
      PowersAre(k - 1);
      DoubleIsPower(Power(k - 1));
    }
  }

  lemma {:induction false} OneIsPower()
    ensures IsPowerOfTwo(1)
  {
  }

  lemma {:induction false} DoubleIsPower(n: nat)
    requires n > 0 && IsPowerOfTwo(n)
    ensures IsPowerOfTwo(2 * n)
  {
    assert 2 * n / 2 == n && 2 * n % 2 == 0;
  }

  lemma {:induction false} PowerOfTwoIs(n: nat) returns (k: nat)
    requires IsPowerOfTwo(n)
    ensures n == Power(k)
    decreases n
  {
    if n == 1 {
      k := 0;
    } else {
      k := PowerOfTwoIs(n / 2);
      k := k + 1;
    }
  }

  /** Layout::new accepts powers of two as alignments, and their multiples as
      sizes. */
  lemma {:induction false} NewLayoutAccepts(size: nat, align: nat)
    ensures NewLayout(size, align).Some? <==>
      (exists k: nat :: align == Power(k)) && (exists n: nat :: size == n * align)
    ensures NewLayout(size, align).Some? ==> NewLayout(size, align) == Some(Layout(size, align))
  {
    if NewLayout(size, align).Some? {
      var k := PowerOfTwoIs(align);
      assert align == Power(k) && size == (size / align) * align;
    }
    if k: nat :| align == Power(k) {
      PowersAre(k);
      if n: nat :| size == n * align {
        MultipleDivides(n, align);
      }
    }
  }

  // -------------------------------------------------------------- arithmetic

  lemma {:induction false} MultipleDivides(k: nat, n: nat)
    requires n > 0
    ensures (k * n) % n == 0
  {
    var q, r := (k * n) / n, (k * n) % n;
    assert (k - q) * n == r;
    if k > q {
      ProductGrows(k - q, n);
    } else if k < q {
      ProductGrows(q - k, n);
    }
  }

  lemma {:induction false} ProductGrows(k: int, n: int)
    requires k >= 1 && n >= 0
    ensures k * n >= n && -k * n <= -n
  {
    assert k * n == n + (k - 1) * n;
    assert -k * n == -(k * n);
  }

  lemma {:induction false} MultiplesAdd(a: nat, b: nat, n: nat)
    requires n > 0 && a % n == 0 && b % n == 0
    ensures (a + b) % n == 0
  {
    assert a + b == (a / n + b / n) * n;
    MultipleDivides(a / n + b / n, n);
  }

  lemma {:induction false} DividesThrough(a: nat, b: nat, c: nat)
    requires a > 0 && b > 0 && b % a == 0 && c % b == 0
    ensures c % a == 0
  {
    assert c == (c / b) * ((b / a) * a) == ((c / b) * (b / a)) * a;
    MultipleDivides((c / b) * (b / a), a);
  }

  lemma {:induction false} PowersDivide(a: nat, b: nat)
    requires IsPowerOfTwo(a) && IsPowerOfTwo(b) && a <= b
    ensures b % a == 0
    decreases b
  {
    if a > 1 {
      PowersDivide(a / 2, b / 2);
      var q := (b / 2) / (a / 2);
      assert b / 2 == q * (a / 2);
      assert b == q * a by {
        assert b == 2 * (b / 2) && a == 2 * (a / 2);
      }
      MultipleDivides(q, a);
    }
  }

  /** Next multiples are the least ones. */
  lemma {:induction false} NextMultipleIsLeast(n: nat, k: nat)
    requires k > 0
    ensures NextMultipleOf(n, k) % k == 0 && n <= NextMultipleOf(n, k)
    ensures forall m: nat :: n <= m && m % k == 0 ==> NextMultipleOf(n, k) <= m
  {
    var r := NextMultipleOf(n, k);
    if n % k != 0 {
      assert r == (n / k + 1) * k;
      MultipleDivides(n / k + 1, k);
    }
    forall m: nat | n <= m && m % k == 0
      ensures r <= m
    {
      if n % k != 0 && m < r {
        assert m == (m / k) * k;
        assert n / k * k < m < (n / k + 1) * k;
        BetweenMultiples(n / k, m / k, k);
      }
    }
  }

  lemma {:induction false} BetweenMultiples(p: nat, q: nat, k: nat)
    requires k > 0
    ensures !(p * k < q * k < (p + 1) * k)
  {
    if q <= p {
      MultiplesGrow(q, p, k);
    } else {
      MultiplesGrow(p + 1, q, k);
    }
  }

  lemma {:induction false} MultiplesGrow(p: nat, q: nat, k: nat)
    requires p <= q
    ensures p * k <= q * k
    decreases q
  {
    if p < q {
      MultiplesGrow(p, q - 1, k);
      assert q * k == (q - 1) * k + k;
    }
  }

  // ------------------------------------------------------------------- union

  /** c has room for l at every multiple of its alignment. */
  predicate Covers(c: Layout, l: Layout) {
    l.align > 0 && l.size <= c.size && c.align % l.align == 0
  }

  /** The union is the least layout that covers both operands. */
  lemma {:induction false} UnionIsLeast(a: Layout, b: Layout)
    requires Valid(a) && Valid(b)
    ensures Valid(Union(a, b)) && Covers(Union(a, b), a) && Covers(Union(a, b), b)
    ensures forall c :: Valid(c) && Covers(c, a) && Covers(c, b) ==> Covers(c, Union(a, b))
  {
    var u := Union(a, b);
    NextMultipleIsLeast(Max(a.size, b.size), u.align);
    if a.align < b.align { PowersDivide(a.align, b.align); } else { PowersDivide(b.align, a.align); }
    forall c | Valid(c) && Covers(c, a) && Covers(c, b)
      ensures Covers(c, u)
    {
      DividesThrough(u.align, c.align, c.size);
    }
  }

  lemma {:induction false} CoversBoth(a: Layout, b: Layout)
    requires Valid(a) && Valid(b) && Covers(a, b) && Covers(b, a)
    ensures a == b
  {
    DividesMeansSmaller(a.align, b.align);
    DividesMeansSmaller(b.align, a.align);
  }

  lemma {:induction false} DividesMeansSmaller(a: nat, b: nat)
    requires a > 0 && b > 0 && b % a == 0
    ensures a <= b
  {
  }

  lemma {:induction false} CoversThrough(a: Layout, b: Layout, c: Layout)
    requires Valid(a) && Valid(b) && Valid(c) && Covers(a, b) && Covers(b, c)
    ensures Covers(a, c)
  {
    DividesThrough(c.align, b.align, a.align);
  }

  lemma {:induction false} UnionCommutes(a: Layout, b: Layout)
    requires Valid(a) && Valid(b)
    ensures Union(a, b) == Union(b, a)
  {
    UnionIsLeast(a, b);
    UnionIsLeast(b, a);
    CoversBoth(Union(a, b), Union(b, a));
  }

  lemma {:induction false} UnionAssociates(a: Layout, b: Layout, c: Layout)
    requires Valid(a) && Valid(b) && Valid(c)
    ensures Valid(Union(a, b)) && Valid(Union(b, c))
    ensures Union(Union(a, b), c) == Union(a, Union(b, c))
  {
    UnionIsLeast(a, b);
    UnionIsLeast(b, c);
    var l, r := Union(Union(a, b), c), Union(a, Union(b, c));
    UnionIsLeast(Union(a, b), c);
    UnionIsLeast(a, Union(b, c));
    CoversThrough(l, Union(a, b), a);
    CoversThrough(l, Union(a, b), b);
    CoversThrough(r, Union(b, c), b);
    CoversThrough(r, Union(b, c), c);
    CoversBoth(l, r);
  }

  // ----------------------------------------------------------------- builder

  datatype Building = Building(size: nat, align: nat)

  const EMPTY := Building(0, 1)

  /** A builder with the tag of an enum in it. */
  const TAGGED := Building(1, 1)

  predicate Sound(b: Building) {
    IsPowerOfTwo(b.align)
  }

  function Placed(b: Building, l: Layout): Building
    requires l.align > 0
  {
    Building(NextMultipleOf(b.size, l.align) + l.size, Max(b.align, l.align))
  }

  function Finished(b: Building): Layout
    requires b.align > 0
  {
    Layout(NextMultipleOf(b.size, b.align), b.align)
  }

  class LayoutBuilder {
    var size: nat
    var align: nat

    ghost function Contents(): Building
      reads this
    {
      Building(size, align)
    }

    constructor ()
      ensures Contents() == EMPTY
    {
      size, align := 0, 1;
    }

    /** The field is placed at the least aligned offset behind all earlier
        fields. */
    method Add(l: Layout) returns (offset: nat)
      requires Valid(l)
      modifies this
      ensures Contents() == Placed(old(Contents()), l)
      ensures offset == NextMultipleOf(old(size), l.align)
      ensures old(size) <= offset && offset % l.align == 0 && size == offset + l.size
      ensures forall m: nat :: old(size) <= m && m % l.align == 0 ==> offset <= m
    {
      NextMultipleIsLeast(size, l.align);
      offset := NextMultipleOf(size, l.align);
      align := Max(align, l.align);
      size := offset + l.size;
    }

    /** Building always ends in a valid layout. */
    method Finish() returns (l: Option<Layout>)
      requires Sound(Contents())
      ensures l == Some(Finished(Contents())) && Valid(l.value)
    {
      NextMultipleIsLeast(size, align);
      l := NewLayout(NextMultipleOf(size, align), align);
    }
  }

  /** All fields placed in order. */
  function Fill(b: Building, fields: seq<Layout>): Building
    requires forall i :: 0 <= i < |fields| ==> fields[i].align > 0
  {
    if fields == [] then b
    else Placed(Fill(b, fields[..|fields| - 1]), fields[|fields| - 1])
  }

  /** Where field i ends up. */
  function OffsetOf(b: Building, fields: seq<Layout>, i: nat): nat
    requires i < |fields| && forall k :: 0 <= k < |fields| ==> fields[k].align > 0
  {
    NextMultipleOf(Fill(b, fields[..i]).size, fields[i].align)
  }

  predicate AllValid(fields: seq<Layout>) {
    forall i :: 0 <= i < |fields| ==> Valid(fields[i])
  }

  lemma {:induction false} FillStep(b: Building, fields: seq<Layout>, i: nat)
    requires AllValid(fields) && i < |fields|
    ensures Fill(b, fields[..i + 1]) == Placed(Fill(b, fields[..i]), fields[i])
  {
    assert fields[..i + 1][..i] == fields[..i];
  }

  lemma {:induction false} PlacedGrows(b: Building, l: Layout)
    requires Sound(b) && Valid(l)
    ensures Sound(Placed(b, l)) && b.size <= Placed(b, l).size && b.align <= Placed(b, l).align
    ensures Placed(b, l).align % l.align == 0 && Placed(b, l).align % b.align == 0
  {
    NextMultipleIsLeast(b.size, l.align);
    if b.align < l.align { PowersDivide(b.align, l.align); } else { PowersDivide(l.align, b.align); }
  }

  lemma {:induction false} FillGrows(b: Building, fields: seq<Layout>, i: nat)
    requires Sound(b) && AllValid(fields) && i <= |fields|
    ensures Sound(Fill(b, fields)) && Sound(Fill(b, fields[..i]))
    ensures Fill(b, fields[..i]).size <= Fill(b, fields).size && Fill(b, fields).align % Fill(b, fields[..i]).align == 0
    decreases |fields|
  {
    if i == |fields| {
      assert fields[..i] == fields;
      if fields != [] {
        FillGrows(b, fields[..i - 1], 0);
        PlacedGrows(Fill(b, fields[..i - 1]), fields[i - 1]);
      }
    } else {
      var k := |fields| - 1;
      assert fields[..k][..i] == fields[..i];
      FillGrows(b, fields[..k], i);
      var before, last := Fill(b, fields[..k]), fields[k];
      PlacedGrows(before, last);
      DividesThrough(Fill(b, fields[..i]).align, before.align, Fill(b, fields).align);
    }
  }

  /** Every field is aligned, starts behind the earlier ones and lies inside
      the finished layout. */
  lemma {:induction false} FieldFits(b: Building, fields: seq<Layout>, i: nat)
    requires Sound(b) && AllValid(fields) && i < |fields|
    ensures Sound(Fill(b, fields)) && Sound(Fill(b, fields[..i])) && Valid(Finished(Fill(b, fields)))
    ensures OffsetOf(b, fields, i) % fields[i].align == 0
    ensures b.size <= Fill(b, fields[..i]).size <= OffsetOf(b, fields, i)
    ensures OffsetOf(b, fields, i) + fields[i].size <= Finished(Fill(b, fields)).size
    ensures Finished(Fill(b, fields)).align % fields[i].align == 0
  {
    FillGrows(b, fields[..i], 0);
    FillGrows(b, fields, i + 1);
    FillStep(b, fields, i);
    var before, all := Fill(b, fields[..i]), Fill(b, fields);
    assert fields[..i][..0] == [];
    NextMultipleIsLeast(before.size, fields[i].align);
    NextMultipleIsLeast(all.size, all.align);
    PlacedGrows(before, fields[i]);
    DividesThrough(fields[i].align, Fill(b, fields[..i + 1]).align, all.align);
  }

  /** Different fields never overlap. */
  lemma {:induction false} FieldsApart(b: Building, fields: seq<Layout>, i: nat, j: nat)
    requires Sound(b) && AllValid(fields) && i < j < |fields|
    ensures OffsetOf(b, fields, i) + fields[i].size <= OffsetOf(b, fields, j)
  {
    FillStep(b, fields, i);
    FillGrows(b, fields[..j], i + 1);
    assert fields[..j][..i + 1] == fields[..i + 1];
    NextMultipleIsLeast(Fill(b, fields[..j]).size, fields[j].align);
  }

  /** Fields at these offsets, one behind the other, aligned, and inside a
      layout. */
  predicate InOrder(start: nat, fields: seq<Layout>, at: seq<nat>, c: Layout) {
    && |at| == |fields| && start <= c.size
    && (forall i :: 0 <= i < |at| ==> start <= at[i] && fields[i].align > 0 && at[i] % fields[i].align == 0)
    && (forall i :: 0 <= i < |at| ==> at[i] + fields[i].size <= c.size && c.align % fields[i].align == 0)
    && (forall i, j :: 0 <= i < j < |at| ==> at[i] + fields[i].size <= at[j])
  }

  function Offsets(b: Building, fields: seq<Layout>): seq<nat>
    requires AllValid(fields)
  {
    seq(|fields|, i requires 0 <= i < |fields| => OffsetOf(b, fields, i))
  }

  /** The builder places fields in such a way. */
  lemma {:induction false} FillIsInOrder(b: Building, fields: seq<Layout>)
    requires Sound(b) && AllValid(fields)
    ensures Sound(Fill(b, fields))
    ensures InOrder(b.size, fields, Offsets(b, fields), Finished(Fill(b, fields)))
  {
    hide OffsetOf, Fill, Finished;
    FinishedIsLarger(b, fields);
    forall i | 0 <= i < |fields|
      ensures b.size <= OffsetOf(b, fields, i) && OffsetOf(b, fields, i) % fields[i].align == 0
      ensures OffsetOf(b, fields, i) + fields[i].size <= Finished(Fill(b, fields)).size
      ensures Finished(Fill(b, fields)).align % fields[i].align == 0
    {
      FieldFits(b, fields, i);
    }
    forall i, j | 0 <= i < j < |fields|
      ensures OffsetOf(b, fields, i) + fields[i].size <= OffsetOf(b, fields, j)
    {
      FieldsApart(b, fields, i, j);
    }
  }

  lemma {:induction false} FinishedIsLarger(b: Building, fields: seq<Layout>)
    requires Sound(b) && AllValid(fields)
    ensures Sound(Fill(b, fields)) && b.size <= Finished(Fill(b, fields)).size
  {
    FillGrows(b, fields, 0);
    assert fields[..0] == [];
    NextMultipleIsLeast(Fill(b, fields).size, Fill(b, fields).align);
  }

  /** No other such way puts a field further to the front, or ends in a smaller
      or less aligned layout. */
  lemma {:induction false} FillIsLeast(b: Building, fields: seq<Layout>, at: seq<nat>, c: Layout)
    requires Sound(b) && AllValid(fields) && Valid(c) && InOrder(b.size, fields, at, c) && c.align % b.align == 0
    ensures forall i :: 0 <= i < |fields| ==> OffsetOf(b, fields, i) <= at[i]
    ensures Sound(Fill(b, fields)) && Covers(c, Finished(Fill(b, fields)))
  {
    forall i | 0 <= i < |fields|
      ensures OffsetOf(b, fields, i) <= at[i]
    {
      FillIsBelow(b, fields, at, c, i);
      NextMultipleIsLeast(Fill(b, fields[..i]).size, fields[i].align);
    }
    FillIsBelow(b, fields, at, c, |fields|);
    assert fields[..|fields|] == fields;
    var all := Fill(b, fields);
    DividesThrough(all.align, c.align, c.size);
    NextMultipleIsLeast(all.size, all.align);
  }

  lemma {:induction false} FillIsBelow(b: Building, fields: seq<Layout>, at: seq<nat>, c: Layout, i: nat)
    requires Sound(b) && AllValid(fields) && InOrder(b.size, fields, at, c) && c.align % b.align == 0 && i <= |fields|
    ensures Fill(b, fields[..i]).size <= if i < |fields| then at[i] else c.size
    ensures Sound(Fill(b, fields[..i])) && c.align % Fill(b, fields[..i]).align == 0
    decreases i
  {
    hide Placed, IsPowerOfTwo;
    if i > 0 {
      FillIsBelow(b, fields, at, c, i - 1);
      FillStep(b, fields, i - 1);
      PlacedIsBelow(Fill(b, fields[..i - 1]), fields[i - 1], at[i - 1], c);
    }
  }

  lemma {:induction false} PlacedIsBelow(b: Building, l: Layout, at: nat, c: Layout)
    requires Sound(b) && Valid(l) && b.size <= at && at % l.align == 0
    requires c.align % b.align == 0 && c.align % l.align == 0
    ensures Placed(b, l).size <= at + l.size && Sound(Placed(b, l)) && c.align % Placed(b, l).align == 0
  {
    NextMultipleIsLeast(b.size, l.align);
  }

  // ------------------------------------------------------- concat, offset_by

  /** concat: the C layout of a list of fields. */
  method Concat(fields: seq<Layout>) returns (l: Option<Layout>)
    requires AllValid(fields)
    ensures l == Some(Finished(Fill(EMPTY, fields))) && Valid(l.value)
    ensures forall i :: 0 <= i < |fields| ==>
      OffsetOf(EMPTY, fields, i) + fields[i].size <= l.value.size && l.value.align % fields[i].align == 0
  {
    var builder := new LayoutBuilder();
    var i := 0;
    while i < |fields|
      invariant 0 <= i <= |fields| && fresh(builder)
      invariant builder.Contents() == Fill(EMPTY, fields[..i]) && Sound(builder.Contents())
    {
      FillStep(EMPTY, fields, i);
      PlacedGrows(builder.Contents(), fields[i]);
      var _ := builder.Add(fields[i]);
      i := i + 1;
    }
    assert fields[..i] == fields;
    l := builder.Finish();
    forall i | 0 <= i < |fields|
      ensures OffsetOf(EMPTY, fields, i) + fields[i].size <= l.value.size && l.value.align % fields[i].align == 0
    {
      FieldFits(EMPTY, fields, i);
    }
  }

  /** offset_by: the least offset, not below n, at which the layout may go. */
  method OffsetBy(l: Layout, n: nat) returns (offset: nat)
    requires Valid(l)
    ensures n <= offset && offset % l.align == 0
    ensures forall m: nat :: n <= m && m % l.align == 0 ==> offset <= m
  {
    var builder := new LayoutBuilder();
    var _ := builder.Add(Layout(n, 1));
    offset := builder.Add(l);
  }
}

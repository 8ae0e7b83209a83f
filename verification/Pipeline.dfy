/** Lowering of all functions in compilation order, followed by dead code
    elimination (lower_to_mir in src/mir/lower.rs). */
module Pipeline {
  import opened Mir
  import DeadCode
  import L = Lowering
  import Low = Lowerer
  import LoweredFunctions

  /** The functions of all modules by name; a later one replaces an earlier one
      of the same name. */
  function Declared(declarations: seq<(Name, L.Function)>): map<Name, L.Function> {
    if declarations == [] then map[] else
      var last := declarations[|declarations| - 1];
      Declared(declarations[..|declarations| - 1])[last.0 := last.1]
  }

  ghost predicate IsDeclared(declarations: seq<(Name, L.Function)>, x: Name) {
    exists k :: 0 <= k < |declarations| && declarations[k].0 == x
  }

  /** Declaration k is the last one of the name. */
  predicate IsLast(declarations: seq<(Name, L.Function)>, k: nat, x: Name) {
    && k < |declarations| && declarations[k].0 == x
    && forall l :: k < l < |declarations| ==> declarations[l].0 != x
  }

  lemma {:induction false} DeclaredWithMore(before: seq<(Name, L.Function)>, last: (Name, L.Function), x: Name)
    ensures IsDeclared(before + [last], x) <==> IsDeclared(before, x) || last.0 == x
  {
    var more := before + [last];
    assert more[|before|] == last;
    assert forall k :: 0 <= k < |before| ==> more[k] == before[k];
    if IsDeclared(before, x) {
      var k :| 0 <= k < |before| && before[k].0 == x;
      assert more[k].0 == x;
    }
  }

  /** The names of the map are the declared ones. */
  lemma {:induction false} DeclaredNames(declarations: seq<(Name, L.Function)>, x: Name)
    ensures x in Declared(declarations) <==> IsDeclared(declarations, x)
    decreases |declarations|
  {
    hide IsDeclared;
    if declarations == [] {
      NothingDeclared(x);
    } else {
      var n := |declarations| - 1;
      DeclaredNames(declarations[..n], x);
      DeclaredWithMore(declarations[..n], declarations[n], x);
      assert declarations == declarations[..n] + [declarations[n]];
    }
  }

  lemma {:induction false} NothingDeclared(x: Name)
    ensures !IsDeclared([], x)
  {
  }

  /** Every name has its last declaration. */
  lemma {:induction false} DeclaredIsLast(declarations: seq<(Name, L.Function)>, k: nat, x: Name)
    requires IsLast(declarations, k, x)
    ensures x in Declared(declarations) && Declared(declarations)[x] == declarations[k].1
    decreases |declarations|
  {
    var n := |declarations| - 1;
    if k < n {
      DeclaredIsLast(declarations[..n], k, x);
    }
  }

  /** The declared functions in the given order, each once. */
  function Ordered(declared: map<Name, L.Function>, order: seq<Name>): seq<(Name, L.Function)> {
    if order == [] then [] else
      var n := |order| - 1;
      var before := Ordered(declared, order[..n]);
      if order[n] in declared && order[n] !in order[..n] then before + [(order[n], declared[order[n]])] else before
  }

  ghost predicate IsItem(items: seq<(Name, L.Function)>, x: Name) {
    exists k :: 0 <= k < |items| && items[k].0 == x
  }

  lemma {:induction false} IsItemOfMore(items: seq<(Name, L.Function)>, item: (Name, L.Function), x: Name)
    ensures IsItem(items + [item], x) <==> IsItem(items, x) || item.0 == x
  {
    var more := items + [item];
    assert more[|items|] == item;
    if IsItem(items, x) {
      var k :| 0 <= k < |items| && items[k].0 == x;
      assert more[k] == items[k];
    }
    if IsItem(more, x) && item.0 != x {
      var k :| 0 <= k < |more| && more[k].0 == x;
      assert more[k] == items[k];
    }
  }

  /** The items are exactly the declared functions of the order. */
  lemma {:induction false} OrderedIsComplete(declared: map<Name, L.Function>, order: seq<Name>, x: Name)
    ensures IsItem(Ordered(declared, order), x) <==> x in declared && x in order
    ensures forall item :: item in Ordered(declared, order) ==>
      item.0 in declared && item.0 in order && item.1 == declared[item.0]
    decreases |order|
  {
    if order == [] {
    } else {
      hide IsItem;
      var n := |order| - 1;
      OrderedIsComplete(declared, order[..n], x);
      assert order == order[..n] + [order[n]];
      if order[n] in declared && order[n] !in order[..n] {
        IsItemOfMore(Ordered(declared, order[..n]), (order[n], declared[order[n]]), x);
      }
    }
  }

  ghost predicate ItemBefore(items: seq<(Name, L.Function)>, x: Name, y: Name) {
    exists k, l :: 0 <= k < l < |items| && items[k].0 == x && items[l].0 == y
  }

  /** A name that first occurs earlier is an earlier item. */
  lemma {:induction false} OrderIsKept(declared: map<Name, L.Function>, order: seq<Name>, i: nat, j: nat)
    requires i < j < |order| && order[i] in declared && order[j] in declared && order[j] !in order[..j]
    ensures ItemBefore(Ordered(declared, order), order[i], order[j])
    decreases |order|
  {
    var n := |order| - 1;
    var items, before := Ordered(declared, order), Ordered(declared, order[..n]);
    if j < n {
      assert order[..n][..j] == order[..j];
      OrderIsKept(declared, order[..n], i, j);
      var k, l :| 0 <= k < l < |before| && before[k].0 == order[i] && before[l].0 == order[j];
      assert items[k] == before[k] && items[l] == before[l];
    } else {
      OrderedIsComplete(declared, order[..n], order[i]);
      assert order[..n][i] == order[i];
      var k :| 0 <= k < |before| && before[k].0 == order[i];
      assert items[k].0 == order[i] && items[|before|].0 == order[j];
    }
  }

  /** Position i of the order is the first one of the name. */
  predicate IsFirst(order: seq<Name>, i: nat, x: Name) {
    i < |order| && order[i] == x && x !in order[..i]
  }

  lemma {:induction false} HasFirst(order: seq<Name>, x: Name) returns (i: nat)
    requires x in order
    ensures IsFirst(order, i, x)
    decreases |order|
  {
    var n := |order| - 1;
    if x in order[..n] {
      i := HasFirst(order[..n], x);
      assert order[..n][..i] == order[..i];
    } else {
      i := n;
    }
  }

  /** Items come in the order in which their names first occur. */
  lemma {:induction false} ItemsFollowOrder(declared: map<Name, L.Function>, order: seq<Name>,
      k: nat, l: nat, i: nat, j: nat)
    requires k < l < |Ordered(declared, order)|
    requires IsFirst(order, i, Ordered(declared, order)[k].0) && IsFirst(order, j, Ordered(declared, order)[l].0)
    ensures i < j
    decreases |order|
  {
    var n := |order| - 1;
    var items, before := Ordered(declared, order), Ordered(declared, order[..n]);
    FirstInPrefix(declared, order, k, i);
    if l < |before| {
      FirstInPrefix(declared, order, l, j);
      ItemsFollowOrder(declared, order[..n], k, l, i, j);
    } else {
      assert items[l].0 == order[n];
    }
  }

  lemma {:induction false} FirstInPrefix(declared: map<Name, L.Function>, order: seq<Name>, k: nat, i: nat)
    requires order != [] && k < |Ordered(declared, order[..|order| - 1])|
    requires IsFirst(order, i, Ordered(declared, order[..|order| - 1])[k].0)
    ensures IsFirst(order[..|order| - 1], i, Ordered(declared, order[..|order| - 1])[k].0)
  {
    var n := |order| - 1;
    var item := Ordered(declared, order[..n])[k];
    OrderedIsComplete(declared, order[..n], item.0);
    assert item in Ordered(declared, order[..n]);
    assert item.0 in order[..n];
    if i < n {
      assert order[..n][..i] == order[..i];
    }
  }

  /** What the items are, in terms of the declarations and the order. */
  ghost predicate AreItems(items: seq<(Name, seq<Block>)>, declarations: seq<(Name, L.Function)>, order: seq<Name>) {
    && (forall x :: HasItem(items, x) <==> x in order && IsDeclared(declarations, x))
    && (forall k, l :: 0 <= k < l < |items| ==> items[k].0 != items[l].0)
    && (forall k, l, i: nat, j: nat ::
          0 <= k < l < |items| && IsFirst(order, i, items[k].0) && IsFirst(order, j, items[l].0) ==> i < j)
    && (forall k, d: nat :: 0 <= k < |items| && IsLast(declarations, d, items[k].0) ==>
          items[k].1 == DeadCode.Pruned(L.LowerFunction(declarations[d].1).blocks))
  }

  ghost predicate HasItem(items: seq<(Name, seq<Block>)>, x: Name) {
    exists k :: 0 <= k < |items| && items[k].0 == x
  }

  lemma {:induction false} ItemsAre(items: seq<(Name, seq<Block>)>, declarations: seq<(Name, L.Function)>,
      order: seq<Name>)
    requires |items| == |Ordered(Declared(declarations), order)|
    requires forall k :: 0 <= k < |items| ==>
      var source := Ordered(Declared(declarations), order)[k]; items[k].0 == source.0 && IsPruned(items[k].1, source.1)
    ensures AreItems(items, declarations, order)
  {
    hide L.LowerFunction, DeadCode.Pruned, Ordered, Declared, IsFirst, IsDeclared;
    var declared := Declared(declarations);
    var sources := Ordered(declared, order);
    forall x
      ensures HasItem(items, x) <==> x in order && IsDeclared(declarations, x)
    {
      DeclaredNames(declarations, x);
      OrderedIsComplete(declared, order, x);
      SameNames(items, sources, x);
    }
    forall k, l | 0 <= k < l < |items|
      ensures items[k].0 != items[l].0
    {
      assert HasItem(items, items[k].0) && HasItem(items, items[l].0);
      var i := HasFirst(order, items[k].0);
      var j := HasFirst(order, items[l].0);
      ItemsFollowOrder(declared, order, k, l, i, j);
      FirstsDiffer(order, i, items[k].0, j, items[l].0);
    }
    forall k, l, i: nat, j: nat | 0 <= k < l < |items| && IsFirst(order, i, items[k].0) && IsFirst(order, j, items[l].0)
      ensures i < j
    {
      ItemsFollowOrder(declared, order, k, l, i, j);
    }
    forall k, d: nat | 0 <= k < |items| && IsLast(declarations, d, items[k].0)
      ensures items[k].1 == DeadCode.Pruned(L.LowerFunction(declarations[d].1).blocks)
    {
      DeclaredIsLast(declarations, d, items[k].0);
      OrderedIsComplete(declared, order, items[k].0);
      assert sources[k] in sources;
    }
  }

  lemma {:induction false} FirstsDiffer(order: seq<Name>, i: nat, x: Name, j: nat, y: Name)
    requires IsFirst(order, i, x) && IsFirst(order, j, y) && i < j
    ensures x != y
  {
    assert order[..j][i] == x;
  }

  lemma {:induction false} SameNames(items: seq<(Name, seq<Block>)>, sources: seq<(Name, L.Function)>, x: Name)
    requires |items| == |sources| && forall k :: 0 <= k < |items| ==> items[k].0 == sources[k].0
    ensures HasItem(items, x) <==> IsItem(sources, x)
  {
  }

  ghost predicate IsLowered(blocks: seq<Block>, f: L.Function) {
    blocks == L.LowerFunction(f).blocks
  }

  ghost predicate IsPruned(blocks: seq<Block>, f: L.Function) {
    blocks == DeadCode.Pruned(L.LowerFunction(f).blocks)
  }

  /** Neither pass panics.  Every declared name in the compilation order has one
      item, in the order of first occurrences, with the pruned blocks of its last
      declaration; PipelineIsCorrect is about these blocks. */
  method LowerToMir(declarations: seq<(Name, L.Function)>,
      order: seq<Name>) returns (items: seq<(Name, seq<Block>)>, ok: bool)
    ensures ok && AreItems(items, declarations, order)
  {
    hide IsLowered, IsPruned, AreItems;
    items := Tree(declarations, order);
    ghost var expected := Ordered(Declared(declarations), order);
    ok := true;
    for i := 0 to |items|
      invariant ok && |items| == |expected|
      invariant forall k :: 0 <= k < i ==> items[k].0 == expected[k].0 && IsPruned(items[k].1, expected[k].1)
      invariant forall k :: i <= k < |items| ==> items[k].0 == expected[k].0 && IsLowered(items[k].1, expected[k].1)
    {
      var blocks, done := EliminateDeadCode(items[i].1, expected[i].1);
      items, ok := items[i := (items[i].0, blocks)], done;
    }
    ItemsAre(items, declarations, order);
  }

  /** Lowering of all functions; then the items in compilation order. */
  method Tree(declarations: seq<(Name, L.Function)>, order: seq<Name>) returns (items: seq<(Name, seq<Block>)>)
    ensures |items| == |Ordered(Declared(declarations), order)|
    ensures forall k :: 0 <= k < |items| ==>
      var source := Ordered(Declared(declarations), order)[k]; items[k].0 == source.0 && IsLowered(items[k].1, source.1)
  {
    hide IsLowered;
    var lowered: map<Name, seq<Block>> := map[];
    for i := 0 to |declarations|
      invariant lowered.Keys == Declared(declarations[..i]).Keys
      invariant forall x :: x in lowered ==> IsLowered(lowered[x], Declared(declarations[..i])[x])
    {
      assert declarations[..i + 1][..i] == declarations[..i];
      var blocks := LowerItem(declarations[i].1);
      lowered := lowered[declarations[i].0 := blocks];
    }
    assert declarations[..|declarations|] == declarations;
    ghost var declared := Declared(declarations);
    items := [];
    for i := 0 to |order|
      invariant forall x :: x in lowered <==> x in declared && x !in order[..i]
      invariant forall x :: x in lowered ==> IsLowered(lowered[x], declared[x])
      invariant |items| == |Ordered(declared, order[..i])|
      invariant forall k :: 0 <= k < |items| ==>
        items[k].0 == Ordered(declared, order[..i])[k].0 && IsLowered(items[k].1, Ordered(declared, order[..i])[k].1)
    {
      assert order[..i + 1][..i] == order[..i] && order[..i + 1] == order[..i] + [order[i]];
      if order[i] in lowered {
        items := items + [(order[i], lowered[order[i]])];
        lowered := lowered - {order[i]};
      }
    }
    assert order[..|order|] == order;
  }

  method LowerItem(f: L.Function) returns (blocks: seq<Block>)
    ensures IsLowered(blocks, f) && !L.LowerFunction(f).panicked
  {
    var lowerer := new Low.Lowerer(f.returnType);
    lowerer.FunctionLike(f);
    LoweredFunctions.LoweredShape(f);
    blocks := lowerer.blocks;
  }

  method EliminateDeadCode(blocks: seq<Block>, ghost f: L.Function) returns (pruned: seq<Block>, ok: bool)
    requires IsLowered(blocks, f)
    ensures ok && IsPruned(pruned, f)
  {
    LoweredFunctions.LoweredShape(f);
    LoweredFunctions.LoweredIsProcessable(f);
    var item := new DeadCode.Item(blocks);
    ok := DeadCode.ProcessItem(item);
    pruned := item.blocks;
  }
}

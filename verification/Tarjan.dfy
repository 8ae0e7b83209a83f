/** Strongly connected components by Tarjan's algorithm
    (src/typechecker/value_cycle.rs).

    The imperative part follows the source: a State whose stack, vertex table,
    index counter and component list are updated in place.  The iteration order
    of the ordered maps and sets of the source is left open (an arbitrary
    remaining element is picked), so every result holds for every order.

    The reasoning is about Snapshots, plain values of such a state.
 */
module Tarjan {
  import opened Collections
  import opened Digraph

  datatype VertexState = VertexState(index: nat, lowlink: nat)

  datatype Snapshot<V(==)> = Snapshot(
    stack: seq<V>,
    vertices: map<V, VertexState>,
    nextIndex: nat,
    components: seq<seq<V>>)

  // ---------------------------------------------------------------- results

  ghost predicate Listed<V(!new)>(components: seq<seq<V>>, v: V) {
    exists i :: 0 <= i < |components| && v in components[i]
  }

  /** No vertex is listed twice, neither within a component nor in two. */
  ghost predicate Partition<V(!new)>(components: seq<seq<V>>) {
    && (forall i :: 0 <= i < |components| ==> components[i] != [] && NoDuplicates(components[i]))
    && (forall i, j, v ::
          0 <= i < |components| && 0 <= j < |components| && v in components[i] && v in components[j] ==> i == j)
  }

  ghost predicate InnerReach<V(!new)>(g: Graph<V>, components: seq<seq<V>>) {
    forall i, u, w :: 0 <= i < |components| && u in components[i] && w in components[i] ==> Reaches(g, u, w)
  }

  /** Every edge out of component i leads into component i or an earlier one. */
  ghost predicate EdgesLeadBack<V(!new)>(g: Graph<V>, components: seq<seq<V>>) {
    forall i, u, w :: 0 <= i < |components| && u in components[i] && w in Successors(g, u) ==>
      ListedUpTo(components, i, w)
  }

  ghost predicate ListedUpTo<V(!new)>(components: seq<seq<V>>, i: nat, w: V)
    requires i < |components|
  {
    exists j :: 0 <= j <= i && w in components[j]
  }

  ghost predicate SameComponent<V(!new)>(components: seq<seq<V>>, u: V, w: V) {
    exists i :: 0 <= i < |components| && u in components[i] && w in components[i]
  }

  /** The components list each vertex of the graph exactly once. */
  ghost predicate Covers<V(!new)>(g: Graph<V>, components: seq<seq<V>>) {
    && Partition(components)
    && forall v :: v in Vertices(g) <==> Listed(components, v)
  }

  /** Two vertices share a component exactly when each reaches the other. */
  ghost predicate StronglyConnected<V(!new)>(g: Graph<V>, components: seq<seq<V>>) {
    forall u, w :: u in Vertices(g) && w in Vertices(g) ==>
      (SameComponent(components, u, w) <==> MutuallyReach(g, u, w))
  }

  /** What a vertex reaches is in its own component or strictly before it. */
  ghost predicate ReverseTopological<V(!new)>(g: Graph<V>, components: seq<seq<V>>) {
    forall i, j, u, w :: 0 <= i < |components| && 0 <= j < |components| ==>
      (u in components[i] && w in components[j] && Reaches(g, u, w) ==> j <= i)
  }

  ghost predicate IsDecomposition<V(!new)>(g: Graph<V>, components: seq<seq<V>>) {
    Covers(g, components) && StronglyConnected(g, components) && ReverseTopological(g, components)
  }

  // -------------------------------------------------------------- invariant

  function Index<V(==)>(s: Snapshot<V>, v: V): nat {
    if v in s.vertices then s.vertices[v].index else 0
  }

  ghost predicate StackSorted<V(!new)>(s: Snapshot<V>) {
    && (forall v :: v in s.stack ==> v in s.vertices)
    && (forall i, j :: 0 <= i < j < |s.stack| ==> Index(s, s.stack[i]) < Index(s, s.stack[j]))
  }

  ghost predicate Bookkeeping<V(!new)>(g: Graph<V>, s: Snapshot<V>) {
    && StackSorted(s)
    && (forall v :: v in s.vertices ==> Index(s, v) < s.nextIndex)
    && s.vertices.Keys <= Vertices(g)
    && (forall v :: v in s.vertices <==> v in s.stack || Listed(s.components, v))
    && (forall v :: v in s.stack ==> !Listed(s.components, v))
  }

  /** Vertices whose visit has ended have only visited successors. */
  ghost predicate EndedSeesVisited<V(!new)>(g: Graph<V>, s: Snapshot<V>, active: set<V>) {
    forall v, w :: v in s.vertices && v !in active && w in Successors(g, v) ==> w in s.vertices
  }

  /** An active vertex reaches everything at or above it on the stack. */
  ghost predicate ActiveReachesUp<V(!new)>(g: Graph<V>, s: Snapshot<V>, active: set<V>)
  {
    forall a, x :: a in active && x in s.stack && Index(s, a) <= Index(s, x) ==> Reaches(g, a, x)
  }

  ghost predicate ReachesActive<V(!new)>(g: Graph<V>, s: Snapshot<V>, active: set<V>, x: V)
  {
    exists a :: a in active && Index(s, a) <= Index(s, x) && Reaches(g, x, a)
  }

  ghost predicate AllReachActive<V(!new)>(g: Graph<V>, s: Snapshot<V>, active: set<V>) {
    forall x {:trigger ReachesActive(g, s, active, x)} :: x in s.stack ==> ReachesActive(g, s, active, x)
  }

  ghost predicate Inv<V(!new)>(g: Graph<V>, s: Snapshot<V>, active: set<V>) {
    && Bookkeeping(g, s)
    && (forall a :: a in active ==> a in s.stack)
    && EndedSeesVisited(g, s, active)
    && ActiveReachesUp(g, s, active)
    && AllReachActive(g, s, active)
    && Partition(s.components)
    && InnerReach(g, s.components)
    && EdgesLeadBack(g, s.components)
  }

  /** s has grown into t: nothing already recorded was changed. */
  ghost predicate Grown<V(!new)>(s: Snapshot<V>, t: Snapshot<V>) {
    && s.stack <= t.stack
    && (forall v :: v in s.vertices ==> v in t.vertices && t.vertices[v] == s.vertices[v])
    && s.components <= t.components
    && s.nextIndex <= t.nextIndex
  }

  /** n is the smallest index seen from v: either v's own, or that of an older
      stack vertex that v reaches. */
  ghost predicate LowlinkWitness<V(!new)>(g: Graph<V>, base: Snapshot<V>, v: V, index: nat, n: nat)
  {
    && n <= index
    && (n < index ==> exists y :: y in base.stack && Index(base, y) == n && Reaches(g, v, y))
  }

  /** No edge from the part of s.stack above base.stack into base.stack leads
      below n; of vertex v only the successors outside rest are considered. */
  ghost predicate CrossingEdges<V(!new)>(g: Graph<V>, base: Snapshot<V>, s: Snapshot<V>, v: V, rest: set<V>, n: nat)
  {
    forall i, y :: |base.stack| <= i < |s.stack| && y in base.stack && y in Successors(g, s.stack[i])
      && (s.stack[i] != v || y !in rest)
      ==> n <= Index(base, y)
  }

  /** What strongly_connect(v) establishes, started in base. */
  ghost predicate Visited<V(!new)>(g: Graph<V>, base: Snapshot<V>, s: Snapshot<V>, active: set<V>, v: V) {
    && Inv(g, s, active)
    && Grown(base, s)
    && v in s.vertices
    && s.vertices[v].index == base.nextIndex
    && LowlinkWitness(g, base, v, base.nextIndex, s.vertices[v].lowlink)
    && CrossingEdges(g, base, s, v, {}, s.vertices[v].lowlink)
  }

  /** The invariant of the loop over the successors of v; rest are those not
      yet looked at. */
  ghost predicate Visiting<V(!new)>(g: Graph<V>, base: Snapshot<V>, s: Snapshot<V>,
      active: set<V>, v: V, rest: set<V>) {
    && v !in base.vertices
    && Inv(g, base, active)
    && Inv(g, s, active + {v})
    && Grown(base, s)
    && |base.stack| < |s.stack| && s.stack[|base.stack|] == v
    && v in s.vertices && s.vertices[v].index == base.nextIndex
    && rest <= Successors(g, v)
    && (forall w :: w in Successors(g, v) && w !in rest ==> w in s.vertices)
    && LowlinkWitness(g, base, v, base.nextIndex, s.vertices[v].lowlink)
    && CrossingEdges(g, base, s, v, rest, s.vertices[v].lowlink)
  }

  // ------------------------------------------------------------ transitions

  function Pushed<V(==)>(s: Snapshot<V>, v: V): Snapshot<V> {
    Snapshot(s.stack + [v], s.vertices[v := VertexState(s.nextIndex, s.nextIndex)], s.nextIndex + 1, s.components)
  }

  lemma {:induction false} PushBookkeeping<V(!new)>(g: Graph<V>, s: Snapshot<V>, v: V)
    requires Bookkeeping(g, s)
    requires v in Vertices(g) && v !in s.vertices
    ensures Bookkeeping(g, Pushed(s, v))
  {
    var t := Pushed(s, v);
    assert forall x :: x in t.stack <==> x in s.stack || x == v;
  }

  lemma {:induction false} PushActive<V(!new)>(g: Graph<V>, s: Snapshot<V>, active: set<V>, v: V)
    requires StackSorted(s) && StackSorted(Pushed(s, v)) && v !in s.vertices
    requires forall x :: x in s.vertices ==> Index(s, x) < s.nextIndex
    requires forall a :: a in active ==> a in s.stack
    requires ActiveReachesUp(g, s, active)
    requires AllReachActive(g, s, active)
    requires forall a :: a in active ==> Reaches(g, a, v)
    ensures forall a :: a in active + {v} ==> a in Pushed(s, v).stack
    ensures ActiveReachesUp(g, Pushed(s, v), active + {v})
    ensures AllReachActive(g, Pushed(s, v), active + {v})
  {
    var t := Pushed(s, v);
    assert forall x :: x in t.stack <==> x in s.stack || x == v;
    forall a, x | a in active + {v} && x in t.stack && Index(t, a) <= Index(t, x)
      ensures Reaches(g, a, x)
    {
      if a == v {
        assert x == v;
        ReachesSelf(g, v);
      } else if x != v {
        assert a in active && x in s.stack && Index(s, a) <= Index(s, x);
      }
    }
    forall x | x in t.stack
      ensures ReachesActive(g, t, active + {v}, x)
    {
      if x == v {
        assert v in active + {v};
      } else {
        assert ReachesActive(g, s, active, x);
        var a :| a in active && Index(s, a) <= Index(s, x) && Reaches(g, x, a);
        assert a in active + {v};
      }
    }
  }

  lemma {:induction false} PushVisits<V(!new)>(g: Graph<V>, s: Snapshot<V>, active: set<V>, v: V)
    requires Inv(g, s, active)
    requires v in Vertices(g) && v !in s.vertices
    requires forall a :: a in active ==> Reaches(g, a, v)
    ensures Visiting(g, s, Pushed(s, v), active, v, Successors(g, v))
  {
    PushBookkeeping(g, s, v);
    PushActive(g, s, active, v);
  }

  /** The state after update_lowlink(v, n). */
  function Relinked<V(==)>(s: Snapshot<V>, v: V, n: nat): Snapshot<V>
    requires v in s.vertices
  {
    var low := s.vertices[v].lowlink;
    s.(vertices := s.vertices[v := s.vertices[v].(lowlink := if n < low then n else low)])
  }

  /** The invariant speaks of indices only, never of lowlinks. */
  lemma {:induction false} RelinkKeepsInv<V(!new)>(g: Graph<V>, s: Snapshot<V>, active: set<V>, v: V, n: nat)
    requires Inv(g, s, active) && v in s.vertices
    ensures Inv(g, Relinked(s, v, n), active)
  {
    var t := Relinked(s, v, n);
    assert forall x :: Index(t, x) == Index(s, x);
    assert StackSorted(t);
    forall x | x in t.stack
      ensures ReachesActive(g, t, active, x)
    {
      assert ReachesActive(g, s, active, x);
      var a :| a in active && Index(s, a) <= Index(s, x) && Reaches(g, x, a);
    }
  }

  /** A successor of v that is visited and no longer on the stack. */
  lemma {:induction false} SkipListed<V(!new)>(g: Graph<V>, base: Snapshot<V>, s: Snapshot<V>,
      active: set<V>, v: V, rest: set<V>, w: V)
    requires Visiting(g, base, s, active, v, rest)
    requires w in rest && w in s.vertices && w !in s.stack
    ensures Visiting(g, base, s, active, v, rest - {w})
  {
  }

  /** A successor of v that is on the stack. */
  lemma {:induction false} LinkToStack<V(!new)>(g: Graph<V>, base: Snapshot<V>, s: Snapshot<V>,
      active: set<V>, v: V, rest: set<V>, w: V)
    requires Visiting(g, base, s, active, v, rest)
    requires w in rest && w in s.stack
    ensures Visiting(g, base, Relinked(s, v, Index(s, w)), active, v, rest - {w})
  {
    var t := Relinked(s, v, Index(s, w));
    RelinkKeepsInv(g, s, active + {v}, v, Index(s, w));
    ReachesStep(g, v, w);
    assert Index(t, v) == Index(s, v);
    if Index(s, w) < base.nextIndex {
      StackBelow(base, s, w);
    }
    assert CrossingEdges(g, base, t, v, rest - {w}, t.vertices[v].lowlink) by {
      CrossingWeakens(g, base, s, t, v, rest, w);
    }
  }

  lemma {:induction false} CrossingWeakens<V(!new)>(g: Graph<V>, base: Snapshot<V>, s: Snapshot<V>,
      t: Snapshot<V>, v: V, rest: set<V>, w: V)
    requires v in s.vertices && t == Relinked(s, v, Index(s, w))
    requires CrossingEdges(g, base, s, v, rest, s.vertices[v].lowlink)
    requires w in base.stack ==> Index(base, w) == Index(s, w)
    ensures CrossingEdges(g, base, t, v, rest - {w}, t.vertices[v].lowlink)
  {
  }

  /** On the stack of s, what is indexed before base.nextIndex is in base. */
  lemma {:induction false} StackBelow<V(!new)>(base: Snapshot<V>, s: Snapshot<V>, w: V)
    requires StackSorted(s) && base.stack <= s.stack
    requires forall x :: x in base.stack ==> x in base.vertices
    requires forall x :: x in base.vertices ==> Index(s, x) == Index(base, x)
    requires |base.stack| < |s.stack| && Index(s, s.stack[|base.stack|]) == base.nextIndex
    requires w in s.stack && Index(s, w) < base.nextIndex
    ensures w in base.stack && Index(base, w) == Index(s, w)
  {
    var i :| 0 <= i < |s.stack| && s.stack[i] == w;
    assert i < |base.stack| && base.stack[i] == w;
  }

  /** The lowlink of the visited successor w, carried over to v. */
  lemma {:induction false} LinkToVisited<V(!new)>(g: Graph<V>, base: Snapshot<V>, s: Snapshot<V>, t: Snapshot<V>,
      active: set<V>, v: V, rest: set<V>, w: V)
    requires Visiting(g, base, s, active, v, rest)
    requires w in rest && w !in s.vertices
    requires Visited(g, s, t, active + {v}, w)
    ensures Visiting(g, base, Relinked(t, v, t.vertices[w].lowlink), active, v, rest - {w})
  {
    var n := t.vertices[w].lowlink;
    var r := Relinked(t, v, n);
    assert t.vertices[v] == s.vertices[v];
    RelinkKeepsInv(g, t, active + {v}, v, n);
    GrownJoin(base, s, t, r, v, n);
    CrossingJoin(g, base, s, t, v, rest, w);
    if n < s.vertices[v].lowlink {
      LinkedOlder(g, base, s, v, w, n);
    }
  }

  lemma {:induction false} LinkedOlder<V(!new)>(g: Graph<V>, base: Snapshot<V>, s: Snapshot<V>, v: V, w: V, n: nat)
    requires StackSorted(s) && base.stack <= s.stack
    requires forall x :: x in base.stack ==> x in base.vertices
    requires forall x :: x in base.vertices ==> Index(s, x) == Index(base, x)
    requires |base.stack| < |s.stack| && Index(s, s.stack[|base.stack|]) == base.nextIndex <= s.nextIndex
    requires w in Successors(g, v) && LowlinkWitness(g, s, w, s.nextIndex, n)
    requires n < base.nextIndex
    ensures exists y :: y in base.stack && Index(base, y) == n && Reaches(g, v, y)
  {
    var y :| y in s.stack && Index(s, y) == n && Reaches(g, w, y);
    StackBelow(base, s, y);
    ReachesStep(g, v, w);
    ReachesJoin(g, v, w, y);
  }

  lemma {:induction false} GrownJoin<V(!new)>(base: Snapshot<V>, s: Snapshot<V>, t: Snapshot<V>,
      r: Snapshot<V>, v: V, n: nat)
    requires Grown(base, s) && Grown(s, t) && v !in base.vertices && v in t.vertices && r == Relinked(t, v, n)
    ensures Grown(base, r)
  {
  }

  lemma {:induction false} CrossingJoin<V(!new)>(g: Graph<V>, base: Snapshot<V>, s: Snapshot<V>,
      t: Snapshot<V>, v: V, rest: set<V>, w: V)
    requires StackSorted(t) && base.stack <= s.stack <= t.stack
    requires v in s.stack && v in s.vertices && v in t.vertices && t.vertices[v] == s.vertices[v]
    requires w !in s.stack && w in t.vertices
    requires forall y :: y in base.stack ==> Index(s, y) == Index(base, y)
    requires CrossingEdges(g, base, s, v, rest, s.vertices[v].lowlink)
    requires CrossingEdges(g, s, t, w, {}, t.vertices[w].lowlink)
    ensures var r := Relinked(t, v, t.vertices[w].lowlink);
      CrossingEdges(g, base, r, v, rest - {w}, r.vertices[v].lowlink)
  {
    var r := Relinked(t, v, t.vertices[w].lowlink);
    forall i, y | |base.stack| <= i < |t.stack| && y in base.stack && y in Successors(g, t.stack[i])
      && (t.stack[i] != v || y !in rest - {w})
      ensures r.vertices[v].lowlink <= Index(base, y)
    {
      if i < |s.stack| {
        assert t.stack[i] == s.stack[i];
      } else {
        assert y in s.stack;
      }
    }
  }

  /** Everything active reaches the successor about to be visited. */
  lemma {:induction false} ActiveReachesSuccessor<V(!new)>(g: Graph<V>, base: Snapshot<V>, s: Snapshot<V>,
      active: set<V>, v: V, rest: set<V>, w: V, a: V)
    requires Visiting(g, base, s, active, v, rest)
    requires w in rest && a in active + {v}
    ensures Reaches(g, a, w)
  {
    assert v in s.stack;
    if a != v {
      assert a in base.stack && Index(s, a) == Index(base, a) < base.nextIndex;
    }
    assert Reaches(g, a, v);
    ReachesStep(g, v, w);
    ReachesJoin(g, a, v, w);
  }

  /** v reaches something older that is still on the stack: v stays there and
      its visit ends. */
  lemma {:induction false} Retire<V(!new)>(g: Graph<V>, base: Snapshot<V>, s: Snapshot<V>, active: set<V>, v: V)
    requires Visiting(g, base, s, active, v, {})
    requires s.vertices[v].lowlink < base.nextIndex
    ensures Visited(g, base, s, active, v)
  {
    RetireStillReaches(g, base, s, active, v);
    RetireKeeps(g, s, active, v);
  }

  lemma {:induction false} RetireStillReaches<V(!new)>(g: Graph<V>, base: Snapshot<V>,
      s: Snapshot<V>, active: set<V>, v: V)
    requires AllReachActive(g, base, active) && AllReachActive(g, s, active + {v})
    requires forall x :: x in base.vertices ==> Index(s, x) == Index(base, x)
    requires forall x :: x in base.stack ==> x in base.vertices
    requires forall a :: a in active ==> a in base.stack
    requires forall x :: x in base.stack ==> Index(base, x) < base.nextIndex
    requires Index(s, v) == base.nextIndex
    requires exists z :: z in base.stack && Reaches(g, v, z)
    ensures AllReachActive(g, s, active)
  {
    var z :| z in base.stack && Reaches(g, v, z);
    assert ReachesActive(g, base, active, z);
    var b :| b in active && Index(base, b) <= Index(base, z) && Reaches(g, z, b);
    ReachesJoin(g, v, z, b);
    forall x | x in s.stack
      ensures ReachesActive(g, s, active, x)
    {
      assert ReachesActive(g, s, active + {v}, x);
      var a :| a in active + {v} && Index(s, a) <= Index(s, x) && Reaches(g, x, a);
      if a == v {
        ReachesJoin(g, x, v, b);
        assert Index(s, b) == Index(base, b);
      }
    }
  }

  lemma {:induction false} RetireKeeps<V(!new)>(g: Graph<V>, s: Snapshot<V>, active: set<V>, v: V)
    requires EndedSeesVisited(g, s, active + {v}) && ActiveReachesUp(g, s, active + {v})
    requires forall w :: w in Successors(g, v) ==> w in s.vertices
    ensures EndedSeesVisited(g, s, active) && ActiveReachesUp(g, s, active)
  {
    forall x, w | x in s.vertices && x !in active && w in Successors(g, x)
      ensures w in s.vertices
    {
      if x != v {
        assert x !in active + {v};
      }
    }
  }

  function Reversed<T>(s: seq<T>): (r: seq<T>)
    ensures |r| == |s| && forall i :: 0 <= i < |s| ==> r[i] == s[|s| - 1 - i]
  {
    if s == [] then [] else Reversed(s[1..]) + [s[0]]
  }

  /** The state after popping the component of v off the stack. */
  function Popped<V(==)>(base: Snapshot<V>, s: Snapshot<V>): Snapshot<V>
    requires |base.stack| <= |s.stack|
  {
    Snapshot(s.stack[..|base.stack|], s.vertices, s.nextIndex, s.components + [Reversed(s.stack[|base.stack|..])])
  }

  /** Without an edge into the older stack, a vertex above it has all its edges
      to vertices that are listed or above it too. */
  lemma {:induction false} SegmentEdges<V(!new)>(g: Graph<V>, base: Snapshot<V>, s: Snapshot<V>,
      active: set<V>, v: V, u: V, w: V)
    requires Visiting(g, base, s, active, v, {})
    requires s.vertices[v].lowlink == base.nextIndex
    requires u in s.stack && u !in base.stack && w in Successors(g, u)
    ensures w in s.vertices && w !in base.stack
  {
    assert u !in active;
    if u != v {
      assert u !in active + {v};
    }
  }

  lemma {:induction false} SegmentClosed<V(!new)>(g: Graph<V>, base: Snapshot<V>, s: Snapshot<V>, active: set<V>, v: V)
    requires Visiting(g, base, s, active, v, {})
    requires s.vertices[v].lowlink == base.nextIndex
    ensures Closed(g, set y | y in s.vertices && y !in base.stack)
  {
    forall x, y | x in s.vertices && x !in base.stack && y in Successors(g, x)
      ensures y in s.vertices && y !in base.stack
    {
      if x in s.stack {
        SegmentEdges(g, base, s, active, v, x, y);
      } else {
        ListedEdge(g, s.components, x, y);
      }
    }
  }

  lemma {:induction false} SegmentReaches<V(!new)>(g: Graph<V>, base: Snapshot<V>, s: Snapshot<V>,
      active: set<V>, v: V, x: V)
    requires Visiting(g, base, s, active, v, {})
    requires s.vertices[v].lowlink == base.nextIndex
    requires x in s.stack && x !in base.stack
    ensures Reaches(g, x, v)
  {
    assert ReachesActive(g, s, active + {v}, x);
    var a :| a in active + {v} && Index(s, a) <= Index(s, x) && Reaches(g, x, a);
    SegmentClosed(g, base, s, active, v);
    ClosedReaches(g, (set y | y in s.vertices && y !in base.stack), x, a);
    assert a == v;
  }

  lemma {:induction false} ListedEdge<V(!new)>(g: Graph<V>, components: seq<seq<V>>, u: V, w: V)
    requires EdgesLeadBack(g, components) && Listed(components, u) && w in Successors(g, u)
    ensures Listed(components, w)
  {
    var i :| 0 <= i < |components| && u in components[i];
    assert ListedUpTo(components, i, w);
  }

  lemma {:induction false} ReversedMembers<V(!new)>(s: seq<V>)
    ensures forall x :: x in Reversed(s) <==> x in s
    ensures NoDuplicates(s) ==> NoDuplicates(Reversed(s))
  {
    var r := Reversed(s);
    forall x | x in s
      ensures x in r
    {
      var i :| 0 <= i < |s| && s[i] == x;
      assert r[|s| - 1 - i] == x;
    }
  }

  lemma {:induction false} ListedAppend<V(!new)>(components: seq<seq<V>>, c: seq<V>, x: V)
    ensures Listed(components + [c], x) <==> Listed(components, x) || x in c
  {
    var all := components + [c];
    assert all[|components|] == c;
    if Listed(components, x) {
      var i :| 0 <= i < |components| && x in components[i];
      assert all[i] == components[i];
    }
  }

  lemma {:induction false} AppendPartition<V(!new)>(components: seq<seq<V>>, c: seq<V>)
    requires Partition(components) && c != [] && NoDuplicates(c)
    requires forall x :: x in c ==> !Listed(components, x)
    ensures Partition(components + [c])
  {
  }

  lemma {:induction false} AppendInnerReach<V(!new)>(g: Graph<V>, components: seq<seq<V>>, c: seq<V>)
    requires InnerReach(g, components)
    requires forall u, w :: u in c && w in c ==> Reaches(g, u, w)
    ensures InnerReach(g, components + [c])
  {
  }

  lemma {:induction false} AppendEdgesLeadBack<V(!new)>(g: Graph<V>, components: seq<seq<V>>, c: seq<V>)
    requires EdgesLeadBack(g, components)
    requires forall u, w :: u in c && w in Successors(g, u) ==> w in c || Listed(components, w)
    ensures EdgesLeadBack(g, components + [c])
  {
    var all := components + [c];
    forall i, u, w | 0 <= i < |all| && u in all[i] && w in Successors(g, u)
      ensures ListedUpTo(all, i, w)
    {
      if i < |components| {
        assert all[i] == components[i];
        assert ListedUpTo(components, i, w);
        var j :| 0 <= j <= i && w in components[j];
        assert all[j] == components[j];
      } else if w in c {
        assert all[i] == c;
      } else {
        var j :| 0 <= j < |components| && w in components[j];
        assert all[j] == components[j];
      }
    }
  }

  lemma {:induction false} SegmentMembers<V(!new)>(base: Snapshot<V>, s: Snapshot<V>)
    requires StackSorted(s) && base.stack <= s.stack
    ensures var segment := s.stack[|base.stack|..];
      NoDuplicates(segment) && forall x :: x in segment <==> x in s.stack && x !in base.stack
  {
    StackIsDistinct(s);
    SuffixMembers(s.stack, |base.stack|);
    assert s.stack[..|base.stack|] == base.stack;
  }

  lemma {:induction false} StackIsDistinct<V(!new)>(s: Snapshot<V>)
    requires StackSorted(s)
    ensures NoDuplicates(s.stack)
  {
  }

  lemma {:induction false} SuffixMembers<V(!new)>(s: seq<V>, k: nat)
    requires NoDuplicates(s) && k <= |s|
    ensures NoDuplicates(s[k..]) && forall x :: x in s[k..] <==> x in s && x !in s[..k]
  {
    assert s == s[..k] + s[k..];
    forall x | x in s[k..]
      ensures x !in s[..k]
    {
      var i :| 0 <= i < |s[k..]| && s[k..][i] == x;
      assert s[k + i] == x;
    }
  }

  /** v is the oldest vertex it reaches: what lies at and above it on the stack
      is a strongly connected component, and it is complete. */
  lemma {:induction false} PoppedIsVisited<V(!new)>(g: Graph<V>, base: Snapshot<V>,
      s: Snapshot<V>, active: set<V>, v: V)
    requires Visiting(g, base, s, active, v, {})
    requires s.vertices[v].lowlink == base.nextIndex
    ensures Visited(g, base, Popped(base, s), active, v)
  {
    var t := Popped(base, s);
    assert t.stack == base.stack;
    PopBookkeeping(g, base, s);
    PopKeepsComponents(g, base, s, active, v);
    PopKeepsStack(g, base, s, t, active, v);
    assert CrossingEdges(g, base, t, v, {}, t.vertices[v].lowlink);
  }

  lemma {:induction false} PopBookkeeping<V(!new)>(g: Graph<V>, base: Snapshot<V>, s: Snapshot<V>)
    requires Bookkeeping(g, s) && base.stack <= s.stack
    ensures Bookkeeping(g, Popped(base, s))
  {
    var segment := s.stack[|base.stack|..];
    var t := Popped(base, s);
    assert s.stack == base.stack + segment;
    SegmentMembers(base, s);
    ReversedMembers(segment);
    forall x ensures Listed(t.components, x) <==> Listed(s.components, x) || x in segment {
      ListedAppend(s.components, Reversed(segment), x);
    }
  }

  lemma {:induction false} PopKeepsComponents<V(!new)>(g: Graph<V>, base: Snapshot<V>,
      s: Snapshot<V>, active: set<V>, v: V)
    requires Visiting(g, base, s, active, v, {})
    requires s.vertices[v].lowlink == base.nextIndex
    ensures var t := Popped(base, s);
      Partition(t.components) && InnerReach(g, t.components) && EdgesLeadBack(g, t.components)
  {
    var segment := s.stack[|base.stack|..];
    var c := Reversed(segment);
    SegmentMembers(base, s);
    ReversedMembers(segment);
    AppendPartition(s.components, c);
    forall u, w | u in c && w in c
      ensures Reaches(g, u, w)
    {
      SegmentReaches(g, base, s, active, v, u);
      VReachesSegment(g, base, s, active, v, w);
      ReachesJoin(g, u, v, w);
    }
    AppendInnerReach(g, s.components, c);
    forall u, w | u in c && w in Successors(g, u)
      ensures w in c || Listed(s.components, w)
    {
      SegmentEdges(g, base, s, active, v, u, w);
    }
    AppendEdgesLeadBack(g, s.components, c);
  }

  lemma {:induction false} VReachesSegment<V(!new)>(g: Graph<V>, base: Snapshot<V>, s: Snapshot<V>,
      active: set<V>, v: V, x: V)
    requires Visiting(g, base, s, active, v, {})
    requires x in s.stack && x !in base.stack
    ensures Reaches(g, v, x)
  {
    if Index(s, x) < Index(s, v) {
      StackBelow(base, s, x);
    }
  }

  lemma {:induction false} PopKeepsStack<V(!new)>(g: Graph<V>, base: Snapshot<V>, s: Snapshot<V>,
      t: Snapshot<V>, active: set<V>, v: V)
    requires ActiveReachesUp(g, base, active) && AllReachActive(g, base, active)
    requires EndedSeesVisited(g, s, active + {v})
    requires forall w :: w in Successors(g, v) ==> w in s.vertices
    requires StackSorted(base) && t.stack == base.stack && t.vertices == s.vertices
    requires forall x :: x in base.vertices ==> x in s.vertices && Index(s, x) == Index(base, x)
    requires forall a :: a in active ==> a in base.stack
    ensures ActiveReachesUp(g, t, active) && AllReachActive(g, t, active) && EndedSeesVisited(g, t, active)
  {
    forall x | x in t.stack
      ensures ReachesActive(g, t, active, x)
    {
      assert ReachesActive(g, base, active, x);
      var a :| a in active && Index(base, a) <= Index(base, x) && Reaches(g, x, a);
      assert Index(t, a) == Index(base, a);
    }
    forall x, w | x in t.vertices && x !in active && w in Successors(g, x)
      ensures w in t.vertices
    {
      if x != v {
        assert x !in active + {v};
      }
    }
  }

  // -------------------------------------------------------------- algorithm

  class State<V(==)> {
    var stack: seq<V>
    var vertices: map<V, VertexState>
    var nextIndex: nat
    var components: seq<seq<V>>

    ghost function Snap(): Snapshot<V>
      reads this
    {
      Snapshot(stack, vertices, nextIndex, components)
    }

    constructor ()
      ensures Snap() == Snapshot([], map[], 0, [])
    {
      stack, vertices, nextIndex, components := [], map[], 0, [];
    }

    method UpdateLowlink(v: V, n: nat)
      requires v in vertices
      modifies this
      ensures Snap() == Relinked(old(Snap()), v, n)
    {
      var current := vertices[v].lowlink;
      vertices := vertices[v := vertices[v].(lowlink := if n < current then n else current)];
    }

    /** Pops the component of v, whose position on the stack is depth. */
    method PopComponent(v: V, ghost depth: nat)
      requires depth < |stack| && stack[depth] == v && v !in stack[depth + 1..]
      modifies this
      ensures stack == old(stack)[..depth]
      ensures components == old(components) + [Reversed(old(stack)[depth..])]
      ensures vertices == old(vertices) && nextIndex == old(nextIndex)
    {
      var component := [];
      ghost var m := |stack|;
      assert stack[m..] == [];
      while stack != []
        invariant depth < m <= |old(stack)|
        invariant stack == old(stack)[..m]
        invariant component == Reversed(old(stack)[m..])
        invariant vertices == old(vertices) && nextIndex == old(nextIndex) && components == old(components)
      {
        var w := stack[|stack| - 1];
        stack := stack[..|stack| - 1];
        component := component + [w];
        m := m - 1;
        assert old(stack)[m..][1..] == old(stack)[m + 1..];
        if w == v {
          break;
        }
      }
      components := components + [component];
    }
  }

  method StronglyConnect<V(==, !new)>(references: Graph<V>, state: State<V>, v: V, ghost active: set<V>)
    requires Inv(references, state.Snap(), active)
    requires v in Vertices(references) && v !in state.vertices
    requires forall a :: a in active ==> Reaches(references, a, v)
    modifies state
    ensures Visited(references, old(state.Snap()), state.Snap(), active, v)
    decreases Vertices(references) - state.vertices.Keys
  {
    ghost var base := state.Snap();
    var index := state.nextIndex;
    state.nextIndex := state.nextIndex + 1;
    state.vertices := state.vertices[v := VertexState(index, index)];
    state.stack := state.stack + [v];
    assert state.Snap() == Pushed(base, v);
    PushVisits(references, base, active, v);

    var rest := Successors(references, v);
    while rest != {}
      invariant Visiting(references, base, state.Snap(), active, v, rest)
      decreases rest
    {
      var w :| w in rest;
      ghost var s := state.Snap();
      if w !in state.vertices {
        forall a | a in active + {v} ensures Reaches(references, a, w) {
          ActiveReachesSuccessor(references, base, s, active, v, rest, w, a);
        }
        SuccessorIsVertex(references, v, w);
        StronglyConnect(references, state, w, active + {v});
        ghost var t := state.Snap();
        LinkToVisited(references, base, s, t, active, v, rest, w);
        var n := state.vertices[w].lowlink;
        state.UpdateLowlink(v, n);
      } else if w in state.stack {
        LinkToStack(references, base, s, active, v, rest, w);
        var n := state.vertices[w].index;
        state.UpdateLowlink(v, n);
      } else {
        SkipListed(references, base, s, active, v, rest, w);
      }
      rest := rest - {w};
    }

    ghost var s := state.Snap();
    if state.vertices[v].index == state.vertices[v].lowlink {
      PoppedIsVisited(references, base, s, active, v);
      state.PopComponent(v, |base.stack|);
      assert state.Snap() == Popped(base, s);
    } else {
      Retire(references, base, s, active, v);
    }
  }

  lemma {:induction false} SuccessorIsVertex<V(!new)>(g: Graph<V>, v: V, w: V)
    requires w in Successors(g, v)
    ensures w in Vertices(g)
  {
  }

  method Tarjan<V(==, !new)>(edges: Graph<V>) returns (components: seq<seq<V>>)
    ensures IsDecomposition(edges, components)
  {
    var state := new State<V>();
    var keys := edges.Keys;
    while keys != {}
      invariant keys <= edges.Keys
      invariant Inv(edges, state.Snap(), {})
      invariant forall v :: v in edges && v !in keys ==> v in state.vertices
      decreases keys
    {
      var v :| v in keys;
      if v !in state.vertices {
        StronglyConnect(edges, state, v, {});
      }
      keys := keys - {v};
    }
    FinishedDecomposes(edges, state.Snap());
    components := state.components;
  }

  lemma {:induction false} StackNeedsActive<V(!new)>(g: Graph<V>, s: Snapshot<V>, active: set<V>)
    requires AllReachActive(g, s, active)
    ensures s.stack != [] ==> active != {}
  {
    if s.stack != [] {
      assert ReachesActive(g, s, active, s.stack[0]);
    }
  }

  lemma {:induction false} FinishedDecomposes<V(!new)>(g: Graph<V>, s: Snapshot<V>)
    requires Inv(g, s, {})
    requires forall v :: v in g ==> v in s.vertices
    ensures IsDecomposition(g, s.components)
  {
    StackNeedsActive(g, s, {});
    forall v ensures v in Vertices(g) <==> Listed(s.components, v) {
      if v in Vertices(g) && v !in g {
        var u :| u in g && v in g[u];
        assert v in Successors(g, u);
      }
    }
    DecompositionIsTopological(g, s.components);
    DecompositionIsStrong(g, s.components);
  }

  /** What component i reaches is listed no later than i. */
  lemma {:induction false} DecompositionIsTopological<V(!new)>(g: Graph<V>, components: seq<seq<V>>)
    requires Partition(components) && EdgesLeadBack(g, components)
    ensures ReverseTopological(g, components)
  {
    forall i, j, u, w | 0 <= i < |components| && 0 <= j < |components| && u in components[i]
      && w in components[j] && Reaches(g, u, w)
      ensures j <= i
    {
      var upTo := set k, x | 0 <= k <= i && x in components[k] :: x;
      forall x, y | x in upTo && y in Successors(g, x)
        ensures y in upTo
      {
        var k :| 0 <= k <= i && x in components[k];
        assert ListedUpTo(components, k, y);
      }
      ClosedReaches(g, upTo, u, w);
    }
  }

  lemma {:induction false} DecompositionIsStrong<V(!new)>(g: Graph<V>, components: seq<seq<V>>)
    requires Covers(g, components) && InnerReach(g, components) && ReverseTopological(g, components)
    ensures StronglyConnected(g, components)
  {
    forall u, w | u in Vertices(g) && w in Vertices(g)
      ensures SameComponent(components, u, w) <==> MutuallyReach(g, u, w)
    {
      assert Listed(components, u) && Listed(components, w);
      var i :| 0 <= i < |components| && u in components[i];
      var j :| 0 <= j < |components| && w in components[j];
      if MutuallyReach(g, u, w) {
        assert j <= i && i <= j;
      }
    }
  }
}

/** Finite directed graphs and reachability.

    A graph maps a vertex to its successors.  A vertex that is only ever the
    target of an edge has no entry; it has no successors.
 */
module Digraph {
  type Graph<V(==)> = map<V, set<V>>

  function Successors<V>(g: Graph<V>, v: V): set<V> {
    if v in g then g[v] else {}
  }

  function Vertices<V>(g: Graph<V>): set<V> {
    g.Keys + (set u, w | u in g && w in g[u] :: w)
  }

  ghost predicate StepAt<V(!new)>(g: Graph<V>, walk: seq<V>, i: nat)
    requires i + 1 < |walk|
  {
    walk[i + 1] in Successors(g, walk[i])
  }

  ghost predicate IsWalk<V(!new)>(g: Graph<V>, walk: seq<V>) {
    |walk| > 0 && forall i :: 0 <= i < |walk| - 1 ==> StepAt(g, walk, i)
  }

  ghost predicate WalkBetween<V(!new)>(g: Graph<V>, walk: seq<V>, u: V, w: V) {
    IsWalk(g, walk) && walk[0] == u && walk[|walk| - 1] == w
  }

  /** There is a walk from u to w, possibly the empty one. */
  ghost predicate Reaches<V(!new)>(g: Graph<V>, u: V, w: V) {
    exists walk :: WalkBetween(g, walk, u, w)
  }

  /** There is a walk from u to w of at least one edge. */
  ghost predicate ReachesByEdge<V(!new)>(g: Graph<V>, u: V, w: V) {
    exists x :: x in Successors(g, u) && Reaches(g, x, w)
  }

  ghost predicate MutuallyReach<V(!new)>(g: Graph<V>, u: V, w: V) {
    Reaches(g, u, w) && Reaches(g, w, u)
  }

  ghost predicate Closed<V(!new)>(g: Graph<V>, s: set<V>) {
    forall u, w :: u in s && w in Successors(g, u) ==> w in s
  }

  lemma {:induction false} ReachesSelf<V(!new)>(g: Graph<V>, u: V)
    ensures Reaches(g, u, u)
  {
    assert WalkBetween(g, [u], u, u);
  }

  lemma {:induction false} ReachesStep<V(!new)>(g: Graph<V>, u: V, w: V)
    requires w in Successors(g, u)
    ensures Reaches(g, u, w)
  {
    assert StepAt(g, [u, w], 0);
    assert WalkBetween(g, [u, w], u, w);
  }

  lemma {:induction false} WalkTail<V(!new)>(g: Graph<V>, walk: seq<V>, u: V, w: V)
    requires WalkBetween(g, walk, u, w) && u != w
    ensures |walk| > 1 && walk[1] in Successors(g, u)
    ensures WalkBetween(g, walk[1..], walk[1], w)
  {
    var rest := walk[1..];
    assert StepAt(g, walk, 0);
    forall i | 0 <= i < |rest| - 1
      ensures StepAt(g, rest, i)
    {
      assert StepAt(g, walk, i + 1);
    }
  }

  lemma {:induction false} ReachesJoin<V(!new)>(g: Graph<V>, u: V, v: V, w: V)
    requires Reaches(g, u, v) && Reaches(g, v, w)
    ensures Reaches(g, u, w)
  {
    var p :| WalkBetween(g, p, u, v);
    var q :| WalkBetween(g, q, v, w);
    var r := p + q[1..];
    forall i | 0 <= i < |r| - 1
      ensures StepAt(g, r, i)
    {
      if i >= |p| - 1 {
        assert StepAt(g, q, i - (|p| - 1));
      } else {
        assert StepAt(g, p, i);
      }
    }
    assert WalkBetween(g, r, u, w);
  }

  lemma {:induction false} ReachesByEdgeReaches<V(!new)>(g: Graph<V>, u: V, w: V)
    requires ReachesByEdge(g, u, w)
    ensures Reaches(g, u, w)
  {
    var x :| x in Successors(g, u) && Reaches(g, x, w);
    ReachesStep(g, u, x);
    ReachesJoin(g, u, x, w);
  }

  /** Two different vertices that reach each other lie on a cycle of at least
      one edge. */
  lemma {:induction false} ReachesFirstEdge<V(!new)>(g: Graph<V>, u: V, w: V)
    requires Reaches(g, u, w) && u != w
    ensures ReachesByEdge(g, u, w)
  {
    var p :| WalkBetween(g, p, u, w);
    WalkTail(g, p, u, w);
  }

  /** A walk that leaves a set leaves it along some edge. */
  lemma {:induction false} WalkLeaves<V(!new)>(g: Graph<V>, s: set<V>, walk: seq<V>, u: V, w: V) returns (a: V, b: V)
    requires WalkBetween(g, walk, u, w) && u in s && w !in s
    ensures a in s && b !in s && b in Successors(g, a)
    ensures Reaches(g, u, a) && Reaches(g, b, w)
    decreases |walk|
  {
    WalkTail(g, walk, u, w);
    var rest := walk[1..];
    ReachesStep(g, u, walk[1]);
    if walk[1] in s {
      a, b := WalkLeaves(g, s, rest, walk[1], w);
      ReachesJoin(g, u, walk[1], a);
    } else {
      ReachesSelf(g, u);
      a, b := u, walk[1];
    }
  }

  lemma {:induction false} ReachesLeaves<V(!new)>(g: Graph<V>, s: set<V>, u: V, w: V) returns (a: V, b: V)
    requires Reaches(g, u, w) && u in s && w !in s
    ensures a in s && b !in s && b in Successors(g, a)
    ensures Reaches(g, u, a) && Reaches(g, b, w)
  {
    var walk :| WalkBetween(g, walk, u, w);
    a, b := WalkLeaves(g, s, walk, u, w);
  }

  /** What is reachable from a closed set is in it. */
  lemma {:induction false} ClosedReaches<V(!new)>(g: Graph<V>, s: set<V>, u: V, w: V)
    requires Closed(g, s) && u in s && Reaches(g, u, w)
    ensures w in s
  {
    if w !in s {
      var a, b := ReachesLeaves(g, s, u, w);
      assert false;
    }
  }
}

/** The order in which constants and functions are compiled
    (src/typechecker/value_cycle.rs). */
module ValueCycle {
  import opened Collections
  import opened Digraph
  import opened Tarjan
  import opened Types

  datatype ValueKind = Local | Constant | Context(offset: nat)

  datatype DeclarationKind = Value(value: ValueKind) | Function | OtherDeclaration

  datatype TypeError = RecursiveConstant(name: ResolvedName) | ConstantUsesContext(name: ResolvedName)

  datatype Result<+T> = Success(value: T) | Failure(error: TypeError)

  type References = Graph<ResolvedName>
  type Declarations = map<ResolvedName, DeclarationKind>

  /** get_declaration panics on an undeclared name. */
  ghost predicate AllDeclared(references: References, declarations: Declarations) {
    Vertices(references) <= declarations.Keys
  }

  predicate IsConstant(declarations: Declarations, name: ResolvedName) {
    name in declarations && declarations[name] == Value(Constant)
  }

  predicate IsContext(declarations: Declarations, name: ResolvedName) {
    name in declarations && declarations[name].Value? && declarations[name].value.Context?
  }

  /** A constant whose value depends on itself. */
  ghost predicate Recursive(references: References, name: ResolvedName) {
    ReachesByEdge(references, name, name)
  }

  ghost predicate DependsOnContext(references: References, declarations: Declarations, name: ResolvedName) {
    exists c :: IsContext(declarations, c) && Reaches(references, name, c)
  }

  ghost predicate GoodConstants(references: References, declarations: Declarations) {
    forall c :: c in Vertices(references) && IsConstant(declarations, c) ==>
      !Recursive(references, c) && !DependsOnContext(references, declarations, c)
  }

  ghost predicate Precedes<V(!new)>(order: seq<V>, w: V, u: V) {
    exists a, b :: 0 <= a < b < |order| && order[a] == w && order[b] == u
  }

  /** Every name once; what a name reaches comes before it, unless the two
      reach each other. */
  ghost predicate IsCompilationOrder(references: References, order: seq<ResolvedName>) {
    && NoDuplicates(order)
    && (forall v :: v in order <==> v in Vertices(references))
    && forall u, w :: u in order && Reaches(references, u, w) && !Reaches(references, w, u) ==> Precedes(order, w, u)
  }

  // ---------------------------------------------------------- context check

  /** The memo table and the set of visited names of context_check. */
  class ContextMemo {
    var usesContext: map<ResolvedName, bool>
    var visited: set<ResolvedName>

    constructor ()
      ensures usesContext == map[] && visited == {}
    {
      usesContext, visited := map[], {};
    }
  }

  /** As long as no dependency on a context has been found: the visited names
      are no context variables, and those whose visit has ended have only
      visited successors.  Nothing is said about what a stored false means for
      the one name it is stored for: such an entry can be wrong, as
      StoredFalseIsWrong shows. */
  ghost predicate NoContextYet(references: References, declarations: Declarations,
                               visited: set<ResolvedName>, usesContext: map<ResolvedName, bool>,
                                 active: set<ResolvedName>) {
    && active <= visited <= Vertices(references)
    && (forall v :: v in visited ==> !IsContext(declarations, v))
    && (forall v :: v in usesContext ==> v in visited && v !in active && !usesContext[v])
    && (forall v, w :: v in visited && v !in active && w in Successors(references, v) ==> w in visited)
  }

  method DetermineUsesContext(references: References, declarations: Declarations, memo: ContextMemo, name: ResolvedName,
                              ghost active: set<ResolvedName>)
    returns (uses: bool)
    requires AllDeclared(references, declarations) && name in Vertices(references)
    requires NoContextYet(references, declarations, memo.visited, memo.usesContext, active)
    modifies memo
    ensures uses ==> DependsOnContext(references, declarations, name)
    ensures !uses ==> NoContextYet(references, declarations, memo.visited, memo.usesContext, active)
    ensures !uses ==> old(memo.visited) + {name} <= memo.visited
    decreases Vertices(references) - memo.visited
  {
    if name in memo.usesContext {
      return memo.usesContext[name];
    }
    // a cycle: assume that there is no use, without storing that
    if name in memo.visited {
      return false;
    }
    if IsContext(declarations, name) {
      memo.usesContext := memo.usesContext[name := true];
      ReachesSelf(references, name);
      return true;
    }
    memo.visited := memo.visited + {name};
    var rest := Successors(references, name);
    while rest != {}
      invariant rest <= Successors(references, name)
      invariant NoContextYet(references, declarations, memo.visited, memo.usesContext, active + {name})
      invariant old(memo.visited) + {name} <= memo.visited
      invariant forall w :: w in Successors(references, name) && w !in rest ==> w in memo.visited
      decreases rest
    {
      var reference :| reference in rest;
      SuccessorIsVertex(references, name, reference);
      var found := DetermineUsesContext(references, declarations, memo, reference, active + {name});
      if found {
        memo.usesContext := memo.usesContext[name := true];
        DependsThroughEdge(references, declarations, name, reference);
        return true;
      }
      rest := rest - {reference};
    }
    memo.usesContext := memo.usesContext[name := false];
    return false;
  }

  lemma {:induction false} DependsThroughEdge(references: References, declarations: Declarations,
      u: ResolvedName, w: ResolvedName)
    requires w in Successors(references, u) && DependsOnContext(references, declarations, w)
    ensures DependsOnContext(references, declarations, u)
  {
    var c :| IsContext(declarations, c) && Reaches(references, w, c);
    ReachesStep(references, u, w);
    ReachesJoin(references, u, w, c);
  }

  /** With no visit in progress the visited names are closed, so none of them
      depends on a context variable. */
  lemma {:induction false} ClosedMeansNoContext(references: References, declarations: Declarations,
                             visited: set<ResolvedName>, usesContext: map<ResolvedName, bool>, name: ResolvedName)
    requires NoContextYet(references, declarations, visited, usesContext, {}) && name in visited
    ensures !DependsOnContext(references, declarations, name)
  {
    if DependsOnContext(references, declarations, name) {
      var c :| IsContext(declarations, c) && Reaches(references, name, c);
      ClosedReaches(references, visited, name, c);
    }
  }

  method ContextCheck(references: References, declarations: Declarations) returns (r: Result<()>)
    requires AllDeclared(references, declarations)
    ensures r.Success? <==> forall c :: c in references && IsConstant(declarations, c) ==>
      !DependsOnContext(references, declarations, c)
    ensures r.Failure? ==>
      r.error.ConstantUsesContext? && r.error.name in references && IsConstant(declarations, r.error.name) &&
      DependsOnContext(references, declarations, r.error.name)
  {
    var memo := new ContextMemo();
    var names := references.Keys;
    while names != {}
      invariant names <= references.Keys
      invariant NoContextYet(references, declarations, memo.visited, memo.usesContext, {})
      invariant forall c :: c in references && c !in names && IsConstant(declarations, c) ==> c in memo.visited
      decreases names
    {
      var name :| name in names;
      if IsConstant(declarations, name) {
        var uses := DetermineUsesContext(references, declarations, memo, name, {});
        if uses {
          return Failure(ConstantUsesContext(name));
        }
      }
      names := names - {name};
    }
    forall c | c in references && IsConstant(declarations, c)
      ensures !DependsOnContext(references, declarations, c)
    {
      ClosedMeansNoContext(references, declarations, memo.visited, memo.usesContext, c);
    }
    return Success(());
  }

  // ------------------------------------------- entries that are stored too early

  datatype Memo = Memo(usesContext: map<ResolvedName, bool>, visited: set<ResolvedName>)

  datatype Searched = Searched(uses: bool, memo: Memo)

  /** determine_uses_context, with the successors visited in a given order. */
  function Search(order: map<ResolvedName, seq<ResolvedName>>, declarations: Declarations, memo: Memo,
      name: ResolvedName): (r: Searched)
    ensures memo.visited <= r.memo.visited
    decreases order.Keys - memo.visited, 0
  {
    if name in memo.usesContext then Searched(memo.usesContext[name], memo)
    else if name in memo.visited then Searched(false, memo)
    else if IsContext(declarations, name) then Searched(true, memo.(usesContext := memo.usesContext[name := true]))
    else
      var visited := memo.(visited := memo.visited + {name});
      var found := if name in order then SearchAny(order, declarations, visited, order[name])
        else Searched(false, visited);
      Searched(found.uses, found.memo.(usesContext := found.memo.usesContext[name := found.uses]))
  }

  function SearchAny(order: map<ResolvedName, seq<ResolvedName>>, declarations: Declarations, memo: Memo,
      names: seq<ResolvedName>): (r: Searched)
    ensures memo.visited <= r.memo.visited
    decreases order.Keys - memo.visited, 1 + |names|
  {
    if names == [] then Searched(false, memo) else
      var first := Search(order, declarations, memo, names[0]);
      if first.uses then first else SearchAny(order, declarations, first.memo, names[1..])
  }

  /** a refers to b and then to the context variable c, b refers to a: while a
      is being searched b is found to use nothing, and that is stored, although
      b depends on c through a. */
  lemma {:induction false} StoredFalseIsWrong()
    ensures var a, b, c := ResolvedName(0, "a"), ResolvedName(0, "b"), ResolvedName(0, "c");
      var references := map[a := {b, c}, b := {a}];
      var declarations := map[a := Value(Constant), b := Value(Constant), c := Value(Context(0))];
      var r := Search(map[a := [b, c], b := [a]], declarations, Memo(map[], {}), a);
      && AllDeclared(references, declarations) && DependsOnContext(references, declarations, b)
      && r.uses && b in r.memo.usesContext && !r.memo.usesContext[b]
  {
    var a, b, c := ResolvedName(0, "a"), ResolvedName(0, "b"), ResolvedName(0, "c");
    var references := map[a := {b, c}, b := {a}];
    var declarations := map[a := Value(Constant), b := Value(Constant), c := Value(Context(0))];
    var order := map[a := [b, c], b := [a]];
    assert c in Successors(references, a) && a in Successors(references, b);
    ReachesSelf(references, c);
    DependsThroughEdge(references, declarations, a, c);
    DependsThroughEdge(references, declarations, b, a);
    var inside := Memo(map[], {a, b});
    assert [a][1..] == [] && [b, c][1..] == [c] && [c][1..] == [];
    assert SearchAny(order, declarations, inside, [a]) == Searched(false, inside);
    assert Memo(map[], {a}).(visited := {a} + {b}) == inside;
    var left := Memo(map[b := false], {a, b});
    assert Search(order, declarations, Memo(map[], {a}), b) == Searched(false, left);
    var done := left.(usesContext := left.usesContext[c := true]);
    assert SearchAny(order, declarations, left, [c]) == Searched(true, done);
    assert SearchAny(order, declarations, Memo(map[], {a}), [b, c]) == Searched(true, done);
    assert Memo(map[], {}).(visited := {} + {a}) == Memo(map[], {a});
  }

  // ------------------------------------------------------ compilation order

  function Flatten<V>(components: seq<seq<V>>): seq<V> {
    if components == [] then [] else components[0] + Flatten(components[1..])
  }

  method FindCompilationOrder(references: References, declarations: Declarations) returns (r: Result<seq<ResolvedName>>)
    requires AllDeclared(references, declarations)
    ensures r.Success? <==> GoodConstants(references, declarations)
    ensures r.Success? ==> IsCompilationOrder(references, r.value)
    ensures r.Failure? ==> IsConstant(declarations, r.error.name)
    ensures r.Failure? && r.error.RecursiveConstant? ==> Recursive(references, r.error.name)
    ensures r.Failure? && r.error.ConstantUsesContext? ==> DependsOnContext(references, declarations, r.error.name)
  {
    var names := references.Keys;
    while names != {}
      invariant names <= references.Keys
      invariant forall c :: c in references && c !in names && IsConstant(declarations, c) ==> c !in references[c]
      decreases names
    {
      var name :| name in names;
      if IsConstant(declarations, name) && name in references[name] {
        ReachesSelf(references, name);
        return Failure(RecursiveConstant(name));
      }
      names := names - {name};
    }

    var components := Tarjan.Tarjan(references);

    for i := 0 to |components|
      invariant forall k, c :: 0 <= k < i && |components[k]| > 1 && c in components[k] ==> !IsConstant(declarations, c)
    {
      if |components[i]| > 1 {
        for j := 0 to |components[i]|
          invariant forall k :: 0 <= k < j ==> !IsConstant(declarations, components[i][k])
        {
          if IsConstant(declarations, components[i][j]) {
            LargeComponentIsCyclic(references, components, i, j);
            return Failure(RecursiveConstant(components[i][j]));
          }
        }
      }
    }
    forall c | c in Vertices(references) && IsConstant(declarations, c)
      ensures !Recursive(references, c)
    {
      SmallComponentIsAcyclic(references, components, c);
    }

    var context := ContextCheck(references, declarations);
    if context.Failure? {
      return Failure(context.error);
    }
    forall c | c in Vertices(references) && IsConstant(declarations, c)
      ensures !DependsOnContext(references, declarations, c)
    {
      if c !in references {
        LeafDependsOnNothing(references, declarations, c);
      }
    }
    FlattenIsOrder(references, components);
    return Success(Flatten(components));
  }

  lemma {:induction false} LargeComponentIsCyclic(references: References,
      components: seq<seq<ResolvedName>>, i: nat, j: nat)
    requires IsDecomposition(references, components)
    requires i < |components| && j < |components[i]| && |components[i]| > 1
    ensures components[i][j] in Vertices(references)
    ensures Recursive(references, components[i][j])
  {
    var u := components[i][j];
    var w := components[i][if j == 0 then 1 else 0];
    assert u != w;
    assert Listed(components, u) && Listed(components, w);
    assert SameComponent(components, u, w);
    ReachesFirstEdge(references, u, w);
    var x :| x in Successors(references, u) && Reaches(references, x, w);
    ReachesJoin(references, x, w, u);
  }

  lemma {:induction false} SmallComponentIsAcyclic(references: References,
      components: seq<seq<ResolvedName>>, c: ResolvedName)
    requires IsDecomposition(references, components)
    requires c in Vertices(references) && (c in references ==> c !in references[c])
    requires forall k :: 0 <= k < |components| && |components[k]| > 1 ==> c !in components[k]
    ensures !Recursive(references, c)
  {
    forall x | x in Successors(references, c) && x != c
      ensures !Reaches(references, x, c)
    {
      ReachesStep(references, c, x);
      SuccessorIsVertex(references, c, x);
      assert SameComponent(components, c, x) <==> MutuallyReach(references, c, x);
    }
  }

  lemma {:induction false} LeafDependsOnNothing(references: References, declarations: Declarations, c: ResolvedName)
    requires c !in references && IsConstant(declarations, c)
    ensures !DependsOnContext(references, declarations, c)
  {
    if DependsOnContext(references, declarations, c) {
      var d :| IsContext(declarations, d) && Reaches(references, c, d);
      ClosedReaches(references, {c}, c, d);
    }
  }

  lemma {:induction false} FlattenMembers<V(!new)>(components: seq<seq<V>>, v: V)
    ensures v in Flatten(components) <==> Listed(components, v)
  {
    if components != [] {
      var rest := components[1..];
      FlattenMembers(rest, v);
      if Listed(rest, v) {
        var i :| 0 <= i < |rest| && v in rest[i];
        assert components[i + 1] == rest[i];
      }
      if Listed(components, v) {
        var i :| 0 <= i < |components| && v in components[i];
        if i > 0 { assert rest[i - 1] == components[i]; }
      }
    }
  }

  lemma {:induction false} JoinNoDuplicates<V(!new)>(s: seq<V>, t: seq<V>)
    requires NoDuplicates(s) && NoDuplicates(t)
    requires forall x :: x in s ==> x !in t
    ensures NoDuplicates(s + t)
  {
    forall i, j | 0 <= i < j < |s + t|
      ensures (s + t)[i] != (s + t)[j]
    {
      if i < |s| <= j {
        assert s[i] in s && t[j - |s|] in t;
      }
    }
  }

  lemma {:induction false} FlattenNoDuplicates<V(!new)>(components: seq<seq<V>>)
    requires Partition(components)
    ensures NoDuplicates(Flatten(components))
  {
    if components != [] {
      var rest := components[1..];
      assert forall k :: 0 <= k < |rest| ==> rest[k] == components[k + 1];
      FlattenNoDuplicates(rest);
      forall x | x in components[0]
        ensures x !in Flatten(rest)
      {
        FlattenMembers(rest, x);
      }
      JoinNoDuplicates(components[0], Flatten(rest));
    }
  }

  lemma {:induction false} FlattenPrecedes<V(!new)>(components: seq<seq<V>>, j: nat, i: nat, w: V, u: V)
    requires j < i < |components| && w in components[j] && u in components[i]
    ensures Precedes(Flatten(components), w, u)
  {
    var rest := components[1..];
    var head := components[0];
    if j > 0 {
      FlattenPrecedes(rest, j - 1, i - 1, w, u);
      var a, b :| 0 <= a < b < |Flatten(rest)| && Flatten(rest)[a] == w && Flatten(rest)[b] == u;
      assert Flatten(components)[|head| + a] == w && Flatten(components)[|head| + b] == u;
    } else {
      assert rest[i - 1] == components[i];
      FlattenMembers(rest, u);
      var a :| 0 <= a < |head| && head[a] == w;
      var b :| 0 <= b < |Flatten(rest)| && Flatten(rest)[b] == u;
      assert Flatten(components)[a] == w && Flatten(components)[|head| + b] == u;
    }
  }

  lemma {:induction false} FlattenIsOrder(references: References, components: seq<seq<ResolvedName>>)
    requires IsDecomposition(references, components)
    ensures IsCompilationOrder(references, Flatten(components))
  {
    var order := Flatten(components);
    FlattenNoDuplicates(components);
    forall v ensures v in order <==> Listed(components, v) {
      FlattenMembers(components, v);
    }
    forall u, w | u in order && Reaches(references, u, w) && !Reaches(references, w, u)
      ensures Precedes(order, w, u)
    {
      VerticesClosed(references, u, w);
      var i :| 0 <= i < |components| && u in components[i];
      var j :| 0 <= j < |components| && w in components[j];
      assert SameComponent(components, u, w) <==> MutuallyReach(references, u, w);
      FlattenPrecedes(components, j, i, w, u);
    }
  }

  lemma {:induction false} VerticesClosed(references: References, u: ResolvedName, w: ResolvedName)
    requires u in Vertices(references) && Reaches(references, u, w)
    ensures w in Vertices(references)
  {
    forall x, y | x in Vertices(references) && y in Successors(references, x)
      ensures y in Vertices(references)
    {
      SuccessorIsVertex(references, x, y);
    }
    ClosedReaches(references, Vertices(references), u, w);
  }

  /** In a compilation order everything a good constant depends on strictly
      precedes it. */
  lemma {:induction false} ConstantsComeAfterDependencies(references: References, declarations: Declarations,
      order: seq<ResolvedName>,
                                       c: ResolvedName, w: ResolvedName)
    requires IsCompilationOrder(references, order) && GoodConstants(references, declarations)
    requires c in order && IsConstant(declarations, c) && ReachesByEdge(references, c, w)
    ensures w != c && Precedes(order, w, c)
  {
    ReachesByEdgeReaches(references, c, w);
    var x :| x in Successors(references, c) && Reaches(references, x, w);
    if Reaches(references, w, c) {
      ReachesJoin(references, x, w, c);
    }
  }
}

/** Detection of recursive type declarations (src/typechecker/type_cycle.rs).

    The hash map of declarations is iterated in an arbitrary order. */
module TypeCycle {
  import opened Collections
  import opened Digraph
  import opened Types
  import Tarjan

  datatype CycleError = CycleDetected | UnresolvedVariable

  datatype Result = Ok | Err(error: CycleError)

  type Declarations = map<ResolvedName, TypeDefinition>

  // ---------------------------------------------------------- specification

  /** The names a type refers to, through nested anonymous records.  Type
      arguments and function types are not looked into. */
  function Mentioned(ty: Type): set<ResolvedName> {
    match ty
    case Record(fields) => set i, n | 0 <= i < |fields| && n in Mentioned(fields[i].1) :: n
    case Name(name, _) => {name}
    case _ => {}
  }

  predicate Unresolved(ty: Type) {
    IsTypeVariable(ty) || (ty.Record? && exists i :: 0 <= i < |ty.fields| && Unresolved(ty.fields[i].1))
  }

  /** What is at the end of a path through the fields of anonymous records. */
  function Inner(ty: Type, path: seq<nat>): Option<Type>
    decreases |path|
  {
    if path == [] then Some(ty)
    else if ty.Record? && path[0] < |ty.fields| then Inner(ty.fields[path[0]].1, path[1..])
    else None
  }

  ghost predicate HasName(ty: Type, name: ResolvedName) {
    exists path, arguments :: Inner(ty, path) == Some(Name(name, arguments))
  }

  ghost predicate HasVariable(ty: Type) {
    exists path :: Inner(ty, path).Some? && IsVariable(Inner(ty, path).value)
  }

  predicate IsVariable(ty: Type) {
    match ty
    case Var(_) => true
    case IntVar(_, _) => true
    case FloatVar(_) => true
    case RecordVar(_, _) => true
    case _ => false
  }

  lemma {:induction false} InnerStep(ty: Type, k: nat, path: seq<nat>)
    requires ty.Record? && k < |ty.fields|
    ensures Inner(ty, [k] + path) == Inner(ty.fields[k].1, path)
  {
    assert ([k] + path)[1..] == path;
  }

  /** The mentioned names are those at the end of some path, not those of
      function types or of type arguments. */
  lemma {:induction false} MentionedIs(ty: Type, name: ResolvedName)
    ensures name in Mentioned(ty) <==> HasName(ty, name)
    decreases ty
  {
    assert Inner(ty, []) == Some(ty);
    if ty.Record? {
      forall k | 0 <= k < |ty.fields|
        ensures name in Mentioned(ty.fields[k].1) <==> HasName(ty.fields[k].1, name)
      {
        MentionedIs(ty.fields[k].1, name);
      }
      if name in Mentioned(ty) {
        var k :| 0 <= k < |ty.fields| && name in Mentioned(ty.fields[k].1);
        var path, arguments :| Inner(ty.fields[k].1, path) == Some(Name(name, arguments));
        InnerStep(ty, k, path);
      }
      if HasName(ty, name) {
        var path, arguments :| Inner(ty, path) == Some(Name(name, arguments));
        assert Inner(ty.fields[path[0]].1, path[1..]) == Some(Name(name, arguments));
      }
    }
  }

  /** A type is unresolved exactly if there is a variable at the end of a path. */
  lemma {:induction false} UnresolvedIs(ty: Type)
    ensures Unresolved(ty) <==> HasVariable(ty)
    decreases ty
  {
    assert Inner(ty, []) == Some(ty);
    if ty.Record? {
      forall k | 0 <= k < |ty.fields|
        ensures Unresolved(ty.fields[k].1) <==> HasVariable(ty.fields[k].1)
      {
        UnresolvedIs(ty.fields[k].1);
      }
      if Unresolved(ty) {
        var k :| 0 <= k < |ty.fields| && Unresolved(ty.fields[k].1);
        var path :| Inner(ty.fields[k].1, path).Some? && IsVariable(Inner(ty.fields[k].1, path).value);
        InnerStep(ty, k, path);
      }
      if HasVariable(ty) {
        var path :| Inner(ty, path).Some? && IsVariable(Inner(ty, path).value);
        assert Inner(ty.fields[path[0]].1, path[1..]) == Inner(ty, path);
      }
    }
  }

  /** ty is the type of a field of the definition. */
  predicate IsFieldType(definition: TypeDefinition, ty: Type) {
    match definition
    case EnumDefinition(variants) => exists i :: 0 <= i < |variants| && ty in variants[i].fields
    case RecordDefinition(fields) => exists i :: 0 <= i < |fields| && fields[i].1 == ty
    case _ => false
  }

  function MentionedIn(definition: TypeDefinition): set<ResolvedName> {
    match definition
    case EnumDefinition(variants) => set i, ty, n | 0 <= i < |variants| && ty in variants[i].fields
      && n in Mentioned(ty) :: n
    case RecordDefinition(fields) => set i, n | 0 <= i < |fields| && n in Mentioned(fields[i].1) :: n
    case _ => {}
  }

  /** The relation "a field of this type names that type". */
  function FieldGraph(types: Declarations): Graph<ResolvedName> {
    map name | name in types :: MentionedIn(types[name])
  }

  ghost predicate AllDeclared(types: Declarations) {
    forall name :: name in types ==> MentionedIn(types[name]) <= types.Keys
  }

  ghost predicate ResolvedDefinition(definition: TypeDefinition) {
    forall ty :: IsFieldType(definition, ty) ==> !Unresolved(ty)
  }

  ghost predicate AllResolved(types: Declarations) {
    forall name :: name in types ==> ResolvedDefinition(types[name])
  }

  ghost predicate OnCycle(types: Declarations, name: ResolvedName) {
    ReachesByEdge(FieldGraph(types), name, name)
  }

  ghost predicate Acyclic(types: Declarations) {
    forall name :: !OnCycle(types, name)
  }

  /** Every type comes after the types its fields name. */
  ghost predicate IsRanking(types: Declarations, order: seq<ResolvedName>) {
    && NoDuplicates(order)
    && (forall n :: n in order ==> n in types)
    && forall i, m :: 0 <= i < |order| && m in Successors(FieldGraph(types), order[i]) ==> m in order[..i]
  }

  // -------------------------------------------------------------- algorithm

  /** The marks of the depth-first search: false while the name is being
      visited, true once it is done. */
  class Marks {
    var visited: map<ResolvedName, bool>
    /** the names marked true, in the order in which they were */
    ghost var order: seq<ResolvedName>

    constructor ()
      ensures visited == map[] && order == []
    {
      visited, order := map[], [];
    }

    ghost function Temporary(): set<ResolvedName>
      reads this
    {
      set n | n in visited && !visited[n]
    }

    ghost function Done(): set<ResolvedName>
      reads this
    {
      set n | n in visited && visited[n]
    }

    ghost predicate Valid(types: Declarations)
      reads this
    {
      && visited.Keys <= types.Keys
      && IsRanking(types, order)
      && (set n | n in order) == Done()
      && forall n :: n in Done() ==> ResolvedDefinition(types[n])
    }

    /** The fields of name have all been dealt with. */
    method Finish(types: Declarations, name: ResolvedName)
      requires Valid(types) && name in types && name in Temporary()
      requires forall ty :: IsFieldType(types[name], ty) ==> Settled(Done(), ty)
      modifies this
      ensures Valid(types) && Done() == old(Done()) + {name} && Temporary() == old(Temporary()) - {name}
      ensures visited.Keys == old(visited).Keys
    {
      SettledExtendsRanking(types, order, name);
      visited := visited[name := true];
      order := order + [name];
      assert (set n | n in order) == (set n | n in old(order)) + {name};
    }
  }

  ghost predicate Explains(types: Declarations, error: CycleError) {
    match error
    case CycleDetected => exists n :: OnCycle(types, n)
    case UnresolvedVariable => !AllResolved(types)
  }

  /** A field type that has been dealt with. */
  ghost predicate Settled(done: set<ResolvedName>, ty: Type) {
    !Unresolved(ty) && Mentioned(ty) <= done
  }

  ghost predicate AllSettled(done: set<ResolvedName>, types: seq<Type>) {
    forall k :: 0 <= k < |types| ==> Settled(done, types[k])
  }

  lemma {:induction false} SettledGrows(done: set<ResolvedName>, more: set<ResolvedName>,
      variants: seq<EnumVariant>, i: nat)
    requires done <= more && i <= |variants|
    requires forall k :: 0 <= k < i ==> AllSettled(done, variants[k].fields)
    ensures forall k :: 0 <= k < i ==> AllSettled(more, variants[k].fields)
  {
  }

  /** What a visit keeps when it succeeds. */
  twostate predicate Advanced(marks: Marks)
    reads marks
  {
    && marks.Temporary() == old(marks.Temporary())
    && old(marks.visited).Keys <= marks.visited.Keys
    && old(marks.Done()) <= marks.Done()
  }

  /** What is being visited reaches every name of a field of the last of it. */
  lemma {:induction false} ChainExtends(types: Declarations, temporary: set<ResolvedName>, name: ResolvedName, ty: Type)
    requires AllDeclared(types) && name in types && IsFieldType(types[name], ty)
    requires forall t :: t in temporary && t != name ==> ReachesByEdge(FieldGraph(types), t, name)
    ensures Mentioned(ty) <= types.Keys
    ensures forall t, n :: t in temporary && n in Mentioned(ty) ==> ReachesByEdge(FieldGraph(types), t, n)
  {
    var g := FieldGraph(types);
    forall n | n in Mentioned(ty)
      ensures n in types && n in Successors(g, name)
    {
      FieldMentions(types[name], ty, n);
    }
    forall t, n | t in temporary && n in Mentioned(ty)
      ensures ReachesByEdge(g, t, n)
    {
      if t == name {
        ReachesSelf(g, n);
      } else {
        var x :| x in Successors(g, t) && Reaches(g, x, name);
        ReachesStep(g, name, n);
        ReachesJoin(g, x, name, n);
      }
    }
  }

  lemma {:induction false} FieldMentions(definition: TypeDefinition, ty: Type, n: ResolvedName)
    requires IsFieldType(definition, ty) && n in Mentioned(ty)
    ensures n in MentionedIn(definition)
  {
  }

  lemma {:induction false} MentionedByField(definition: TypeDefinition, n: ResolvedName) returns (ty: Type)
    requires n in MentionedIn(definition)
    ensures IsFieldType(definition, ty) && n in Mentioned(ty)
  {
    match definition
    case EnumDefinition(variants) =>
      var i, t :| 0 <= i < |variants| && t in variants[i].fields && n in Mentioned(t);
      ty := t;
    case RecordDefinition(fields) =>
      var i :| 0 <= i < |fields| && n in Mentioned(fields[i].1);
      ty := fields[i].1;
  }

  lemma {:induction false} SettledExtendsRanking(types: Declarations, order: seq<ResolvedName>, name: ResolvedName)
    requires IsRanking(types, order) && name in types && name !in order
    requires forall ty :: IsFieldType(types[name], ty) ==> Settled((set n | n in order), ty)
    ensures IsRanking(types, order + [name]) && ResolvedDefinition(types[name])
  {
    var longer := order + [name];
    forall i, m | 0 <= i < |longer| && m in Successors(FieldGraph(types), longer[i])
      ensures m in longer[..i]
    {
      if i < |order| {
        assert longer[..i] == order[..i];
      } else {
        assert longer[..i] == order;
        var ty := MentionedByField(types[name], m);
      }
    }
  }

  method VisitName(types: Declarations, marks: Marks, name: ResolvedName) returns (r: Result)
    requires AllDeclared(types) && name in types
    requires marks.Valid(types)
    requires forall t :: t in marks.Temporary() ==> ReachesByEdge(FieldGraph(types), t, name)
    modifies marks
    ensures r.Ok? ==> marks.Valid(types) && Advanced(marks) && name in marks.Done()
    ensures r.Err? ==> Explains(types, r.error)
    decreases types.Keys - marks.visited.Keys, 0
  {
    if name in marks.visited {
      if !marks.visited[name] {
        assert name in marks.Temporary();
        assert OnCycle(types, name);
        return Err(CycleDetected);
      }
      return Ok;
    }
    marks.visited := marks.visited[name := false];
    ghost var temporary := marks.Temporary();
    assert temporary == old(marks.Temporary()) + {name};
    match types[name] {
    case EnumDefinition(variants) =>
      var v := VisitEnum(types, marks, name, variants);
      if v.Err? {
        return v;
      }
    case RecordDefinition(fields) =>
      var v := VisitRecord(types, marks, name, fields);
      if v.Err? {
        return v;
      }
    case _ =>
    }
    marks.Finish(types, name);
    r := Ok;
  }

  /** The outer loop over the variants of an enum. */
  method VisitEnum(types: Declarations, marks: Marks, name: ResolvedName, variants: seq<EnumVariant>)
    returns (r: Result)
    requires AllDeclared(types) && name in types && types[name] == EnumDefinition(variants)
    requires marks.Valid(types)
    requires forall t :: t in marks.Temporary() && t != name ==> ReachesByEdge(FieldGraph(types), t, name)
    modifies marks
    ensures r.Ok? ==> marks.Valid(types) && Advanced(marks)
    ensures r.Ok? ==> forall k :: 0 <= k < |variants| ==> AllSettled(marks.Done(), variants[k].fields)
    ensures r.Err? ==> Explains(types, r.error)
    decreases types.Keys - marks.visited.Keys, 3
  {
    for i := 0 to |variants|
      invariant marks.Valid(types) && Advanced(marks)
      invariant forall k :: 0 <= k < i ==> AllSettled(marks.Done(), variants[k].fields)
    {
      ghost var done := marks.Done();
      var v := VisitVariant(types, marks, name, variants[i].fields);
      if v.Err? {
        return v;
      }
      SettledGrows(done, marks.Done(), variants, i);
    }
    r := Ok;
  }

  /** The inner loop over the fields of one enum variant. */
  method VisitVariant(types: Declarations, marks: Marks, name: ResolvedName, fields: seq<Type>) returns (r: Result)
    requires AllDeclared(types) && name in types
    requires forall ty :: ty in fields ==> IsFieldType(types[name], ty)
    requires marks.Valid(types)
    requires forall t :: t in marks.Temporary() && t != name ==> ReachesByEdge(FieldGraph(types), t, name)
    modifies marks
    ensures r.Ok? ==> marks.Valid(types) && Advanced(marks) && AllSettled(marks.Done(), fields)
    ensures r.Err? ==> Explains(types, r.error)
    decreases types.Keys - marks.visited.Keys, 2
  {
    for j := 0 to |fields|
      invariant marks.Valid(types) && Advanced(marks)
      invariant forall k :: 0 <= k < j ==> Settled(marks.Done(), fields[k])
    {
      ChainExtends(types, marks.Temporary(), name, fields[j]);
      var v := Visit(types, marks, fields[j]);
      if v.Err? {
        return v;
      }
    }
    r := Ok;
  }

  /** The loop over the fields of a record. */
  method VisitRecord(types: Declarations, marks: Marks, name: ResolvedName,
      fields: seq<(string, Type)>) returns (r: Result)
    requires AllDeclared(types) && name in types && types[name] == RecordDefinition(fields)
    requires marks.Valid(types)
    requires forall t :: t in marks.Temporary() && t != name ==> ReachesByEdge(FieldGraph(types), t, name)
    modifies marks
    ensures r.Ok? ==> marks.Valid(types) && Advanced(marks)
    ensures r.Ok? ==> forall k :: 0 <= k < |fields| ==> Settled(marks.Done(), fields[k].1)
    ensures r.Err? ==> Explains(types, r.error)
    decreases types.Keys - marks.visited.Keys, 2
  {
    for j := 0 to |fields|
      invariant marks.Valid(types) && Advanced(marks)
      invariant forall k :: 0 <= k < j ==> Settled(marks.Done(), fields[k].1)
    {
      ChainExtends(types, marks.Temporary(), name, fields[j].1);
      var v := Visit(types, marks, fields[j].1);
      if v.Err? {
        return v;
      }
    }
    r := Ok;
  }

  method Visit(types: Declarations, marks: Marks, ty: Type) returns (r: Result)
    requires AllDeclared(types)
    requires marks.Valid(types)
    requires forall t, n :: t in marks.Temporary() && n in Mentioned(ty) ==> ReachesByEdge(FieldGraph(types), t, n)
    requires Mentioned(ty) <= types.Keys
    modifies marks
    ensures r.Ok? ==> marks.Valid(types) && Advanced(marks) && Settled(marks.Done(), ty)
    ensures r.Err? ==> (r.error.UnresolvedVariable? && Unresolved(ty)) || Explains(types, r.error)
    decreases types.Keys - marks.visited.Keys, 1, ty
  {
    match ty
    case Var(_) => r := Err(UnresolvedVariable);
    case IntVar(_, _) => r := Err(UnresolvedVariable);
    case FloatVar(_) => r := Err(UnresolvedVariable);
    case RecordVar(_, _) => r := Err(UnresolvedVariable);
    case Never => r := Ok;
    case Unit => r := Ok;
    case Function(_, _) => r := Ok;
    case ExplicitVar(_) => r := Ok;
    case Record(fields) =>
      for i := 0 to |fields|
        invariant marks.Valid(types) && Advanced(marks)
        invariant forall k :: 0 <= k < i ==> Settled(marks.Done(), fields[k].1)
      {
        var v := Visit(types, marks, fields[i].1);
        if v.Err? {
          return v;
        }
      }
      r := Ok;
    case Name(name, _) =>
      r := VisitName(types, marks, name);
  }

  method DetectTypeCycles(types: Declarations) returns (r: Result)
    requires AllDeclared(types)
    ensures r.Ok? <==> AllResolved(types) && Acyclic(types)
    ensures r.Ok? ==> exists order :: IsRanking(types, order) && forall n :: n in types ==> n in order
    ensures r.Err? ==> Explains(types, r.error)
  {
    var marks := new Marks();
    var names := types.Keys;
    while names != {}
      invariant names <= types.Keys
      invariant marks.Valid(types) && marks.Temporary() == {}
      invariant forall n :: n in types && n !in names ==> n in marks.Done()
      decreases names
    {
      var name :| name in names;
      r := VisitName(types, marks, name);
      if r.Err? {
        return;
      }
      names := names - {name};
    }
    RankingIsAcyclic(types, marks.order);
    r := Ok;
  }

  /** A ranking of all types rules out cycles. */
  lemma {:induction false} RankingIsAcyclic(types: Declarations, order: seq<ResolvedName>)
    requires IsRanking(types, order) && forall n :: n in types ==> n in order
    ensures Acyclic(types)
  {
    forall n ensures !OnCycle(types, n) {
      if OnCycle(types, n) {
        RankDecreases(types, order, n, n);
      }
    }
  }

  /** Whatever a type contains comes strictly before it. */
  lemma {:induction false} RankDecreases(types: Declarations, order: seq<ResolvedName>,
      n: ResolvedName, m: ResolvedName)
    requires IsRanking(types, order) && forall n :: n in types ==> n in order
    requires ReachesByEdge(FieldGraph(types), n, m)
    ensures exists i, j :: 0 <= i < j < |order| && order[i] == m && order[j] == n
    ensures n != m
  {
    var g := FieldGraph(types);
    var x :| x in Successors(g, n) && Reaches(g, x, m);
    var j :| 0 <= j < |order| && order[j] == n;
    var before := set k | 0 <= k < j :: order[k];
    forall u, w | u in before && w in Successors(g, u)
      ensures w in before
    {
      var k :| 0 <= k < j && order[k] == u;
      assert w in order[..k];
    }
    assert x in order[..j];
    ClosedReaches(g, before, x, m);
  }
}

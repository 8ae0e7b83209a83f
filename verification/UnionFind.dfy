/** Type variables and what they stand for (src/typechecker/unionfind.rs). */
module UnionFind {
  import opened Collections
  import opened Types

  type Table = seq<Type>

  /** The entry another entry refers to; none for an entry that refers to
      itself or is not a variable. */
  function Next(table: Table, i: nat): Option<nat>
    requires i < |table|
  {
    if IsTypeVariable(table[i]) && table[i].index != i then Some(table[i].index) else None
  }

  /** Every reference goes to an entry of lower rank. */
  ghost predicate Ranked(table: Table, rank: seq<nat>) {
    && |rank| == |table|
    && forall i :: 0 <= i < |table| && Next(table, i).Some? ==>
         Next(table, i).value < |table| && rank[Next(table, i).value] < rank[i]
  }

  /** References stay inside the table and do not go round in circles. */
  ghost predicate Acyclic(table: Table) {
    exists rank :: Ranked(table, rank)
  }

  ghost function RankOf(table: Table): (rank: seq<nat>)
    requires Acyclic(table)
    ensures Ranked(table, rank)
  {
    var rank :| Ranked(table, rank);
    rank
  }

  /** find_ref. */
  function FindRef(table: Table, i: nat): Type
    requires Acyclic(table) && i < |table|
    decreases RankOf(table)[i]
  {
    if Next(table, i).Some? then FindRef(table, Next(table, i).value) else table[i]
  }

  /** The entry at which find_ref ends. */
  function Root(table: Table, i: nat): (r: nat)
    requires Acyclic(table) && i < |table|
    ensures r < |table| && Next(table, r).None?
    ensures FindRef(table, i) == table[r]
    decreases RankOf(table)[i]
  {
    if Next(table, i).Some? then Root(table, Next(table, i).value) else i
  }

  /** A root that refers to itself: the variable is not known yet. */
  /** A variable of any kind that refers to another entry stands for what that
      entry stands for; everything else stands for itself. */
  lemma {:induction false} FindRefIs(table: Table, i: nat)
    requires Acyclic(table) && i < |table|
    ensures match table[i]
      case Var(j) => j != i ==> j < |table| && FindRef(table, i) == FindRef(table, j)
      case IntVar(j, _) => j != i ==> j < |table| && FindRef(table, i) == FindRef(table, j)
      case FloatVar(j) => j != i ==> j < |table| && FindRef(table, i) == FindRef(table, j)
      case RecordVar(j, _) => j != i ==> j < |table| && FindRef(table, i) == FindRef(table, j)
      case _ => FindRef(table, i) == table[i]
    ensures match FindRef(table, i)
      case Var(j) => j < |table| && table[j] == Var(j)
      case IntVar(j, signed) => j < |table| && table[j] == IntVar(j, signed)
      case FloatVar(j) => j < |table| && table[j] == FloatVar(j)
      case RecordVar(j, fields) => j < |table| && table[j] == RecordVar(j, fields)
      case _ => true
  {
    assert Ranked(table, RankOf(table));
    var r := Root(table, i);
    assert FindRef(table, i) == table[r] && Next(table, r).None?;
  }

  predicate Unset(table: Table, r: nat) {
    r < |table| && IsTypeVariable(table[r]) && table[r].index == r
  }

  lemma {:induction false} RootRank(table: Table, rank: seq<nat>, i: nat)
    requires Acyclic(table) && Ranked(table, rank) && i < |table|
    ensures rank[Root(table, i)] <= rank[i]
    ensures Root(table, i) != i ==> rank[Root(table, i)] < rank[i]
    decreases rank[i]
  {
    if Next(table, i).Some? {
      RootRank(table, rank, Next(table, i).value);
    }
  }

  // ------------------------------------------------------------- compression

  /** Some entries have been replaced by what they lead to. */
  ghost predicate Compressed(table: Table, other: Table)
    requires Acyclic(table)
  {
    && |other| == |table|
    && forall k :: 0 <= k < |table| ==> other[k] == table[k] || other[k] == FindRef(table, k)
  }

  /** Compression changes nothing that can be found: every variable leads to
      the same type, and to the same root as long as that root is not set. */
  lemma {:induction false} CompressionIsInvisible(table: Table, other: Table)
    requires Acyclic(table) && Compressed(table, other)
    ensures Acyclic(other)
    ensures forall k :: 0 <= k < |table| ==> FindRef(other, k) == FindRef(table, k)
    ensures forall k :: 0 <= k < |table| && Unset(table, Root(table, k)) ==> Root(other, k) == Root(table, k)
  {
    var rank := RankOf(table);
    forall i | 0 <= i < |table| && Next(other, i).Some?
      ensures Next(other, i).value < |table| && rank[Next(other, i).value] < rank[i]
    {
      RootRank(table, rank, i);
    }
    assert Ranked(other, rank);
    forall k | 0 <= k < |table|
      ensures FindRef(other, k) == FindRef(table, k)
      ensures Unset(table, Root(table, k)) ==> Root(other, k) == Root(table, k)
    {
      EntryCompressed(table, other, k);
    }
  }

  lemma {:induction false} EntryCompressed(table: Table, other: Table, k: nat)
    requires Acyclic(table) && Acyclic(other) && Compressed(table, other) && k < |table|
    ensures FindRef(other, k) == FindRef(table, k)
    ensures Unset(table, Root(table, k)) ==> Root(other, k) == Root(table, k)
    decreases RankOf(table)[k]
  {
    var r := Root(table, k);
    if Next(table, k).Some? {
      if other[k] == table[k] {
        EntryCompressed(table, other, Next(table, k).value);
      } else {
        RootRank(table, RankOf(table), k);
        assert other[r] == table[r];
      }
    }
  }

  // ------------------------------------------------------------------ linking

  /** What a type stands for. */
  function Resolved(table: Table, t: Type): Type
    requires Acyclic(table) && (IsTypeVariable(t) ==> t.index < |table|)
  {
    if IsTypeVariable(t) then FindRef(table, t.index) else t
  }

  /** A root may be set to a type, to a variable of another class, or to
      itself with new contents. */
  predicate MaySet(table: Table, r: nat, t: Type)
    requires Acyclic(table)
  {
    && Unset(table, r)
    && (IsTypeVariable(t) ==> t.index < |table| && (t.index == r || Root(table, t.index) != r))
  }

  /** Setting an unset root redirects exactly the variables of its class, also
      those that hold stale copies of the root's old contents. */
  lemma {:induction false} SetRedirectsClass(table: Table, r: nat, t: Type)
    requires Acyclic(table) && MaySet(table, r, t)
    ensures Acyclic(table[r := t])
    ensures forall k :: 0 <= k < |table| ==>
      FindRef(table[r := t], k) ==
        if Root(table, k) != r then FindRef(table, k)
        else if IsTypeVariable(t) && t.index == r then t
        else Resolved(table, t)
  {
    var other := table[r := t];
    SetIsAcyclic(table, r, t);
    forall k | 0 <= k < |table|
      ensures FindRef(other, k) ==
        if Root(table, k) != r then FindRef(table, k)
        else if IsTypeVariable(t) && t.index == r then t
        else Resolved(table, t)
    {
      EntryAfterSet(table, r, t, k);
    }
  }

  lemma {:induction false} SetIsAcyclic(table: Table, r: nat, t: Type)
    requires Acyclic(table) && MaySet(table, r, t)
    ensures Acyclic(table[r := t])
  {
    var other, rank := table[r := t], RankOf(table);
    var lift := if IsTypeVariable(t) then rank[t.index] + 1 else 0;
    var raised := seq(|table|, k requires 0 <= k < |table| => if Root(table, k) == r then rank[k] + lift else rank[k]);
    forall i | 0 <= i < |table| && Next(other, i).Some?
      ensures Next(other, i).value < |table| && raised[Next(other, i).value] < raised[i]
    {
      if i != r {
        assert Next(other, i) == Next(table, i);
        assert Root(table, i) == Root(table, Next(table, i).value);
      } else {
        assert Root(table, r) == r && raised[r] == rank[r] + lift;
      }
    }
    assert Ranked(other, raised);
  }

  /** The variables of other classes. */
  lemma {:induction false} EntryElsewhere(table: Table, r: nat, t: Type, k: nat)
    requires Acyclic(table) && MaySet(table, r, t) && Acyclic(table[r := t])
    requires k < |table| && Root(table, k) != r
    ensures FindRef(table[r := t], k) == FindRef(table, k)
    decreases RankOf(table)[k]
  {
    if Next(table, k).Some? {
      EntryElsewhere(table, r, t, Next(table, k).value);
    }
  }

  lemma {:induction false} EntryAfterSet(table: Table, r: nat, t: Type, k: nat)
    requires Acyclic(table) && MaySet(table, r, t) && Acyclic(table[r := t]) && k < |table|
    ensures FindRef(table[r := t], k) ==
      if Root(table, k) != r then FindRef(table, k)
      else if IsTypeVariable(t) && t.index == r then t
      else Resolved(table, t)
    decreases RankOf(table)[k]
  {
    if Root(table, k) != r {
      EntryElsewhere(table, r, t, k);
    } else if k != r {
      EntryAfterSet(table, r, t, Next(table, k).value);
    } else if IsTypeVariable(t) && t.index != r {
      EntryElsewhere(table, r, t, t.index);
    }
  }

  /** A variable set to one of its own class is no longer found: this is why
      set asks for another class. */
  lemma {:induction false} SetWithinClassIsCyclic(table: Table, r: nat, t: Type)
    requires Acyclic(table) && Unset(table, r) && IsTypeVariable(t) && t.index < |table|
    ensures Acyclic(table[r := t]) <==> MaySet(table, r, t)
  {
    if MaySet(table, r, t) {
      SetIsAcyclic(table, r, t);
    } else {
      var other := table[r := t];
      assert Next(other, r) == Some(t.index);
      forall rank
        ensures !Ranked(other, rank)
      {
        if Ranked(other, rank) {
          ClassDescends(table, r, t, rank, t.index);
        }
      }
    }
  }

  lemma {:induction false} ClassDescends(table: Table, r: nat, t: Type, rank: seq<nat>, k: nat)
    requires Acyclic(table) && r < |table| && Ranked(table[r := t], rank) && k < |table| && Root(table, k) == r
    ensures rank[r] <= rank[k]
    decreases RankOf(table)[k]
  {
    if k != r {
      assert Next(table[r := t], k) == Next(table, k);
      ClassDescends(table, r, t, rank, Next(table, k).value);
    }
  }

  /** A new entry leaves the others alone. */
  lemma {:induction false} FreshIsApart(table: Table, t: Type)
    requires Acyclic(table) && Unset(table + [t], |table|)
    ensures Acyclic(table + [t]) && FindRef(table + [t], |table|) == t
    ensures forall k :: 0 <= k < |table| ==>
      FindRef(table + [t], k) == FindRef(table, k) && Root(table + [t], k) == Root(table, k)
  {
    var more, rank := table + [t], RankOf(table) + [0];
    assert forall i :: 0 <= i < |table| ==> Next(more, i) == Next(table, i);
    assert Ranked(more, rank);
    forall k | 0 <= k < |table|
      ensures FindRef(table + [t], k) == FindRef(table, k) && Root(table + [t], k) == Root(table, k)
    {
      OldEntry(table, t, k);
    }
  }

  lemma {:induction false} OldEntry(table: Table, t: Type, k: nat)
    requires Acyclic(table) && Acyclic(table + [t]) && k < |table|
    ensures FindRef(table + [t], k) == FindRef(table, k) && Root(table + [t], k) == Root(table, k)
    decreases RankOf(table)[k]
  {
    assert (table + [t])[k] == table[k];
    if Next(table, k).Some? {
      OldEntry(table, t, Next(table, k).value);
    }
  }

  // -------------------------------------------------------------- every run

  datatype Op = FreshOp(variable: Type) | FindOp(index: nat) | SetOp(root: nat, t: Type)

  /** One call: find may compress, the other two do what they say. */
  ghost predicate Steps(s: Table, op: Op, t: Table) {
    match op
    case FreshOp(v) => Unset(s + [v], |s|) && t == s + [v]
    case FindOp(k) => Acyclic(s) && k < |s| && Compressed(s, t)
    case SetOp(r, v) => Acyclic(s) && MaySet(s, r, v) && t == s[r := v]
  }

  ghost predicate IsRun(ops: seq<Op>, tables: seq<Table>) {
    |tables| == |ops| + 1 && tables[0] == [] && forall i :: 0 <= i < |ops| ==> Steps(tables[i], ops[i], tables[i + 1])
  }

  /** The table if nothing is ever compressed. */
  function Plain(ops: seq<Op>): Table {
    if ops == [] then [] else
      var table := Plain(ops[..|ops| - 1]);
      match ops[|ops| - 1]
      case FreshOp(v) => table + [v]
      case FindOp(_) => table
      case SetOp(r, v) => if r < |table| then table[r := v] else table
  }

  /** Two tables that give the same answers. */
  ghost predicate Agree(a: Table, b: Table) {
    |a| == |b| && Acyclic(a) && Acyclic(b) && forall k :: 0 <= k < |a| ==> FindRef(a, k) == FindRef(b, k)
  }

  /** Tables that agree have the same unset roots. */
  lemma {:induction false} AgreeOnRoots(a: Table, b: Table, k: nat, r: nat)
    requires Agree(a, b) && k < |a| && Unset(a, r)
    ensures Unset(b, r) && b[r] == a[r] && (Root(a, k) == r <==> Root(b, k) == r)
  {
    assert FindRef(a, r) == FindRef(b, r);
    assert FindRef(a, k) == FindRef(b, k);
    var q := Root(b, r);
    assert b[q] == a[r] && Next(b, q).None?;
    assert Next(b, Root(b, k)).None?;
  }

  lemma {:induction false} AgreeAfterSet(a: Table, b: Table, r: nat, t: Type)
    requires Agree(a, b) && MaySet(a, r, t)
    ensures Agree(a[r := t], b[r := t])
  {
    hide Acyclic, Root, FindRef, Next;
    AgreeOnRoots(a, b, r, r);
    if IsTypeVariable(t) { AgreeOnRoots(a, b, t.index, r); }
    SetRedirectsClass(a, r, t);
    SetRedirectsClass(b, r, t);
    var c, d := a[r := t], b[r := t];
    forall k | 0 <= k < |a|
      ensures FindRef(c, k) == FindRef(d, k)
    {
      AgreeOnRoots(a, b, k, r);
    }
  }

  lemma {:induction false} AgreeAfterFresh(a: Table, b: Table, v: Type)
    requires Agree(a, b) && Unset(a + [v], |a|)
    ensures Agree(a + [v], b + [v])
  {
    hide Acyclic, Root, FindRef, Next;
    FreshIsApart(a, v);
    FreshIsApart(b, v);
  }

  /** In every run, however it compresses, the table stays acyclic and every
      variable stands for what it would stand for without compression. */
  lemma {:induction false} EveryRunIsPlain(ops: seq<Op>, tables: seq<Table>, i: nat)
    requires IsRun(ops, tables) && i <= |ops|
    ensures Agree(tables[i], Plain(ops[..i]))
    decreases i
  {
    hide Acyclic, Root, FindRef, Next, MaySet, Unset;
    if i == 0 {
      NoneIsAcyclic();
    } else {
      EveryRunIsPlain(ops, tables, i - 1);
      assert ops[..i][..i - 1] == ops[..i - 1] && ops[..i][i - 1] == ops[i - 1];
      var before, plain := tables[i - 1], Plain(ops[..i - 1]);
      assert Steps(before, ops[i - 1], tables[i]);
      match ops[i - 1] {
        case FreshOp(v) => AgreeAfterFresh(before, plain, v);
        case FindOp(_) => CompressionIsInvisible(before, tables[i]);
        case SetOp(r, v) =>
          MaySetInside(before, r, v);
          AgreeAfterSet(before, plain, r, v);
      }
    }
  }

  lemma {:induction false} NoneIsAcyclic()
    ensures Acyclic([])
  {
    assert Ranked([], []);
  }

  lemma {:induction false} MaySetInside(table: Table, r: nat, t: Type)
    requires Acyclic(table) && MaySet(table, r, t)
    ensures r < |table|
  {
  }

  // --------------------------------------------------------------- the object

  class UnionFind {
    var inner: Table

    constructor ()
      ensures inner == [] && Acyclic(inner)
    {
      inner := [];
      new;
      assert Ranked(inner, []);
    }

    /** find, with path compression: terminates on every acyclic table, agrees
        with find_ref, and is invisible to later queries. */
    method Find(index: nat) returns (t: Type)
      requires Acyclic(inner) && index < |inner|
      modifies this
      ensures t == FindRef(old(inner), index)
      ensures Compressed(old(inner), inner) && Acyclic(inner)
      ensures forall k :: 0 <= k < |inner| ==> FindRef(inner, k) == FindRef(old(inner), k)
      ensures forall k :: 0 <= k < |inner| && Unset(old(inner), Root(old(inner), k)) ==>
        Root(inner, k) == Root(old(inner), k)
      decreases RankOf(inner)[index]
    {
      if IsTypeVariable(inner[index]) && inner[index].index != index {
        assert Next(inner, index) == Some(inner[index].index);
        t := Find(inner[index].index);
        assert FindRef(inner, index) == t;
        inner := inner[index := t];
        assert Compressed(old(inner), inner);
      } else {
        t := inner[index];
      }
      CompressionIsInvisible(old(inner), inner);
    }

    method Fresh(f: nat -> Type) returns (t: Type)
      requires Acyclic(inner)
      requires IsTypeVariable(f(|inner|)) && f(|inner|).index == |inner|
      modifies this
      ensures t == f(old(|inner|)) && inner == old(inner) + [t]
      ensures Acyclic(inner) && FindRef(inner, old(|inner|)) == t
      ensures forall k :: 0 <= k < old(|inner|) ==> FindRef(inner, k) == FindRef(old(inner), k)
    {
      t := f(|inner|);
      FreshIsApart(inner, t);
      inner := inner + [t];
    }

    method Set(index: nat, t: Type)
      requires Acyclic(inner) && MaySet(inner, index, t)
      modifies this
      ensures inner == old(inner)[index := t] && Acyclic(inner)
      ensures forall k :: 0 <= k < |inner| ==>
        FindRef(inner, k) ==
          if Root(old(inner), k) != index then FindRef(old(inner), k)
          else if IsTypeVariable(t) && t.index == index then t
          else Resolved(old(inner), t)
    {
      SetRedirectsClass(inner, index, t);
      inner := inner[index := t];
    }
  }
}

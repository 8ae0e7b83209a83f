/** The mid-level intermediate representation (src/mir/mod.rs) and a machine
    that runs it.

    Variables hold owned values.  A move or a drop takes the value out of the
    variable; reading, moving or dropping a variable that holds no value is
    Stuck.  Assigning to a variable of a managed type that still holds a value
    loses that value, which is recorded.  Values of the unit type occupy no
    storage: they need neither initialisation nor drop. */
module Mir {
  import opened Collections
  import Ops = Precedence

  type Label = nat

  /** A resolved name. */
  datatype Name = Name(scope: nat, ident: string)

  datatype Var = Explicit(name: Name) | Tmp(index: nat)

  /** Unit stands for every type without storage: the unit type, what `!` is
      converted to, and the type of an expression about which nothing is known
      (src/typechecker/info.rs:193-195), for which nothing is stored either.
      Managed stands for every type with drop glue (strings, lists, records,
      registered types). */
  datatype Ty = Unit | Bool | Int | Managed

  datatype Val = UnitVal | BoolVal(b: bool) | IntVal(n: int) | ManagedVal(content: string)

  /** A place without projections. */
  datatype Place = Place(root: Var, ty: Ty)

  datatype Value =
    | Const(literal: Val, ty: Ty)
    | Clone(place: Place)
    | Not(operand: Var)
    | Negate(operand: Var, ty: Ty)
    | Move(source: Var)
    | BinOp(left: Var, op: Ops.BinOp, ty: Ty, right: Var)

  datatype Instruction =
    | Jump(target: Label)
    | Switch(examinee: Var, branches: seq<(nat, Label)>, default: Option<Label>)
    | Assign(to: Place, ty: Ty, value: Value)
    | Return(result: Var)
    | Drop(val: Place, ty: Ty)

  datatype Block = Block(lbl: Label, instructions: seq<Instruction>)

  // ------------------------------------------------------------------ shape

  predicate IsTerminator(i: Instruction) {
    i.Jump? || i.Switch? || i.Return?
  }

  predicate HasTerminator(instructions: seq<Instruction>) {
    exists i :: 0 <= i < |instructions| && IsTerminator(instructions[i])
  }

  function FirstTerminator(instructions: seq<Instruction>): (i: nat)
    requires HasTerminator(instructions)
    ensures i < |instructions| && IsTerminator(instructions[i])
    ensures forall k :: 0 <= k < i ==> !IsTerminator(instructions[k])
  {
    if IsTerminator(instructions[0]) then 0 else
      assert forall i :: 0 <= i < |instructions| - 1 ==> instructions[1..][i] == instructions[i + 1];
      1 + FirstTerminator(instructions[1..])
  }

  /** Where a terminator may continue, in the order it names the labels. */
  function Targets(i: Instruction): seq<Label> {
    match i
    case Jump(target) => [target]
    case Switch(_, branches, default) =>
      seq(|branches|, k requires 0 <= k < |branches| => branches[k].1) + (if default.Some? then [default.value] else [])
    case _ => []
  }

  ghost predicate DistinctLabels(blocks: seq<Block>) {
    forall i, j :: 0 <= i < |blocks| && 0 <= j < |blocks| && blocks[i].lbl == blocks[j].lbl ==> i == j
  }

  ghost function Labels(blocks: seq<Block>): set<Label> {
    set i | 0 <= i < |blocks| :: blocks[i].lbl
  }

  /** The position of the first block with a label; |blocks| if there is none. */
  function IndexOf(blocks: seq<Block>, lbl: Label): (i: nat)
    ensures i <= |blocks|
    ensures i < |blocks| ==> blocks[i].lbl == lbl
    ensures forall k :: 0 <= k < i ==> blocks[k].lbl != lbl
  {
    if blocks == [] || blocks[0].lbl == lbl then 0 else
      var i := IndexOf(blocks[1..], lbl);
      assert forall k :: 1 <= k < |blocks| ==> blocks[1..][k - 1] == blocks[k];
      i + 1
  }

  // ---------------------------------------------------------------- machine

  /** The meaning of the strict operators, about which nothing is assumed, and
      the return type of the function that is run. */
  datatype Machine = Machine(
    binop: (Ops.BinOp, Val, Val) -> Val,
    not: Val -> Val,
    negate: Val -> Val,
    returnType: Ty)

  type Store = map<Var, Val>

  datatype Config =
    | Running(lbl: Label, pc: nat, store: Store, lost: bool)
    | Finished(result: Val, store: Store, lost: bool)
    | Stuck

  datatype Evaluated = Evaluated(val: Val, store: Store)

  function Read(store: Store, x: Var, ty: Ty): Option<Val> {
    if ty.Unit? then Some(UnitVal) else if x in store then Some(store[x]) else None
  }

  function Take(store: Store, x: Var, ty: Ty): Store {
    if ty.Unit? then store else store - {x}
  }

  function EvalValue(m: Machine, value: Value, ty: Ty, store: Store): Option<Evaluated> {
    match value
    case Const(literal, _) => Some(Evaluated(literal, store))
    case Clone(place) =>
      var v := Read(store, place.root, place.ty);
      if v.None? then None else Some(Evaluated(v.value, store))
    case Not(x) =>
      var v := Read(store, x, Bool);
      if v.None? then None else Some(Evaluated(m.not(v.value), store))
    case Negate(x, t) =>
      var v := Read(store, x, t);
      if v.None? then None else Some(Evaluated(m.negate(v.value), store))
    case Move(x) =>
      var v := Read(store, x, ty);
      if v.None? then None else Some(Evaluated(v.value, Take(store, x, ty)))
    case BinOp(l, op, t, r) =>
      var v := Read(store, l, t);
      var w := Read(store, r, t);
      if v.None? || w.None? then None else Some(Evaluated(m.binop(op, v.value, w.value), store))
  }

  /** The integer a switch examines. */
  function SwitchKey(v: Val): nat {
    if v == BoolVal(true) then 1 else 0
  }

  function Choose(key: nat, branches: seq<(nat, Label)>, default: Option<Label>): Option<Label> {
    if branches == [] then default
    else if branches[0].0 == key then Some(branches[0].1)
    else Choose(key, branches[1..], default)
  }

  function Execute(m: Machine, i: Instruction, c: Config): Config
    requires c.Running?
  {
    match i
    case Jump(target) => c.(lbl := target, pc := 0)
    case Switch(examinee, branches, default) =>
      if examinee !in c.store then Stuck else
        var target := Choose(SwitchKey(c.store[examinee]), branches, default);
        if target.None? then Stuck else c.(lbl := target.value, pc := 0)
    case Assign(to, ty, value) =>
      var e := EvalValue(m, value, ty, c.store);
      if e.None? then Stuck
      else if ty.Unit? then c.(pc := c.pc + 1, store := e.value.store)
      else c.(pc := c.pc + 1, store := e.value.store[to.root := e.value.val],
              lost := c.lost || (ty.Managed? && to.root in e.value.store))
    case Return(x) =>
      var v := Read(c.store, x, m.returnType);
      if v.None? then Stuck else Finished(v.value, Take(c.store, x, m.returnType), c.lost)
    case Drop(place, ty) =>
      if Read(c.store, place.root, ty).None? then Stuck
      else c.(pc := c.pc + 1, store := Take(c.store, place.root, ty))
  }

  function Step(m: Machine, blocks: seq<Block>, c: Config): Config {
    if !c.Running? then c else
      var b := IndexOf(blocks, c.lbl);
      if b < |blocks| && c.pc < |blocks[b].instructions| then
        Execute(m, blocks[b].instructions[c.pc], c)
      else
        Stuck
  }

  function Run(m: Machine, blocks: seq<Block>, c: Config, n: nat): Config
    decreases n
  {
    if n == 0 then c else Run(m, blocks, Step(m, blocks, c), n - 1)
  }

  lemma {:induction false} RunJoin(m: Machine, blocks: seq<Block>, c: Config, n: nat, k: nat)
    ensures Run(m, blocks, Run(m, blocks, c, n), k) == Run(m, blocks, c, n + k)
    decreases n
  {
    if n > 0 {
      RunJoin(m, blocks, Step(m, blocks, c), n - 1, k);
    }
  }

  /** A run that is over stays as it is. */
  lemma {:induction false} RunOver(m: Machine, blocks: seq<Block>, c: Config, n: nat)
    requires !c.Running?
    ensures Run(m, blocks, c, n) == c
    decreases n
  {
    if n > 0 {
      RunOver(m, blocks, c, n - 1);
    }
  }
}

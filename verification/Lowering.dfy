/** Lowering of the source language to the MIR (src/mir/lower.rs), as functions
    from lowering state to lowering state.

    A panic of the source (an unwrap of an empty stack, a variable that was not
    live) sets the flag panicked. */
module Lowering {
  import opened Collections
  import opened Mir
  import Ast
  import Ops = Precedence

  /** The variables that are dropped together, in the order in which they were
      added. */
  type Frame = seq<(Var, Ty)>

  datatype State = State(
    blocks: seq<Block>,
    frames: seq<Frame>,
    vars: seq<(Var, Ty)>,
    tmpIndex: nat,
    nextLabel: Label,
    returnType: Ty,
    panicked: bool)

  /** What lowering an expression returns: the state and a value still to be
      assigned. */
  datatype Lowered = Lowered(s: State, v: Value)

  datatype LoweredVar = LoweredVar(s: State, x: Var)

  datatype NewLabel = NewLabel(s: State, lbl: Label)

  // -------------------------------------------------------------- primitives

  function Panic(s: State): State {
    s.(panicked := true)
  }

  function Emit(s: State, i: Instruction): State {
    if s.blocks == [] then Panic(s) else
      var k := |s.blocks| - 1;
      s.(blocks := s.blocks[k := s.blocks[k].(instructions := s.blocks[k].instructions + [i])])
  }

  function StartBlock(s: State, l: Label): State {
    s.(blocks := s.blocks + [Block(l, [])])
  }

  /** LabelStore: a label is the index of a new entry. */
  function FreshLabel(s: State): NewLabel {
    NewLabel(s.(nextLabel := s.nextLabel + 1), s.nextLabel)
  }

  function UndroppedTmp(s: State): LoweredVar {
    LoweredVar(s.(tmpIndex := s.tmpIndex + 1), Tmp(s.tmpIndex))
  }

  function AddLive(s: State, x: Var, ty: Ty): State {
    if s.frames == [] then Panic(s) else
      var k := |s.frames| - 1;
      s.(vars := s.vars + [(x, ty)], frames := s.frames[k := s.frames[k] + [(x, ty)]])
  }

  function DroppedTmp(s: State, ty: Ty): LoweredVar {
    var t := UndroppedTmp(s);
    LoweredVar(AddLive(t.s, t.x, ty), t.x)
  }

  /** The first position of a variable in a frame; the length if there is none. */
  function PositionOf(frame: Frame, x: Var): (i: nat)
    ensures i <= |frame|
    ensures i < |frame| ==> frame[i].0 == x
    ensures forall k :: 0 <= k < i ==> frame[k].0 != x
  {
    if frame == [] || frame[0].0 == x then 0 else
      var i := PositionOf(frame[1..], x);
      assert forall k :: 1 <= k < |frame| ==> frame[1..][k - 1] == frame[k];
      i + 1
  }

  /** The type with which a variable was made live. */
  function LiveType(s: State, x: Var): Ty {
    if s.frames == [] then Unit else
      var frame := s.frames[|s.frames| - 1];
      var i := PositionOf(frame, x);
      if i < |frame| then frame[i].1 else Unit
  }

  function RemoveLive(s: State, x: Var): State {
    if s.frames == [] then Panic(s) else
      var k := |s.frames| - 1;
      var i := PositionOf(s.frames[k], x);
      if i == |s.frames[k]| then Panic(s)
      else s.(frames := s.frames[k := s.frames[k][..i] + s.frames[k][i + 1..]])
  }

  function PushFrame(s: State): State {
    s.(frames := s.frames + [[]])
  }

  function PopFrame(s: State): State {
    if s.frames == [] then Panic(s) else s.(frames := s.frames[..|s.frames| - 1])
  }

  function TopFrame(s: State): Frame {
    if s.frames == [] then [] else s.frames[|s.frames| - 1]
  }

  /** Drops of a whole frame, last variable first. */
  function EmitDrops(s: State, frame: Frame): State
    decreases |frame|
  {
    if frame == [] then s else
      var last := frame[|frame| - 1];
      EmitDrops(Emit(s, Drop(Place(last.0, last.1), last.1)), frame[..|frame| - 1])
  }

  /** Drops of all frames, innermost first. */
  function EmitAllDrops(s: State, frames: seq<Frame>): State
    decreases |frames|
  {
    if frames == [] then s
    else EmitAllDrops(EmitDrops(s, frames[|frames| - 1]), frames[..|frames| - 1])
  }

  function EmitAssign(s: State, to: Place, ty: Ty, v: Value): State {
    Emit(s, Assign(to, ty, v))
  }

  /** do_assign: an assigned move takes its variable off the frame. */
  function DoAssign(s: State, to: Place, ty: Ty, v: Value): State {
    EmitAssign(if v.Move? then RemoveLive(s, v.source) else s, to, ty, v)
  }

  function AssignToVar(s: State, v: Value, ty: Ty): LoweredVar {
    if v.Move? then LoweredVar(s, v.source) else
      var t := DroppedTmp(s, ty);
      LoweredVar(DoAssign(t.s, Place(t.x, ty), ty, v), t.x)
  }

  function DropVar(s: State, x: Var): State {
    var ty := LiveType(s, x);
    Emit(RemoveLive(s, x), Drop(Place(x, ty), ty))
  }

  /** Pops a frame and drops what is in it. */
  function PopAndDrop(s: State): State {
    EmitDrops(PopFrame(s), TopFrame(s))
  }

  const UNIT_VALUE: Value := Const(UnitVal, Unit)

  // ------------------------------------------------------------ expressions

  function ReturnValue(s: State, v: Value): Lowered {
    var r := AssignToVar(s, v, s.returnType);
    var s := RemoveLive(r.s, r.x);
    Lowered(Emit(EmitAllDrops(s, s.frames), Return(r.x)), UNIT_VALUE)
  }

  function LowerExpr(s: State, e: Ast.Expr): Lowered
    decreases e, 1
  {
    match e
    case Return(None, _) => ReturnValue(s, UNIT_VALUE)
    case Return(Some(v), _) =>
      var r := LowerExpr(s, v);
      ReturnValue(r.s, r.v)
    case Literal(v) => Lowered(s, Const(v, Ast.LiteralType(v)))
    case BlockExpr(b, _) =>
      var r := LowerBlock(s, b);
      BlockResult(r.s, b.ty, r.v)
    case Path(x, ty) => Lowered(s, Clone(Place(Explicit(x), ty)))
    case Not(operand) =>
      var t := LowerToVar(s, operand, Bool);
      Lowered(t.s, Value.Not(t.x))
    case Negate(operand) =>
      var t := LowerToVar(s, operand, Ast.TypeOf(operand));
      Lowered(t.s, Value.Negate(t.x, Ast.TypeOf(operand)))
    case Assign(x, rootTy, rhs) =>
      var r := LowerExpr(s, rhs);
      AssignVariable(r.s, Place(Explicit(x), rootTy), Ast.TypeOf(rhs), r.v)
    case BinOp(l, op, r) =>
      if op.And? then LowerShortcircuit(s, e, 1)
      else if op.Or? then LowerShortcircuit(s, e, 0)
      else
        var x := LowerToVar(s, l, Ast.TypeOf(l));
        var y := LowerToVar(x.s, r, Ast.TypeOf(r));
        Lowered(y.s, Value.BinOp(x.x, op, Ast.TypeOf(l), y.x))
    case IfElse(_, _, _, _) => LowerIfElse(s, e)
    case While(_, _) => LowerWhile(s, e)
  }

  /** The tail of block_expr: the result of the block in a live temporary. */
  function BlockResult(s: State, ty: Ty, v: Value): Lowered {
    var res := UndroppedTmp(s);
    Lowered(AddLive(EmitAssign(res.s, Place(res.x, ty), ty, v), res.x, ty), Move(res.x))
  }

  /** The tail of assign: the old value is dropped after the new one has been
      computed. */
  function AssignVariable(s: State, place: Place, ty: Ty, v: Value): Lowered {
    var t := DroppedTmp(s, ty);
    var s := DoAssign(t.s, Place(t.x, ty), ty, v);
    var s := Emit(s, Drop(place, ty));
    Lowered(DoAssign(s, place, ty, Move(t.x)), UNIT_VALUE)
  }

  /** One operand of && or ||, in a frame of its own: on one path it is not
      evaluated, and neither are its drops. */
  function LowerOperand(s: State, place: Place, operand: Ast.Expr): State
    decreases operand, 2
  {
    var r := LowerExpr(PushFrame(s), operand);
    PopAndDrop(DoAssign(r.s, place, Bool, r.v))
  }

  function OtherOperand(s: State, tmp: Var, otherIf: nat, other: Label, cont: Label): State {
    StartBlock(Emit(s, Switch(tmp, [(otherIf, other)], Some(cont))), other)
  }

  function LowerShortcircuit(s: State, e: Ast.Expr, otherIf: nat): Lowered
    requires e.BinOp?
    decreases e, 0
  {
    var cont := FreshLabel(s);
    var other := FreshLabel(cont.s);
    var tmp := UndroppedTmp(other.s);
    var place := Place(tmp.x, Bool);
    var left := LowerOperand(tmp.s, place, e.left);
    var right := LowerOperand(OtherOperand(left, tmp.x, otherIf, other.lbl, cont.lbl), place, e.right);
    var s := AddLive(right, tmp.x, Bool);
    Lowered(StartBlock(Emit(s, Jump(cont.lbl)), cont.lbl), Move(tmp.x))
  }

  datatype Labels = Labels(s: State, cont: Label, first: Label, second: Label)

  function FreshLabels(s: State): Labels {
    var cont := FreshLabel(s);
    var first := FreshLabel(cont.s);
    var second := FreshLabel(first.s);
    Labels(second.s, cont.lbl, first.lbl, second.lbl)
  }

  /** An expression followed by assign_to_var. */
  function LowerToVar(s: State, e: Ast.Expr, ty: Ty): LoweredVar
    decreases e, 2
  {
    var r := LowerExpr(s, e);
    AssignToVar(r.s, r.v, ty)
  }

  function ThenBranch(examinee: Var, l: Labels, hasElse: bool): State {
    StartBlock(Emit(l.s, Switch(examinee, [(1, l.first)], Some(if hasElse then l.second else l.cont))), l.first)
  }

  /** A branch stores its result and goes on behind the if. */
  function EndBranch(s: State, place: Place, v: Value, cont: Label): State {
    Emit(EmitAssign(s, place, place.ty, v), Jump(cont))
  }

  function LowerIfElse(s: State, e: Ast.Expr): Lowered
    requires e.IfElse?
    decreases e, 0
  {
    var examinee := LowerToVar(s, e.condition, Bool);
    var l := FreshLabels(examinee.s);
    var t := LowerBlock(ThenBranch(examinee.x, l, e.elseBlock.Some?), e.thenBlock);
    var res := UndroppedTmp(t.s);
    var place := Place(res.x, e.ty);
    var s := EndBranch(res.s, place, t.v, l.cont);
    var s :=
      if e.elseBlock.None? then s
      else
        var f := LowerBlock(StartBlock(s, l.second), e.elseBlock.value);
        EndBranch(f.s, place, f.v, l.cont);
    Lowered(AddLive(StartBlock(s, l.cont), res.x, e.ty), Move(res.x))
  }

  function LoopHead(l: Labels): State {
    StartBlock(Emit(l.s, Jump(l.first)), l.first)
  }

  function LoopBody(examinee: LoweredVar, l: Labels): State {
    StartBlock(Emit(examinee.s, Switch(examinee.x, [(1, l.second)], Some(l.cont))), l.second)
  }

  function LowerWhile(s: State, e: Ast.Expr): Lowered
    requires e.While?
    decreases e, 0
  {
    var l := FreshLabels(s);
    var examinee := LowerToVar(LoopHead(l), e.condition, Bool);
    var b := LowerBlock(LoopBody(examinee, l), e.body);
    var s := AssignToVar(b.s, b.v, Unit).s;
    Lowered(StartBlock(Emit(s, Jump(l.first)), l.cont), UNIT_VALUE)
  }

  function LowerBlock(s: State, b: Ast.Block): Lowered
    decreases b, 1
  {
    var s := LowerStmts(PushFrame(s), b.stmts);
    var op := if b.last.Some? then LowerExpr(s, b.last.value) else Lowered(s, UNIT_VALUE);
    var final := AssignToVar(op.s, op.v, b.ty);
    var s := RemoveLive(final.s, final.x);
    Lowered(if b.diverges then PopFrame(s) else PopAndDrop(s), Move(final.x))
  }

  function LowerStmts(s: State, stmts: seq<Ast.Stmt>): State
    decreases stmts, 1
  {
    if stmts == [] then s else LowerStmts(LowerStmt(s, stmts[0]), stmts[1..])
  }

  function LowerStmt(s: State, stmt: Ast.Stmt): State
    decreases stmt, 1
  {
    match stmt
    case Let(x, ty, init) =>
      var r := LowerExpr(s, init);
      DoAssign(AddLive(r.s, Explicit(x), ty), Place(Explicit(x), ty), ty, r.v)
    case ExprStmt(e) =>
      var t := LowerToVar(s, e, Ast.TypeOf(e));
      DropVar(t.s, t.x)
  }

  // -------------------------------------------------------------- functions

  datatype Function = Function(parameters: seq<(Name, Ty)>, returnType: Ty, body: Ast.Block)

  const ENTRY: Label := 0

  function AddParameters(s: State, parameters: seq<(Name, Ty)>): State
    decreases |parameters|
  {
    if parameters == [] then s
    else AddParameters(AddLive(s, Explicit(parameters[0].0), parameters[0].1), parameters[1..])
  }

  function FunctionStart(f: Function): State {
    AddParameters(State([Block(ENTRY, [])], [[]], [], 0, ENTRY + 1, f.returnType, false), f.parameters)
  }

  /** function_like: the blocks of a function. */
  function LowerFunction(f: Function): State {
    var last := LowerBlock(FunctionStart(f), f.body);
    var t := AssignToVar(last.s, last.v, f.returnType);
    Emit(PopAndDrop(t.s), Return(t.x))
  }
}

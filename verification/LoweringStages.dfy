/** The intermediate states of lowering, construct by construct, and the loop
    heads among them. */
module LoweringStages {
  import opened Collections
  import opened Mir
  import opened Lowering
  import Ast

  /** The type of the operand of ! or -. */
  function OperandType(e: Ast.Expr): Ty
    requires e.Not? || e.Negate?
  {
    if e.Not? then Bool else Ast.TypeOf(e.operand)
  }

  function LetStore(t: State, x: Name, ty: Ty, v: Value): State {
    DoAssign(AddLive(t, Explicit(x), ty), Place(Explicit(x), ty), ty, v)
  }

  /** The result of a block in a variable, before the block's frame is left. */
  function BlockFinal(s: State, b: Ast.Block): LoweredVar {
    if b.last.Some? then LowerToVar(s, b.last.value, b.ty) else AssignToVar(s, UNIT_VALUE, b.ty)
  }

  /** The stages of && and ||. */
  datatype Operands = Operands(cont: Label, other: Label, start: State, left: State,
    second: State, right: State, end: State)

  function OperandStages(s: State, e: Ast.Expr, otherIf: nat): Operands
    requires e.BinOp?
  {
    var cont := FreshLabel(s);
    var other := FreshLabel(cont.s);
    var tmp := UndroppedTmp(other.s);
    var place := Place(tmp.x, Bool);
    var left := LowerOperand(tmp.s, place, e.left);
    var second := OtherOperand(left, tmp.x, otherIf, other.lbl, cont.lbl);
    var right := LowerOperand(second, place, e.right);
    Operands(cont.lbl, other.lbl, tmp.s, left, second, right, AddLive(right, tmp.x, Bool))
  }

  /** The stages of an if: x is the condition, start and second are where the
      branches start, mid is the end of the first. */
  datatype Branches = Branches(x: LoweredVar, l: Labels, start: State, t: Lowered,
    res: LoweredVar, mid: State, second: State)

  function BranchStages(s: State, e: Ast.Expr): Branches
    requires e.IfElse?
  {
    var x := LowerToVar(s, e.condition, Bool);
    var l := FreshLabels(x.s);
    var start := ThenBranch(x.x, l, e.elseBlock.Some?);
    var t := LowerBlock(start, e.thenBlock);
    var res := UndroppedTmp(t.s);
    var mid := EndBranch(res.s, Place(res.x, e.ty), t.v, l.cont);
    Branches(x, l, start, t, res, mid, StartBlock(mid, l.second))
  }

  /** The stages of a loop. */
  datatype Loop = Loop(l: Labels, head: State, x: LoweredVar, body: State, b: Lowered)

  function LoopStages(s: State, e: Ast.Expr): Loop
    requires e.While?
  {
    var l := FreshLabels(s);
    var head := LoopHead(l);
    var x := LowerToVar(head, e.condition, Bool);
    var body := LoopBody(x, l);
    Loop(l, head, x, body, LowerBlock(body, e.body))
  }

  /** The states at the heads of all loops in an expression that is lowered
      from s. */
  ghost function HeadsOf(s: State, e: Ast.Expr): set<State>
    decreases e
  {
    match e
    case Return(None, _) => {}
    case Return(Some(v), _) => HeadsOf(s, v)
    case Literal(_) => {}
    case BlockExpr(b, _) => HeadsOfBlock(s, b)
    case Path(_, _) => {}
    case Not(operand) => HeadsOf(s, operand)
    case Negate(operand) => HeadsOf(s, operand)
    case Assign(_, _, rhs) => HeadsOf(s, rhs)
    case BinOp(l, op, r) =>
      if op.And? || op.Or? then
        var g := OperandStages(s, e, if op.And? then 1 else 0);
        HeadsOf(PushFrame(g.start), l) + HeadsOf(PushFrame(g.second), r)
      else
        HeadsOf(s, l) + HeadsOf(LowerToVar(s, l, Ast.TypeOf(l)).s, r)
    case IfElse(condition, thenBlock, elseBlock, _) =>
      var g := BranchStages(s, e);
      HeadsOf(s, condition) + HeadsOfBlock(g.start, thenBlock)
      + (if elseBlock.Some? then HeadsOfBlock(g.second, elseBlock.value) else {})
    case While(condition, body) =>
      var g := LoopStages(s, e);
      {g.head} + HeadsOf(g.head, condition) + HeadsOfBlock(g.body, body)
  }

  ghost function HeadsOfBlock(s: State, b: Ast.Block): set<State>
    decreases b
  {
    var p := PushFrame(s);
    HeadsOfStmts(p, b.stmts) + (if b.last.Some? then HeadsOf(LowerStmts(p, b.stmts), b.last.value) else {})
  }

  ghost function HeadsOfStmts(s: State, stmts: seq<Ast.Stmt>): set<State>
    decreases stmts
  {
    if stmts == [] then {} else HeadsOfStmt(s, stmts[0]) + HeadsOfStmts(LowerStmt(s, stmts[0]), stmts[1..])
  }

  ghost function HeadsOfStmt(s: State, stmt: Ast.Stmt): set<State>
    decreases stmt
  {
    match stmt
    case Let(_, _, init) => HeadsOf(s, init)
    case ExprStmt(e) => HeadsOf(s, e)
  }
}

/** A point of a run belongs to one loop head at most: every head starts a block
    with a label of its own. */
module LoweringHeads {
  import opened Collections
  import opened Mir
  import opened Lowering
  import opened LoweringStages
  import Ast

  /** The labels of a loop are made in a row; its head has the second of three. */
  predicate StartsHead(h: State) {
    h.blocks != [] && h.blocks[|h.blocks| - 1].lbl + 2 == h.nextLabel
  }

  /** The heads of code whose labels lie between low and high. */
  ghost predicate HeadsBetween(heads: set<State>, low: Label, high: Label) {
    && low <= high
    && (forall h :: h in heads ==> low < h.nextLabel <= high && StartsHead(h))
    && (forall g, h :: g in heads && h in heads && g.nextLabel == h.nextLabel ==> g == h)
  }

  lemma {:induction false} NoHeads(low: Label, high: Label)
    requires low <= high
    ensures HeadsBetween({}, low, high)
  {
  }

  lemma {:induction false} HeadsJoin(a: set<State>, low: Label, mid: Label, b: set<State>, next: Label, high: Label)
    requires HeadsBetween(a, low, mid) && mid <= next && HeadsBetween(b, next, high)
    ensures HeadsBetween(a + b, low, high)
  {
  }

  lemma {:induction false} HeadsWithin(a: set<State>, low: Label, high: Label, below: Label, above: Label)
    requires HeadsBetween(a, low, high) && below <= low && high <= above
    ensures HeadsBetween(a, below, above)
  {
  }

  // -------------------------------------- what lowering does without labels

  lemma {:induction false} DropsMakeNoLabel(s: State, frame: Frame)
    ensures EmitDrops(s, frame).nextLabel == s.nextLabel
    decreases |frame|
  {
    if frame == [] {
    } else {
      var last := frame[|frame| - 1];
      DropsMakeNoLabel(Emit(s, Drop(Place(last.0, last.1), last.1)), frame[..|frame| - 1]);
    }
  }

  lemma {:induction false} AllDropsMakeNoLabel(s: State, frames: seq<Frame>)
    ensures EmitAllDrops(s, frames).nextLabel == s.nextLabel
    decreases |frames|
  {
    if frames == [] {
    } else {
      var k := |frames| - 1;
      DropsMakeNoLabel(s, frames[k]);
      AllDropsMakeNoLabel(EmitDrops(s, frames[k]), frames[..k]);
    }
  }

  lemma {:induction false} EmitMakesNoLabel(s: State, i: Instruction)
    ensures Emit(s, i).nextLabel == s.nextLabel
  {
  }

  lemma {:induction false} LiveMakesNoLabel(s: State, x: Var, ty: Ty)
    ensures AddLive(s, x, ty).nextLabel == s.nextLabel && RemoveLive(s, x).nextLabel == s.nextLabel
  {
    hide PositionOf;
  }

  lemma {:induction false} AssignMakesNoLabel(s: State, place: Place, ty: Ty, v: Value)
    ensures DoAssign(s, place, ty, v).nextLabel == s.nextLabel
  {
    hide Emit, RemoveLive;
    var t := if v.Move? then RemoveLive(s, v.source) else s;
    LiveMakesNoLabel(s, if v.Move? then v.source else place.root, ty);
    EmitMakesNoLabel(t, Assign(place, ty, v));
  }

  lemma {:induction false} ToVarMakesNoLabel(s: State, v: Value, ty: Ty)
    ensures AssignToVar(s, v, ty).s.nextLabel == s.nextLabel
  {
    hide AddLive, DoAssign;
    var u := UndroppedTmp(s);
    LiveMakesNoLabel(u.s, u.x, ty);
    AssignMakesNoLabel(DroppedTmp(s, ty).s, Place(u.x, ty), ty, v);
  }

  lemma {:induction false} DropVarMakesNoLabel(s: State, x: Var)
    ensures DropVar(s, x).nextLabel == s.nextLabel
  {
    hide Emit, RemoveLive, LiveType;
    var ty := LiveType(s, x);
    LiveMakesNoLabel(s, x, ty);
    EmitMakesNoLabel(RemoveLive(s, x), Drop(Place(x, ty), ty));
  }

  lemma {:induction false} ResultMakesNoLabel(s: State, ty: Ty, v: Value)
    ensures BlockResult(s, ty, v).s.nextLabel == s.nextLabel
  {
    hide Emit, AddLive;
    var u := UndroppedTmp(s);
    var i := Assign(Place(u.x, ty), ty, v);
    EmitMakesNoLabel(u.s, i);
    LiveMakesNoLabel(Emit(u.s, i), u.x, ty);
  }

  lemma {:induction false} VariableMakesNoLabel(s: State, place: Place, ty: Ty, v: Value)
    ensures AssignVariable(s, place, ty, v).s.nextLabel == s.nextLabel
  {
    hide Emit, AddLive, DoAssign;
    var u := UndroppedTmp(s);
    LiveMakesNoLabel(u.s, u.x, ty);
    var t := DroppedTmp(s, ty).s;
    AssignMakesNoLabel(t, Place(u.x, ty), ty, v);
    var a := DoAssign(t, Place(u.x, ty), ty, v);
    EmitMakesNoLabel(a, Drop(place, ty));
    AssignMakesNoLabel(Emit(a, Drop(place, ty)), place, ty, Move(u.x));
  }

  lemma {:induction false} ReturnMakesNoLabel(s: State, v: Value)
    ensures ReturnValue(s, v).s.nextLabel == s.nextLabel
  {
    hide Emit, AssignToVar, RemoveLive, EmitAllDrops;
    var r := AssignToVar(s, v, s.returnType);
    var t := RemoveLive(r.s, r.x);
    ToVarMakesNoLabel(s, v, s.returnType);
    LiveMakesNoLabel(r.s, r.x, s.returnType);
    AllDropsMakeNoLabel(t, t.frames);
    EmitMakesNoLabel(EmitAllDrops(t, t.frames), Return(r.x));
  }

  lemma {:induction false} LeavingMakesNoLabel(s: State)
    ensures PopAndDrop(s).nextLabel == s.nextLabel && PopFrame(s).nextLabel == s.nextLabel
  {
    DropsMakeNoLabel(PopFrame(s), TopFrame(s));
  }

  // ------------------------------------------------------------ expressions

  ghost predicate ExprHeads(s: State, e: Ast.Expr) {
    HeadsBetween(HeadsOf(s, e), s.nextLabel, LowerExpr(s, e).s.nextLabel)
  }

  lemma {:induction false} ExprHeadsApart(s: State, e: Ast.Expr)
    ensures ExprHeads(s, e)
    decreases e, 2
  {
    hide HeadsBetween, ReturnValue, BlockResult, AssignVariable, LowerShortcircuit, LowerIfElse, LowerWhile;
    hide LowerToVar, LowerBlock, OperandStages, BranchStages, LoopStages;
    match e {
    case Return(None, _) =>
      ReturnMakesNoLabel(s, UNIT_VALUE);
      NoHeads(s.nextLabel, s.nextLabel);
    case Return(Some(v), _) =>
      ExprHeadsApart(s, v);
      ReturnMakesNoLabel(LowerExpr(s, v).s, LowerExpr(s, v).v);
    case Literal(_) => NoHeads(s.nextLabel, s.nextLabel);
    case BlockExpr(b, _) =>
      BlockHeadsApart(s, b);
      var r := LowerBlock(s, b);
      ResultMakesNoLabel(r.s, b.ty, r.v);
    case Path(_, _) => NoHeads(s.nextLabel, s.nextLabel);
    case Not(operand) => VarHeadsApart(s, operand, Bool);
    case Negate(operand) => VarHeadsApart(s, operand, Ast.TypeOf(operand));
    case Assign(x, rootTy, rhs) =>
      ExprHeadsApart(s, rhs);
      var r := LowerExpr(s, rhs);
      VariableMakesNoLabel(r.s, Place(Explicit(x), rootTy), Ast.TypeOf(rhs), r.v);
    case BinOp(l, op, r) =>
      if op.And? {
        LogicHeadsApart(s, e, 1);
      } else if op.Or? {
        LogicHeadsApart(s, e, 0);
      } else {
        VarHeadsApart(s, l, Ast.TypeOf(l));
        var x := LowerToVar(s, l, Ast.TypeOf(l));
        VarHeadsApart(x.s, r, Ast.TypeOf(r));
        var y := LowerToVar(x.s, r, Ast.TypeOf(r));
        HeadsJoin(HeadsOf(s, l), s.nextLabel, x.s.nextLabel, HeadsOf(x.s, r), x.s.nextLabel, y.s.nextLabel);
      }
    case IfElse(_, _, _, _) => BranchHeadsApart(s, e);
    case While(_, _) => LoopHeadsApart(s, e);
    }
  }

  lemma {:induction false} VarHeadsApart(s: State, e: Ast.Expr, ty: Ty)
    ensures HeadsBetween(HeadsOf(s, e), s.nextLabel, LowerToVar(s, e, ty).s.nextLabel)
    decreases e, 3
  {
    hide HeadsBetween, LowerExpr, AssignToVar;
    ExprHeadsApart(s, e);
    var r := LowerExpr(s, e);
    ToVarMakesNoLabel(r.s, r.v, ty);
  }

  lemma {:induction false} OperandHeadsApart(s: State, place: Place, operand: Ast.Expr)
    ensures HeadsBetween(HeadsOf(PushFrame(s), operand), s.nextLabel, LowerOperand(s, place, operand).nextLabel)
    decreases operand, 3
  {
    hide HeadsBetween, LowerExpr, DoAssign, PopAndDrop;
    ExprHeadsApart(PushFrame(s), operand);
    var r := LowerExpr(PushFrame(s), operand);
    AssignMakesNoLabel(r.s, place, Bool, r.v);
    LeavingMakesNoLabel(DoAssign(r.s, place, Bool, r.v));
  }

  lemma {:induction false} LogicHeadsApart(s: State, e: Ast.Expr, otherIf: nat)
    requires e.BinOp?
    ensures var g := OperandStages(s, e, otherIf);
      HeadsBetween(HeadsOf(PushFrame(g.start), e.left) + HeadsOf(PushFrame(g.second), e.right),
        s.nextLabel, LowerShortcircuit(s, e, otherIf).s.nextLabel)
    decreases e, 1
  {
    hide HeadsBetween, LowerOperand, HeadsOf;
    var g := OperandStages(s, e, otherIf);
    var place := Place(Tmp(s.tmpIndex), Bool);
    OperandHeadsApart(g.start, place, e.left);
    OperandHeadsApart(g.second, place, e.right);
    var a, b := HeadsOf(PushFrame(g.start), e.left), HeadsOf(PushFrame(g.second), e.right);
    HeadsJoin(a, g.start.nextLabel, g.left.nextLabel, b, g.second.nextLabel, g.right.nextLabel);
    HeadsGrow(a, g.start.nextLabel, g.left.nextLabel);
    HeadsWithin(a + b, g.start.nextLabel, g.right.nextLabel, s.nextLabel, g.right.nextLabel);
  }

  lemma {:induction false} HeadsGrow(heads: set<State>, low: Label, high: Label)
    requires HeadsBetween(heads, low, high)
    ensures low <= high
  {
  }

  lemma {:induction false} BranchHeadsApart(s: State, e: Ast.Expr)
    requires e.IfElse?
    ensures HeadsBetween(HeadsOf(s, e), s.nextLabel, LowerIfElse(s, e).s.nextLabel)
    decreases e, 1
  {
    hide HeadsBetween, LowerToVar, LowerBlock, BranchStages, LowerIfElse;
    var g := BranchStages(s, e);
    var none: set<State> := {};
    BranchLabels(s, e);
    VarHeadsApart(s, e.condition, Bool);
    BlockHeadsApart(g.start, e.thenBlock);
    var a, b := HeadsOf(s, e.condition), HeadsOfBlock(g.start, e.thenBlock);
    HeadsJoin(a, s.nextLabel, g.x.s.nextLabel, b, g.start.nextLabel, g.t.s.nextLabel);
    if e.elseBlock.Some? {
      BlockHeadsApart(g.second, e.elseBlock.value);
      var end := LowerBlock(g.second, e.elseBlock.value).s;
      HeadsJoin(a + b, s.nextLabel, g.t.s.nextLabel, HeadsOfBlock(g.second, e.elseBlock.value),
        g.second.nextLabel, end.nextLabel);
    } else {
      assert a + b + none == a + b;
    }
  }

  /** Where the branches of an if begin and end. */
  lemma {:induction false} BranchLabels(s: State, e: Ast.Expr)
    requires e.IfElse?
    ensures var g := BranchStages(s, e);
      && g.x == LowerToVar(s, e.condition, Bool) && g.x.s.nextLabel <= g.start.nextLabel
      && g.t == LowerBlock(g.start, e.thenBlock) && g.second.nextLabel == g.t.s.nextLabel
      && LowerIfElse(s, e).s.nextLabel ==
        (if e.elseBlock.Some? then LowerBlock(g.second, e.elseBlock.value).s else g.t.s).nextLabel
  {
    hide LowerToVar, LowerBlock;
  }

  /** Where the condition and the body of a loop begin and end. */
  lemma {:induction false} LoopLabels(s: State, e: Ast.Expr)
    requires e.While?
    ensures var g := LoopStages(s, e);
      && g.head == LoopHead(FreshLabels(s)) && g.x == LowerToVar(g.head, e.condition, Bool)
      && g.x.s.nextLabel == g.body.nextLabel && g.b == LowerBlock(g.body, e.body)
      && LowerWhile(s, e).s.nextLabel == g.b.s.nextLabel
  {
    hide LowerToVar, LowerBlock, AssignToVar;
    var g := LoopStages(s, e);
    ToVarMakesNoLabel(g.b.s, g.b.v, Unit);
  }

  lemma {:induction false} LoopHeadsApart(s: State, e: Ast.Expr)
    requires e.While?
    ensures HeadsBetween(HeadsOf(s, e), s.nextLabel, LowerWhile(s, e).s.nextLabel)
    decreases e, 1
  {
    hide HeadsBetween, LowerToVar, LowerBlock, LoopStages, LoopHead, FreshLabels, LowerWhile;
    var g := LoopStages(s, e);
    LoopLabels(s, e);
    HeadIsAlone(s, g.head);
    VarHeadsApart(g.head, e.condition, Bool);
    BlockHeadsApart(g.body, e.body);
    var a, b := HeadsOf(g.head, e.condition), HeadsOfBlock(g.body, e.body);
    HeadsJoin({g.head}, s.nextLabel, g.head.nextLabel, a, g.head.nextLabel, g.x.s.nextLabel);
    HeadsJoin({g.head} + a, s.nextLabel, g.x.s.nextLabel, b, g.body.nextLabel, g.b.s.nextLabel);
  }

  lemma {:induction false} HeadIsAlone(s: State, head: State)
    requires head == LoopHead(FreshLabels(s))
    ensures HeadsBetween({head}, s.nextLabel, head.nextLabel)
  {
  }

  // ---------------------------------------------------- blocks and statements

  lemma {:induction false} BlockHeadsApart(s: State, b: Ast.Block)
    ensures HeadsBetween(HeadsOfBlock(s, b), s.nextLabel, LowerBlock(s, b).s.nextLabel)
    decreases b, 2
  {
    hide HeadsBetween, LowerExpr, LowerStmts, AssignToVar, RemoveLive, PopAndDrop;
    var t := LowerStmts(PushFrame(s), b.stmts);
    StmtsHeadsApart(PushFrame(s), b.stmts);
    var a := HeadsOfStmts(PushFrame(s), b.stmts);
    var op := if b.last.Some? then LowerExpr(t, b.last.value) else Lowered(t, UNIT_VALUE);
    if b.last.Some? {
      ExprHeadsApart(t, b.last.value);
      HeadsJoin(a, s.nextLabel, t.nextLabel, HeadsOf(t, b.last.value), t.nextLabel, op.s.nextLabel);
    } else {
      assert a + {} == a;
    }
    ToVarMakesNoLabel(op.s, op.v, b.ty);
    var final := AssignToVar(op.s, op.v, b.ty);
    LiveMakesNoLabel(final.s, final.x, b.ty);
    LeavingMakesNoLabel(RemoveLive(final.s, final.x));
  }

  lemma {:induction false} StmtsHeadsApart(s: State, stmts: seq<Ast.Stmt>)
    ensures HeadsBetween(HeadsOfStmts(s, stmts), s.nextLabel, LowerStmts(s, stmts).nextLabel)
    decreases stmts, 2
  {
    hide HeadsBetween, LowerStmt, HeadsOfStmt;
    if stmts == [] {
      NoHeads(s.nextLabel, s.nextLabel);
    } else {
      var t := LowerStmt(s, stmts[0]);
      StmtHeadsApart(s, stmts[0]);
      StmtsHeadsApart(t, stmts[1..]);
      HeadsJoin(HeadsOfStmt(s, stmts[0]), s.nextLabel, t.nextLabel, HeadsOfStmts(t, stmts[1..]), t.nextLabel,
        LowerStmts(t, stmts[1..]).nextLabel);
    }
  }

  lemma {:induction false} StmtHeadsApart(s: State, stmt: Ast.Stmt)
    ensures HeadsBetween(HeadsOfStmt(s, stmt), s.nextLabel, LowerStmt(s, stmt).nextLabel)
    decreases stmt, 2
  {
    hide HeadsBetween, LowerExpr, LowerToVar, DoAssign, DropVar, HeadsOf;
    match stmt {
    case Let(x, ty, init) =>
      ExprHeadsApart(s, init);
      var r := LowerExpr(s, init);
      LiveMakesNoLabel(r.s, Explicit(x), ty);
      AssignMakesNoLabel(AddLive(r.s, Explicit(x), ty), Place(Explicit(x), ty), ty, r.v);
    case ExprStmt(e) =>
      VarHeadsApart(s, e, Ast.TypeOf(e));
      var t := LowerToVar(s, e, Ast.TypeOf(e));
      DropVarMakesNoLabel(t.s, t.x);
    }
  }
}

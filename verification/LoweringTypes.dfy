/** The types in lowered code: what is dropped is dropped at the type it has,
    and code from matching source types has matching types throughout. */
module LoweringTypes {
  import opened Collections
  import opened Mir
  import opened Lowering
  import opened LoweringStages
  import Ast

  // ------------------------------------------------------------------- drops

  predicate AgreesAt(s: State, k: nat, i: nat)
    requires k < |s.blocks| && i < |s.blocks[k].instructions|
  {
    DropAgrees(s.blocks[k].instructions[i])
  }

  /** The variable has the type at which it is dropped. */
  predicate DropAgrees(i: Instruction) {
    i.Drop? ==> i.val.ty == i.ty
  }

  predicate DropsAgree(s: State) {
    forall k, i :: 0 <= k < |s.blocks| && 0 <= i < |s.blocks[k].instructions| ==> AgreesAt(s, k, i)
  }

  /** In every assignment both sides have the same recorded type. */
  predicate Matched(e: Ast.Expr)
    decreases e
  {
    match e
    case Return(None, _) => true
    case Return(Some(v), _) => Matched(v)
    case Literal(_) => true
    case BlockExpr(b, _) => MatchedBlock(b)
    case Path(_, _) => true
    case Not(operand) => Matched(operand)
    case Negate(operand) => Matched(operand)
    case Assign(_, rootTy, rhs) => Matched(rhs) && Ast.TypeOf(rhs) == rootTy
    case BinOp(l, _, r) => Matched(l) && Matched(r)
    case IfElse(condition, thenBlock, elseBlock, _) =>
      Matched(condition) && MatchedBlock(thenBlock) && (elseBlock.Some? ==> MatchedBlock(elseBlock.value))
    case While(condition, body) => Matched(condition) && MatchedBlock(body)
  }

  predicate MatchedBlock(b: Ast.Block)
    decreases b
  {
    MatchedStmts(b.stmts) && (b.last.Some? ==> Matched(b.last.value))
  }

  predicate MatchedStmts(stmts: seq<Ast.Stmt>)
    decreases stmts
  {
    stmts != [] ==> MatchedStmt(stmts[0]) && MatchedStmts(stmts[1..])
  }

  predicate MatchedStmt(s: Ast.Stmt)
    decreases s
  {
    match s
    case Let(_, _, init) => Matched(init)
    case ExprStmt(e) => Matched(e)
  }

  /** From s to t drops have been emitted that agree exactly if ok holds. */
  predicate Agrees(s: State, t: State, ok: bool) {
    t.blocks != [] && (DropsAgree(t) <==> DropsAgree(s) && ok)
  }

  lemma {:induction false} AgreesJoin(s: State, t: State, u: State, ok: bool, more: bool)
    requires Agrees(s, t, ok) && Agrees(t, u, more)
    ensures Agrees(s, u, ok && more)
  {
  }

  lemma {:induction false} SameCode(s: State, t: State)
    requires s.blocks != [] && t.blocks == s.blocks
    ensures Agrees(s, t, true)
  {
    assert forall k, i :: 0 <= k < |s.blocks| && 0 <= i < |s.blocks[k].instructions| ==>
      (AgreesAt(s, k, i) <==> AgreesAt(t, k, i));
  }

  lemma {:induction false} EmitAgrees(s: State, i: Instruction)
    requires s.blocks != []
    ensures Agrees(s, Emit(s, i), DropAgrees(i))
  {
    var t, last := Emit(s, i), |s.blocks| - 1;
    var n := |s.blocks[last].instructions|;
    assert forall k, j :: 0 <= k < |s.blocks| && 0 <= j < |s.blocks[k].instructions| ==>
      (AgreesAt(s, k, j) <==> AgreesAt(t, k, j));
    assert t.blocks[last].instructions[n] == i;
    assert AgreesAt(t, last, n) <==> DropAgrees(i);
  }

  lemma {:induction false} StartAgrees(s: State, l: Label)
    ensures Agrees(s, StartBlock(s, l), true)
  {
    var t := StartBlock(s, l);
    assert forall k, j :: 0 <= k < |s.blocks| && 0 <= j < |s.blocks[k].instructions| ==>
      (AgreesAt(s, k, j) <==> AgreesAt(t, k, j));
    assert t.blocks[|s.blocks|].instructions == [];
  }

  lemma {:induction false} DropsAgreeThemselves(s: State, frame: Frame)
    requires s.blocks != []
    ensures Agrees(s, EmitDrops(s, frame), true)
    decreases |frame|
  {
    hide Agrees, Emit;
    if frame == [] {
      SameCode(s, s);
    } else {
      var last := frame[|frame| - 1];
      var i := Drop(Place(last.0, last.1), last.1);
      EmitAgrees(s, i);
      AgreesHasCode(s, Emit(s, i), true);
      DropsAgreeThemselves(Emit(s, i), frame[..|frame| - 1]);
      AgreesJoin(s, Emit(s, i), EmitDrops(s, frame), true, true);
    }
  }

  lemma {:induction false} AgreesHasCode(s: State, t: State, ok: bool)
    requires Agrees(s, t, ok)
    ensures t.blocks != []
  {
  }

  lemma {:induction false} AllDropsAgree(s: State, frames: seq<Frame>)
    requires s.blocks != []
    ensures Agrees(s, EmitAllDrops(s, frames), true)
    decreases |frames|
  {
    hide Agrees;
    if frames == [] {
      SameCode(s, s);
    } else {
      var k := |frames| - 1;
      DropsAgreeThemselves(s, frames[k]);
      AgreesHasCode(s, EmitDrops(s, frames[k]), true);
      AllDropsAgree(EmitDrops(s, frames[k]), frames[..k]);
      AgreesJoin(s, EmitDrops(s, frames[k]), EmitAllDrops(s, frames), true, true);
    }
  }

  lemma {:induction false} LiveKeepsCode(s: State, x: Var, ty: Ty)
    ensures AddLive(s, x, ty).blocks == s.blocks && RemoveLive(s, x).blocks == s.blocks
  {
    hide PositionOf;
  }

  lemma {:induction false} AssignAgrees(s: State, place: Place, ty: Ty, v: Value)
    requires s.blocks != []
    ensures Agrees(s, DoAssign(s, place, ty, v), true)
  {
    hide Agrees, Emit, RemoveLive;
    var t := if v.Move? then RemoveLive(s, v.source) else s;
    LiveKeepsCode(s, if v.Move? then v.source else place.root, ty);
    SameCode(s, t);
    EmitAgrees(t, Assign(place, ty, v));
    AgreesJoin(s, t, DoAssign(s, place, ty, v), true, true);
  }

  lemma {:induction false} ToVarAgrees(s: State, v: Value, ty: Ty)
    requires s.blocks != []
    ensures Agrees(s, AssignToVar(s, v, ty).s, true)
  {
    hide Agrees, AddLive, DoAssign;
    if v.Move? {
      SameCode(s, s);
    } else {
      var u, t := UndroppedTmp(s), DroppedTmp(s, ty).s;
      LiveKeepsCode(u.s, u.x, ty);
      SameCode(s, t);
      AssignAgrees(t, Place(u.x, ty), ty, v);
      AgreesJoin(s, t, AssignToVar(s, v, ty).s, true, true);
    }
  }

  lemma {:induction false} DropVarAgrees(s: State, x: Var)
    requires s.blocks != []
    ensures Agrees(s, DropVar(s, x), true)
  {
    hide Agrees, Emit, RemoveLive, LiveType;
    var ty := LiveType(s, x);
    LiveKeepsCode(s, x, ty);
    SameCode(s, RemoveLive(s, x));
    EmitAgrees(RemoveLive(s, x), Drop(Place(x, ty), ty));
    AgreesJoin(s, RemoveLive(s, x), DropVar(s, x), true, true);
  }

  lemma {:induction false} LeavingAgrees(s: State)
    requires s.blocks != []
    ensures Agrees(s, PopFrame(s), true) && Agrees(s, PopAndDrop(s), true)
  {
    hide Agrees;
    SameCode(s, PopFrame(s));
    DropsAgreeThemselves(PopFrame(s), TopFrame(s));
    AgreesJoin(s, PopFrame(s), PopAndDrop(s), true, true);
  }

  lemma {:induction false} ReturnAgrees(s: State, v: Value)
    requires s.blocks != []
    ensures Agrees(s, ReturnValue(s, v).s, true)
  {
    hide Agrees, Emit, AssignToVar, RemoveLive, EmitAllDrops;
    var r := AssignToVar(s, v, s.returnType);
    var t := RemoveLive(r.s, r.x);
    var u := EmitAllDrops(t, t.frames);
    ToVarAgrees(s, v, s.returnType);
    AgreesHasCode(s, r.s, true);
    LiveKeepsCode(r.s, r.x, s.returnType);
    SameCode(r.s, t);
    AllDropsAgree(t, t.frames);
    AgreesHasCode(t, u, true);
    EmitAgrees(u, Return(r.x));
    AgreesJoin(s, r.s, t, true, true);
    AgreesJoin(s, t, u, true, true);
    AgreesJoin(s, u, ReturnValue(s, v).s, true, true);
  }

  lemma {:induction false} ResultAgrees(s: State, ty: Ty, v: Value)
    requires s.blocks != []
    ensures Agrees(s, BlockResult(s, ty, v).s, true)
  {
    hide Agrees, Emit, AddLive;
    var u := UndroppedTmp(s);
    var i := Assign(Place(u.x, ty), ty, v);
    var t := Emit(u.s, i);
    SameCode(s, u.s);
    EmitAgrees(u.s, i);
    AgreesJoin(s, u.s, t, true, true);
    AgreesHasCode(s, t, true);
    LiveKeepsCode(t, u.x, ty);
    SameCode(t, AddLive(t, u.x, ty));
    AgreesJoin(s, t, AddLive(t, u.x, ty), true, true);
  }

  lemma {:induction false} VariableAgrees(s: State, place: Place, ty: Ty, v: Value)
    requires s.blocks != []
    ensures Agrees(s, AssignVariable(s, place, ty, v).s, place.ty == ty)
  {
    hide Agrees, Emit, AddLive, DoAssign;
    var u, t := UndroppedTmp(s), DroppedTmp(s, ty).s;
    LiveKeepsCode(u.s, u.x, ty);
    SameCode(s, t);
    var a := DoAssign(t, Place(u.x, ty), ty, v);
    AssignAgrees(t, Place(u.x, ty), ty, v);
    AgreesJoin(s, t, a, true, true);
    AgreesHasCode(s, a, true);
    var d := Emit(a, Drop(place, ty));
    EmitAgrees(a, Drop(place, ty));
    AgreesJoin(s, a, d, true, place.ty == ty);
    AgreesHasCode(a, d, place.ty == ty);
    AssignAgrees(d, place, ty, Move(u.x));
    AgreesJoin(s, d, AssignVariable(s, place, ty, v).s, place.ty == ty, true);
  }

  // ------------------------------------------------- drops, by construction

  lemma {:induction false} ExprAgrees(s: State, e: Ast.Expr)
    requires s.blocks != []
    ensures Agrees(s, LowerExpr(s, e).s, Matched(e))
    decreases e, 2
  {
    hide Agrees, ReturnValue, BlockResult, AssignVariable, LowerShortcircuit, LowerIfElse, LowerWhile;
    hide LowerToVar, LowerBlock;
    match e {
    case Return(None, _) => ReturnAgrees(s, UNIT_VALUE);
    case Return(Some(v), _) =>
      ExprAgrees(s, v);
      var r := LowerExpr(s, v);
      AgreesHasCode(s, r.s, Matched(v));
      ReturnAgrees(r.s, r.v);
      AgreesJoin(s, r.s, LowerExpr(s, e).s, Matched(v), true);
    case Literal(_) => SameCode(s, s);
    case BlockExpr(b, _) =>
      BlockAgrees(s, b);
      var r := LowerBlock(s, b);
      AgreesHasCode(s, r.s, MatchedBlock(b));
      ResultAgrees(r.s, b.ty, r.v);
      AgreesJoin(s, r.s, LowerExpr(s, e).s, MatchedBlock(b), true);
    case Path(_, _) => SameCode(s, s);
    case Not(operand) => VarAgrees(s, operand, Bool);
    case Negate(operand) => VarAgrees(s, operand, Ast.TypeOf(operand));
    case Assign(x, rootTy, rhs) =>
      ExprAgrees(s, rhs);
      var r := LowerExpr(s, rhs);
      AgreesHasCode(s, r.s, Matched(rhs));
      VariableAgrees(r.s, Place(Explicit(x), rootTy), Ast.TypeOf(rhs), r.v);
      AgreesJoin(s, r.s, LowerExpr(s, e).s, Matched(rhs), rootTy == Ast.TypeOf(rhs));
    case BinOp(l, op, r) =>
      if op.And? {
        LogicAgrees(s, e, 1);
      } else if op.Or? {
        LogicAgrees(s, e, 0);
      } else {
        var x := LowerToVar(s, l, Ast.TypeOf(l));
        VarAgrees(s, l, Ast.TypeOf(l));
        AgreesHasCode(s, x.s, Matched(l));
        VarAgrees(x.s, r, Ast.TypeOf(r));
        AgreesJoin(s, x.s, LowerExpr(s, e).s, Matched(l), Matched(r));
      }
    case IfElse(_, _, _, _) => IfAgrees(s, e);
    case While(_, _) => LoopAgrees(s, e);
    }
  }

  lemma {:induction false} VarAgrees(s: State, e: Ast.Expr, ty: Ty)
    requires s.blocks != []
    ensures Agrees(s, LowerToVar(s, e, ty).s, Matched(e))
    decreases e, 3
  {
    hide Agrees, LowerExpr, AssignToVar, Matched;
    var r := LowerExpr(s, e);
    ExprAgrees(s, e);
    AgreesHasCode(s, r.s, Matched(e));
    ToVarAgrees(r.s, r.v, ty);
    AgreesJoin(s, r.s, LowerToVar(s, e, ty).s, Matched(e), true);
  }

  lemma {:induction false} OperandAgrees(s: State, place: Place, operand: Ast.Expr)
    requires s.blocks != []
    ensures Agrees(s, LowerOperand(s, place, operand), Matched(operand))
    decreases operand, 3
  {
    hide Agrees, LowerExpr, DoAssign, PopAndDrop, Matched;
    var p := PushFrame(s);
    var r := LowerExpr(p, operand);
    var a := DoAssign(r.s, place, Bool, r.v);
    SameCode(s, p);
    ExprAgrees(p, operand);
    AgreesJoin(s, p, r.s, true, Matched(operand));
    AgreesHasCode(p, r.s, Matched(operand));
    AssignAgrees(r.s, place, Bool, r.v);
    AgreesJoin(s, r.s, a, Matched(operand), true);
    AgreesHasCode(r.s, a, true);
    LeavingAgrees(a);
    AgreesJoin(s, a, PopAndDrop(a), Matched(operand), true);
  }

  /** A jump or switch, and the start of the next block. */
  lemma {:induction false} NextBlockAgrees(s: State, i: Instruction, l: Label)
    requires s.blocks != [] && !i.Drop?
    ensures Agrees(s, StartBlock(Emit(s, i), l), true)
  {
    hide Agrees, Emit, StartBlock;
    EmitAgrees(s, i);
    StartAgrees(Emit(s, i), l);
    AgreesJoin(s, Emit(s, i), StartBlock(Emit(s, i), l), true, true);
  }

  lemma {:induction false} LogicAgrees(s: State, e: Ast.Expr, otherIf: nat)
    requires s.blocks != [] && e.BinOp?
    ensures Agrees(s, LowerShortcircuit(s, e, otherIf).s, Matched(e.left) && Matched(e.right))
    decreases e, 1
  {
    hide Agrees, LowerOperand, Emit, StartBlock, Matched, AddLive;
    var g := OperandStages(s, e, otherIf);
    var tmp := Tmp(s.tmpIndex);
    SameCode(s, g.start);
    OperandAgrees(g.start, Place(tmp, Bool), e.left);
    AgreesJoin(s, g.start, g.left, true, Matched(e.left));
    AgreesHasCode(g.start, g.left, Matched(e.left));
    NextBlockAgrees(g.left, Switch(tmp, [(otherIf, g.other)], Some(g.cont)), g.other);
    AgreesJoin(s, g.left, g.second, Matched(e.left), true);
    AgreesHasCode(g.left, g.second, true);
    OperandAgrees(g.second, Place(tmp, Bool), e.right);
    AgreesJoin(s, g.second, g.right, Matched(e.left), Matched(e.right));
    AgreesHasCode(g.second, g.right, Matched(e.right));
    LiveKeepsCode(g.right, tmp, Bool);
    SameCode(g.right, g.end);
    AgreesJoin(s, g.right, g.end, Matched(e.left) && Matched(e.right), true);
    NextBlockAgrees(g.end, Jump(g.cont), g.cont);
    AgreesJoin(s, g.end, LowerShortcircuit(s, e, otherIf).s, Matched(e.left) && Matched(e.right), true);
  }

  /** A branch stores its result and jumps. */
  lemma {:induction false} EndAgrees(s: State, place: Place, v: Value, cont: Label)
    requires s.blocks != []
    ensures Agrees(s, EndBranch(s, place, v, cont), true)
  {
    hide Agrees, Emit;
    var t := EmitAssign(s, place, place.ty, v);
    EmitAgrees(s, Assign(place, place.ty, v));
    AgreesHasCode(s, t, true);
    EmitAgrees(t, Jump(cont));
    AgreesJoin(s, t, Emit(t, Jump(cont)), true, true);
  }

  lemma {:induction false} IfAgrees(s: State, e: Ast.Expr)
    requires s.blocks != [] && e.IfElse?
    ensures Agrees(s, LowerIfElse(s, e).s, Matched(e))
    decreases e, 1
  {
    hide Agrees, LowerToVar, LowerBlock, Emit, StartBlock, AddLive, EndBranch;
    var g := BranchStages(s, e);
    var place := Place(g.res.x, e.ty);
    var c, a := Matched(e.condition), MatchedBlock(e.thenBlock);
    VarAgrees(s, e.condition, Bool);
    AgreesHasCode(s, g.x.s, c);
    SameCode(g.x.s, g.l.s);
    AgreesJoin(s, g.x.s, g.l.s, c, true);
    NextBlockAgrees(g.l.s,
      Switch(g.x.x, [(1, g.l.first)], Some(if e.elseBlock.Some? then g.l.second else g.l.cont)), g.l.first);
    AgreesJoin(s, g.l.s, g.start, c, true);
    AgreesHasCode(g.l.s, g.start, true);
    BlockAgrees(g.start, e.thenBlock);
    AgreesJoin(s, g.start, g.t.s, c, a);
    AgreesHasCode(g.start, g.t.s, a);
    SameCode(g.t.s, g.res.s);
    EndAgrees(g.res.s, place, g.t.v, g.l.cont);
    AgreesJoin(s, g.t.s, g.res.s, c && a, true);
    AgreesJoin(s, g.res.s, g.mid, c && a, true);
    AgreesHasCode(g.res.s, g.mid, true);
    var end, ok := g.mid, c && a;
    if e.elseBlock.Some? {
      var b := e.elseBlock.value;
      var f := LowerBlock(g.second, b);
      StartAgrees(g.mid, g.l.second);
      AgreesJoin(s, g.mid, g.second, ok, true);
      AgreesHasCode(g.mid, g.second, true);
      BlockAgrees(g.second, b);
      AgreesJoin(s, g.second, f.s, ok, MatchedBlock(b));
      AgreesHasCode(g.second, f.s, MatchedBlock(b));
      EndAgrees(f.s, place, f.v, g.l.cont);
      end, ok := EndBranch(f.s, place, f.v, g.l.cont), ok && MatchedBlock(b);
      AgreesJoin(s, f.s, end, ok, true);
    }
    StartAgrees(end, g.l.cont);
    var last := StartBlock(end, g.l.cont);
    AgreesJoin(s, end, last, ok, true);
    AgreesHasCode(end, last, true);
    LiveKeepsCode(last, g.res.x, e.ty);
    SameCode(last, LowerIfElse(s, e).s);
    AgreesJoin(s, last, LowerIfElse(s, e).s, ok, true);
  }

  lemma {:induction false} LoopAgrees(s: State, e: Ast.Expr)
    requires s.blocks != [] && e.While?
    ensures Agrees(s, LowerWhile(s, e).s, Matched(e))
    decreases e, 1
  {
    hide Agrees, LowerToVar, LowerBlock, Emit, StartBlock, AssignToVar;
    var g := LoopStages(s, e);
    var c, b := Matched(e.condition), MatchedBlock(e.body);
    SameCode(s, g.l.s);
    NextBlockAgrees(g.l.s, Jump(g.l.first), g.l.first);
    AgreesJoin(s, g.l.s, g.head, true, true);
    AgreesHasCode(g.l.s, g.head, true);
    VarAgrees(g.head, e.condition, Bool);
    AgreesJoin(s, g.head, g.x.s, true, c);
    AgreesHasCode(g.head, g.x.s, c);
    NextBlockAgrees(g.x.s, Switch(g.x.x, [(1, g.l.second)], Some(g.l.cont)), g.l.second);
    AgreesJoin(s, g.x.s, g.body, c, true);
    AgreesHasCode(g.x.s, g.body, true);
    BlockAgrees(g.body, e.body);
    AgreesJoin(s, g.body, g.b.s, c, b);
    AgreesHasCode(g.body, g.b.s, b);
    var t := AssignToVar(g.b.s, g.b.v, Unit).s;
    ToVarAgrees(g.b.s, g.b.v, Unit);
    AgreesJoin(s, g.b.s, t, c && b, true);
    AgreesHasCode(g.b.s, t, true);
    NextBlockAgrees(t, Jump(g.l.first), g.l.cont);
    AgreesJoin(s, t, LowerWhile(s, e).s, c && b, true);
  }

  lemma {:induction false} BlockAgrees(s: State, b: Ast.Block)
    requires s.blocks != []
    ensures Agrees(s, LowerBlock(s, b).s, MatchedBlock(b))
    decreases b, 2
  {
    hide Agrees, LowerExpr, LowerStmts, AssignToVar, RemoveLive, PopAndDrop, PopFrame;
    var p := PushFrame(s);
    var t := LowerStmts(p, b.stmts);
    var op := if b.last.Some? then LowerExpr(t, b.last.value) else Lowered(t, UNIT_VALUE);
    var ok := MatchedStmts(b.stmts);
    SameCode(s, p);
    StmtsAgree(p, b.stmts);
    AgreesJoin(s, p, t, true, ok);
    AgreesHasCode(p, t, ok);
    if b.last.Some? {
      ExprAgrees(t, b.last.value);
      AgreesJoin(s, t, op.s, ok, Matched(b.last.value));
      AgreesHasCode(t, op.s, Matched(b.last.value));
    }
    var final := AssignToVar(op.s, op.v, b.ty);
    ToVarAgrees(op.s, op.v, b.ty);
    AgreesJoin(s, op.s, final.s, MatchedBlock(b), true);
    AgreesHasCode(op.s, final.s, true);
    var u := RemoveLive(final.s, final.x);
    LiveKeepsCode(final.s, final.x, b.ty);
    SameCode(final.s, u);
    AgreesJoin(s, final.s, u, MatchedBlock(b), true);
    LeavingAgrees(u);
    AgreesJoin(s, u, LowerBlock(s, b).s, MatchedBlock(b), true);
  }

  lemma {:induction false} StmtsAgree(s: State, stmts: seq<Ast.Stmt>)
    requires s.blocks != []
    ensures Agrees(s, LowerStmts(s, stmts), MatchedStmts(stmts))
    decreases stmts, 2
  {
    hide Agrees, LowerStmt, MatchedStmt;
    if stmts == [] {
      SameCode(s, s);
    } else {
      var t := LowerStmt(s, stmts[0]);
      StmtAgrees(s, stmts[0]);
      AgreesHasCode(s, t, MatchedStmt(stmts[0]));
      StmtsAgree(t, stmts[1..]);
      AgreesJoin(s, t, LowerStmts(s, stmts), MatchedStmt(stmts[0]), MatchedStmts(stmts[1..]));
    }
  }

  lemma {:induction false} StmtAgrees(s: State, stmt: Ast.Stmt)
    requires s.blocks != []
    ensures Agrees(s, LowerStmt(s, stmt), MatchedStmt(stmt))
    decreases stmt, 2
  {
    hide Agrees, LowerExpr, LowerToVar, DoAssign, DropVar, AddLive, Matched;
    match stmt {
    case Let(x, ty, init) =>
      var r := LowerExpr(s, init);
      var t := AddLive(r.s, Explicit(x), ty);
      ExprAgrees(s, init);
      AgreesHasCode(s, r.s, Matched(init));
      LiveKeepsCode(r.s, Explicit(x), ty);
      SameCode(r.s, t);
      AgreesJoin(s, r.s, t, Matched(init), true);
      AssignAgrees(t, Place(Explicit(x), ty), ty, r.v);
      AgreesJoin(s, t, LowerStmt(s, stmt), Matched(init), true);
    case ExprStmt(e) =>
      var t := LowerToVar(s, e, Ast.TypeOf(e));
      VarAgrees(s, e, Ast.TypeOf(e));
      AgreesHasCode(s, t.s, Matched(e));
      DropVarAgrees(t.s, t.x);
      AgreesJoin(s, t.s, LowerStmt(s, stmt), Matched(e), true);
    }
  }

  lemma {:induction false} ParametersKeepCode(s: State, parameters: seq<(Name, Ty)>)
    ensures AddParameters(s, parameters).blocks == s.blocks
    decreases |parameters|
  {
    if parameters != [] {
      var t := AddLive(s, Explicit(parameters[0].0), parameters[0].1);
      LiveKeepsCode(s, Explicit(parameters[0].0), parameters[0].1);
      ParametersKeepCode(t, parameters[1..]);
    }
  }

  /** Every drop in the code of a function is at the type of its variable if
      and only if the sides of every assignment have the same recorded type. */
  lemma {:induction false} FunctionDropsAgree(f: Function)
    ensures DropsAgree(LowerFunction(f)) <==> MatchedBlock(f.body)
  {
    hide Agrees, LowerBlock, AssignToVar, PopAndDrop, Emit, AddParameters;
    var entry := State([Block(ENTRY, [])], [[]], [], 0, ENTRY + 1, f.returnType, false);
    var s := FunctionStart(f);
    ParametersKeepCode(entry, f.parameters);
    var ok := MatchedBlock(f.body);
    var last := LowerBlock(s, f.body);
    BlockAgrees(s, f.body);
    AgreesHasCode(s, last.s, ok);
    var t := AssignToVar(last.s, last.v, f.returnType);
    ToVarAgrees(last.s, last.v, f.returnType);
    AgreesJoin(s, last.s, t.s, ok, true);
    AgreesHasCode(last.s, t.s, true);
    LeavingAgrees(t.s);
    AgreesJoin(s, t.s, PopAndDrop(t.s), ok, true);
    AgreesHasCode(t.s, PopAndDrop(t.s), true);
    EmitAgrees(PopAndDrop(t.s), Return(t.x));
    AgreesJoin(s, PopAndDrop(t.s), LowerFunction(f), ok, true);
    NoDropsYet(s, LowerFunction(f), ok);
  }

  lemma {:induction false} NoDropsYet(s: State, t: State, ok: bool)
    requires s.blocks == [Block(ENTRY, [])] && Agrees(s, t, ok)
    ensures DropsAgree(t) <==> ok
  {
    assert s.blocks[0].instructions == [];
  }
}

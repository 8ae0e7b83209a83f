/** The variables of a lowered function: temporaries, and the names the source
    declares, with their types. */
module LoweredNames {
  import opened Collections
  import opened Mir
  import opened Lowering
  import Ast

  /** Named variables have the types that types gives them. */
  ghost predicate Named(types: map<Name, Ty>, vars: seq<(Var, Ty)>) {
    forall e :: e in vars && e.0.Explicit? ==> e.0.name in types && types[e.0.name] == e.1
  }

  lemma {:induction false} AddNamed(types: map<Name, Ty>, s: State, x: Var, ty: Ty)
    requires Named(types, s.vars) && (x.Explicit? ==> x.name in types && types[x.name] == ty)
    ensures Named(types, AddLive(s, x, ty).vars)
  {
    if s.frames != [] {
      assert AddLive(s, x, ty).vars == s.vars + [(x, ty)];
    }
  }

  lemma {:induction false} AssignVars(s: State, to: Place, ty: Ty, v: Value)
    ensures DoAssign(s, to, ty, v).vars == s.vars
  {
  }

  lemma {:induction false} DropVars(s: State, frame: Frame)
    ensures EmitDrops(s, frame).vars == s.vars
    decreases |frame|
  {
    if frame != [] {
      var last := frame[|frame| - 1];
      DropVars(Emit(s, Drop(Place(last.0, last.1), last.1)), frame[..|frame| - 1]);
    }
  }

  lemma {:induction false} AllDropVars(s: State, frames: seq<Frame>)
    ensures EmitAllDrops(s, frames).vars == s.vars
    decreases |frames|
  {
    if frames != [] {
      DropVars(s, frames[|frames| - 1]);
      AllDropVars(EmitDrops(s, frames[|frames| - 1]), frames[..|frames| - 1]);
    }
  }

  lemma {:induction false} VariableNamed(types: map<Name, Ty>, s: State, v: Value, ty: Ty)
    requires Named(types, s.vars)
    ensures Named(types, AssignToVar(s, v, ty).s.vars)
  {
    hide Named, AddLive, DoAssign;
    if !v.Move? {
      AddNamed(types, UndroppedTmp(s).s, Tmp(s.tmpIndex), ty);
      AssignVars(DroppedTmp(s, ty).s, Place(Tmp(s.tmpIndex), ty), ty, v);
    }
  }

  lemma {:induction false} ReturnNamed(types: map<Name, Ty>, s: State, v: Value)
    requires Named(types, s.vars)
    ensures Named(types, ReturnValue(s, v).s.vars)
  {
    hide Named, AssignToVar;
    VariableNamed(types, s, v, s.returnType);
    var r := AssignToVar(s, v, s.returnType);
    var u := RemoveLive(r.s, r.x);
    AllDropVars(u, u.frames);
  }

  lemma {:induction false} AssignVariableNamed(types: map<Name, Ty>, s: State, place: Place, ty: Ty, v: Value)
    requires Named(types, s.vars)
    ensures Named(types, AssignVariable(s, place, ty, v).s.vars)
  {
    hide Named, DoAssign, AddLive;
    AddNamed(types, UndroppedTmp(s).s, Tmp(s.tmpIndex), ty);
    var t := DroppedTmp(s, ty);
    AssignVars(t.s, Place(t.x, ty), ty, v);
    var u := Emit(DoAssign(t.s, Place(t.x, ty), ty, v), Drop(place, ty));
    AssignVars(u, place, ty, Move(t.x));
  }

  /** Lowering adds no variable but temporaries and declared names. */
  lemma {:induction false} ExprNamed(types: map<Name, Ty>, s: State, e: Ast.Expr)
    requires Named(types, s.vars) && Ast.Declared(types, e)
    ensures Named(types, LowerExpr(s, e).s.vars)
    decreases e, 1
  {
    hide Named, ReturnValue, AssignVariable, LowerToVar, LowerShortcircuit, LowerIfElse,
      LowerWhile, LowerBlock, AddLive;
    match e {
    case Return(None, _) => ReturnNamed(types, s, UNIT_VALUE);
    case Return(Some(v), _) =>
      ExprNamed(types, s, v);
      ReturnNamed(types, LowerExpr(s, v).s, LowerExpr(s, v).v);
    case Literal(_) =>
    case BlockExpr(b, _) =>
      BlockNamed(types, s, b);
      var r := LowerBlock(s, b);
      var res := UndroppedTmp(r.s);
      AddNamed(types, EmitAssign(res.s, Place(res.x, b.ty), b.ty, r.v), res.x, b.ty);
    case Path(_, _) =>
    case Not(operand) => ToVarNamed(types, s, operand, Bool);
    case Negate(operand) => ToVarNamed(types, s, operand, Ast.TypeOf(operand));
    case Assign(x, rootTy, rhs) =>
      ExprNamed(types, s, rhs);
      AssignVariableNamed(types, LowerExpr(s, rhs).s, Place(Explicit(x), rootTy), Ast.TypeOf(rhs), LowerExpr(s, rhs).v);
    case BinOp(l, op, r) =>
      if op.And? {
        ShortcircuitNamed(types, s, e, 1);
      } else if op.Or? {
        ShortcircuitNamed(types, s, e, 0);
      } else {
        ToVarNamed(types, s, l, Ast.TypeOf(l));
        ToVarNamed(types, LowerToVar(s, l, Ast.TypeOf(l)).s, r, Ast.TypeOf(r));
      }
    case IfElse(_, _, _, _) => IfElseNamed(types, s, e);
    case While(_, _) => WhileNamed(types, s, e);
    }
  }

  lemma {:induction false} ToVarNamed(types: map<Name, Ty>, s: State, e: Ast.Expr, ty: Ty)
    requires Named(types, s.vars) && Ast.Declared(types, e)
    ensures Named(types, LowerToVar(s, e, ty).s.vars)
    decreases e, 2
  {
    hide Named, LowerExpr, AssignToVar;
    ExprNamed(types, s, e);
    VariableNamed(types, LowerExpr(s, e).s, LowerExpr(s, e).v, ty);
  }

  lemma {:induction false} OperandNamed(types: map<Name, Ty>, s: State, place: Place, operand: Ast.Expr)
    requires Named(types, s.vars) && Ast.Declared(types, operand)
    ensures Named(types, LowerOperand(s, place, operand).vars)
    decreases operand, 2
  {
    hide Named, LowerExpr, DoAssign, EmitDrops;
    ExprNamed(types, PushFrame(s), operand);
    var r := LowerExpr(PushFrame(s), operand);
    AssignVars(r.s, place, Bool, r.v);
    var a := DoAssign(r.s, place, Bool, r.v);
    DropVars(PopFrame(a), TopFrame(a));
  }

  lemma {:induction false} ShortcircuitNamed(types: map<Name, Ty>, s: State, e: Ast.Expr, otherIf: nat)
    requires Named(types, s.vars) && e.BinOp? && Ast.Declared(types, e)
    ensures Named(types, LowerShortcircuit(s, e, otherIf).s.vars)
    decreases e, 0
  {
    hide Named, LowerOperand, AddLive;
    var cont := FreshLabel(s);
    var other := FreshLabel(cont.s);
    var tmp := UndroppedTmp(other.s);
    var place := Place(tmp.x, Bool);
    OperandNamed(types, tmp.s, place, e.left);
    var second := OtherOperand(LowerOperand(tmp.s, place, e.left), tmp.x, otherIf, other.lbl, cont.lbl);
    OperandNamed(types, second, place, e.right);
    AddNamed(types, LowerOperand(second, place, e.right), tmp.x, Bool);
  }

  lemma {:induction false} IfElseNamed(types: map<Name, Ty>, s: State, e: Ast.Expr)
    requires Named(types, s.vars) && e.IfElse? && Ast.Declared(types, e)
    ensures Named(types, LowerIfElse(s, e).s.vars)
    decreases e, 0
  {
    hide Named, LowerToVar, LowerBlock, AddLive;
    ToVarNamed(types, s, e.condition, Bool);
    var x := LowerToVar(s, e.condition, Bool);
    var l := FreshLabels(x.s);
    var start := ThenBranch(x.x, l, e.elseBlock.Some?);
    BlockNamed(types, start, e.thenBlock);
    var t := LowerBlock(start, e.thenBlock);
    var res := UndroppedTmp(t.s);
    var place := Place(res.x, e.ty);
    var last := EndBranch(res.s, place, t.v, l.cont);
    if e.elseBlock.Some? {
      var second := StartBlock(last, l.second);
      BlockNamed(types, second, e.elseBlock.value);
      var f := LowerBlock(second, e.elseBlock.value);
      last := EndBranch(f.s, place, f.v, l.cont);
    }
    AddNamed(types, StartBlock(last, l.cont), res.x, e.ty);
  }

  lemma {:induction false} WhileNamed(types: map<Name, Ty>, s: State, e: Ast.Expr)
    requires Named(types, s.vars) && e.While? && Ast.Declared(types, e)
    ensures Named(types, LowerWhile(s, e).s.vars)
    decreases e, 0
  {
    hide Named, LowerToVar, LowerBlock, AssignToVar;
    var l := FreshLabels(s);
    ToVarNamed(types, LoopHead(l), e.condition, Bool);
    var body := LoopBody(LowerToVar(LoopHead(l), e.condition, Bool), l);
    BlockNamed(types, body, e.body);
    var b := LowerBlock(body, e.body);
    VariableNamed(types, b.s, b.v, Unit);
  }

  lemma {:induction false} BlockNamed(types: map<Name, Ty>, s: State, b: Ast.Block)
    requires Named(types, s.vars) && Ast.DeclaredBlock(types, b)
    ensures Named(types, LowerBlock(s, b).s.vars)
    decreases b, 1
  {
    hide Named, LowerExpr, LowerStmts, AssignToVar, EmitDrops, RemoveLive;
    StmtsNamed(types, PushFrame(s), b.stmts);
    var t := LowerStmts(PushFrame(s), b.stmts);
    var op := if b.last.Some? then LowerExpr(t, b.last.value) else Lowered(t, UNIT_VALUE);
    if b.last.Some? { ExprNamed(types, t, b.last.value); }
    VariableNamed(types, op.s, op.v, b.ty);
    var final := AssignToVar(op.s, op.v, b.ty);
    var u := RemoveLive(final.s, final.x);
    RemoveVars(final.s, final.x);
    DropVars(PopFrame(u), TopFrame(u));
  }

  lemma {:induction false} RemoveVars(s: State, x: Var)
    ensures RemoveLive(s, x).vars == s.vars
  {
  }

  lemma {:induction false} StmtsNamed(types: map<Name, Ty>, s: State, stmts: seq<Ast.Stmt>)
    requires Named(types, s.vars) && Ast.DeclaredStmts(types, stmts)
    ensures Named(types, LowerStmts(s, stmts).vars)
    decreases stmts, 1
  {
    hide Named, LowerStmt;
    if stmts != [] {
      StmtNamed(types, s, stmts[0]);
      StmtsNamed(types, LowerStmt(s, stmts[0]), stmts[1..]);
    }
  }

  lemma {:induction false} StmtNamed(types: map<Name, Ty>, s: State, stmt: Ast.Stmt)
    requires Named(types, s.vars) && Ast.DeclaredStmt(types, stmt)
    ensures Named(types, LowerStmt(s, stmt).vars)
    decreases stmt, 1
  {
    hide Named, LowerExpr, LowerToVar, AddLive, DoAssign, RemoveLive;
    match stmt {
    case Let(x, ty, init) =>
      ExprNamed(types, s, init);
      var r := LowerExpr(s, init);
      AddNamed(types, r.s, Explicit(x), ty);
      AssignVars(AddLive(r.s, Explicit(x), ty), Place(Explicit(x), ty), ty, r.v);
    case ExprStmt(e) =>
      ToVarNamed(types, s, e, Ast.TypeOf(e));
      var t := LowerToVar(s, e, Ast.TypeOf(e));
      RemoveVars(t.s, t.x);
    }
  }

  // -------------------------------------------------------------- functions

  /** The parameters and all variables a function declares have the types that
      types gives them. */
  predicate Declares(types: map<Name, Ty>, f: Function) {
    && (forall i :: 0 <= i < |f.parameters| ==>
          f.parameters[i].0 in types && types[f.parameters[i].0] == f.parameters[i].1)
    && Ast.DeclaredBlock(types, f.body)
  }

  lemma {:induction false} ParametersNamed(types: map<Name, Ty>, s: State, parameters: seq<(Name, Ty)>)
    requires Named(types, s.vars)
    requires forall i :: 0 <= i < |parameters| ==> parameters[i].0 in types && types[parameters[i].0] == parameters[i].1
    ensures Named(types, AddParameters(s, parameters).vars)
    decreases |parameters|
  {
    hide Named, AddLive;
    if parameters != [] {
      AddNamed(types, s, Explicit(parameters[0].0), parameters[0].1);
      ParametersNamed(types, AddLive(s, Explicit(parameters[0].0), parameters[0].1), parameters[1..]);
    }
  }

  lemma {:induction false} FunctionNamed(types: map<Name, Ty>, f: Function)
    requires Declares(types, f)
    ensures Named(types, LowerFunction(f).vars)
  {
    hide LowerBlock, AddParameters, EmitDrops, AssignToVar;
    var start := State([Block(ENTRY, [])], [[]], [], 0, ENTRY + 1, f.returnType, false);
    ParametersNamed(types, start, f.parameters);
    BlockNamed(types, FunctionStart(f), f.body);
    var last := LowerBlock(FunctionStart(f), f.body);
    VariableNamed(types, last.s, last.v, f.returnType);
    var t := AssignToVar(last.s, last.v, f.returnType);
    DropVars(PopFrame(t.s), TopFrame(t.s));
  }
}

/** The lowerer as it is written: an object that appends to blocks, frames and
    variables in place (src/mir/lower.rs).  Every method is proved to do what
    the function of the same name in Lowering says. */
module Lowerer {
  import opened Collections
  import opened Mir
  import opened Lowering
  import L = Lowering
  import Ast

  class Lowerer {
    var blocks: seq<Block>
    var stackSlots: seq<Frame>
    var vars: seq<(Var, Ty)>
    var tmpIdx: nat
    var labels: nat
    const returnType: Ty
    var panicked: bool

    ghost function State(): L.State
      reads this
    {
      L.State(blocks, stackSlots, vars, tmpIdx, labels, returnType, panicked)
    }

    constructor (returnType: Ty)
      ensures State() == L.State([], [], [], 0, 0, returnType, false)
    {
      this.returnType := returnType;
      blocks, stackSlots, vars, tmpIdx, labels, panicked := [], [], [], 0, 0, false;
    }

    // ------------------------------------------------------------ primitives

    method Emit(i: Instruction)
      modifies this
      ensures State() == L.Emit(old(State()), i)
    {
      if blocks == [] {
        panicked := true;
      } else {
        var last := blocks[|blocks| - 1];
        blocks := blocks[|blocks| - 1 := last.(instructions := last.instructions + [i])];
      }
    }

    method NewBlock(l: Label)
      modifies this
      ensures State() == L.StartBlock(old(State()), l)
    {
      blocks := blocks + [Mir.Block(l, [])];
    }

    method NewLabel() returns (l: Label)
      modifies this
      ensures L.NewLabel(State(), l) == L.FreshLabel(old(State()))
    {
      l := labels;
      labels := labels + 1;
    }

    method UndroppedTmp() returns (x: Var)
      modifies this
      ensures LoweredVar(State(), x) == L.UndroppedTmp(old(State()))
    {
      x := Var.Tmp(tmpIdx);
      tmpIdx := tmpIdx + 1;
    }

    method AddLiveVariable(x: Var, ty: Ty)
      modifies this
      ensures State() == L.AddLive(old(State()), x, ty)
    {
      if stackSlots == [] {
        panicked := true;
      } else {
        vars := vars + [(x, ty)];
        var k := |stackSlots| - 1;
        stackSlots := stackSlots[k := stackSlots[k] + [(x, ty)]];
      }
    }

    method Tmp(ty: Ty) returns (x: Var)
      modifies this
      ensures LoweredVar(State(), x) == L.DroppedTmp(old(State()), ty)
    {
      x := UndroppedTmp();
      AddLiveVariable(x, ty);
    }

    method RemoveLiveVariable(x: Var) returns (ty: Ty)
      modifies this
      ensures State() == L.RemoveLive(old(State()), x) && ty == L.LiveType(old(State()), x)
    {
      ty := Unit;
      if stackSlots == [] {
        panicked := true;
        return;
      }
      var k := |stackSlots| - 1;
      var slot := stackSlots[k];
      var i := 0;
      while i < |slot| && slot[i].0 != x
        invariant 0 <= i <= |slot|
        invariant forall j :: 0 <= j < i ==> slot[j].0 != x
      {
        i := i + 1;
      }
      PositionIs(slot, x, i);
      if i < |slot| {
        ty := slot[i].1;
        stackSlots := stackSlots[k := slot[..i] + slot[i + 1..]];
      } else {
        panicked := true;
      }
    }

    method PushSlot()
      modifies this
      ensures State() == PushFrame(old(State()))
    {
      stackSlots := stackSlots + [[]];
    }

    method PopSlot() returns (slot: Frame)
      modifies this
      ensures State() == PopFrame(old(State())) && slot == TopFrame(old(State()))
    {
      slot := [];
      if stackSlots == [] {
        panicked := true;
      } else {
        slot := stackSlots[|stackSlots| - 1];
        stackSlots := stackSlots[..|stackSlots| - 1];
      }
    }

    method DropAll(slot: Frame)
      modifies this
      ensures State() == EmitDrops(old(State()), slot)
    {
      var i := |slot|;
      assert slot[..i] == slot;
      while i > 0
        invariant 0 <= i <= |slot|
        invariant EmitDrops(State(), slot[..i]) == EmitDrops(old(State()), slot)
      {
        i := i - 1;
        assert slot[..i + 1][..i] == slot[..i];
        Emit(Drop(Place(slot[i].0, slot[i].1), slot[i].1));
      }
    }

    method DropAllSlots()
      modifies this
      ensures State() == EmitAllDrops(old(State()), old(stackSlots))
    {
      var frames := stackSlots;
      var i := |frames|;
      assert frames[..i] == frames;
      while i > 0
        invariant 0 <= i <= |frames|
        invariant EmitAllDrops(State(), frames[..i]) == EmitAllDrops(old(State()), frames)
      {
        i := i - 1;
        assert frames[..i + 1][..i] == frames[..i];
        DropAll(frames[i]);
      }
    }

    method PopAndDropSlot()
      modifies this
      ensures State() == PopAndDrop(old(State()))
    {
      var slot := PopSlot();
      DropAll(slot);
    }

    method Store(to: Place, ty: Ty, val: Value)
      modifies this
      ensures State() == L.DoAssign(old(State()), to, ty, val)
    {
      if val.Move? {
        var _ := RemoveLiveVariable(val.source);
      }
      Emit(Assign(to, ty, val));
    }

    method AssignToVar(val: Value, ty: Ty) returns (x: Var)
      modifies this
      ensures LoweredVar(State(), x) == L.AssignToVar(old(State()), val, ty)
    {
      if val.Move? {
        x := val.source;
      } else {
        x := Tmp(ty);
        Store(Place(x, ty), ty, val);
      }
    }

    method DropVar(x: Var)
      modifies this
      ensures State() == L.DropVar(old(State()), x)
    {
      var ty := RemoveLiveVariable(x);
      Emit(Drop(Place(x, ty), ty));
    }

    // ----------------------------------------------------------- expressions

    method ReturnValue(val: Value) returns (v: Value)
      modifies this
      ensures Lowered(State(), v) == L.ReturnValue(old(State()), val)
    {
      var x := AssignToVar(val, returnType);
      var _ := RemoveLiveVariable(x);
      DropAllSlots();
      Emit(Return(x));
      v := UNIT_VALUE;
    }

    method Expr(e: Ast.Expr) returns (v: Value)
      modifies this
      ensures Lowered(State(), v) == LowerExpr(old(State()), e)
      decreases e, 2
    {
      match e {
        case Return(_, _) =>
          v := ReturnExpr(e);
        case Literal(literal) =>
          v := Const(literal, Ast.LiteralType(literal));
        case BlockExpr(b, _) =>
          v := BlockExpr(b);
        case Path(x, ty) =>
          v := Clone(Place(Explicit(x), ty));
        case Not(_) =>
          v := NotExpr(e);
        case Negate(_) =>
          v := NegateExpr(e);
        case Assign(_, _, _) =>
          v := AssignExpr(e);
        case BinOp(_, _, _) =>
          v := BinOp(e);
        case IfElse(_, _, _, _) =>
          v := IfElse(e);
        case While(_, _) =>
          v := While(e);
      }
    }

    method ReturnExpr(e: Ast.Expr) returns (v: Value)
      requires e.Return?
      modifies this
      ensures Lowered(State(), v) == LowerExpr(old(State()), e)
      decreases e, 1
    {
      v := UNIT_VALUE;
      if e.result.Some? {
        v := Expr(e.result.value);
      }
      v := ReturnValue(v);
    }

    method NotExpr(e: Ast.Expr) returns (v: Value)
      requires e.Not?
      modifies this
      ensures Lowered(State(), v) == LowerExpr(old(State()), e)
      decreases e, 1
    {
      var x := ToVar(e.operand, Bool);
      v := Value.Not(x);
    }

    method NegateExpr(e: Ast.Expr) returns (v: Value)
      requires e.Negate?
      modifies this
      ensures Lowered(State(), v) == LowerExpr(old(State()), e)
      decreases e, 1
    {
      var ty := Ast.TypeOf(e.operand);
      var x := ToVar(e.operand, ty);
      v := Value.Negate(x, ty);
    }

    method ToVar(e: Ast.Expr, ty: Ty) returns (x: Var)
      modifies this
      ensures LoweredVar(State(), x) == LowerToVar(old(State()), e, ty)
      decreases e, 3
    {
      var v := Expr(e);
      x := AssignToVar(v, ty);
    }

    method BlockExpr(b: Ast.Block) returns (v: Value)
      modifies this
      ensures var r := LowerBlock(old(State()), b); Lowered(State(), v) == BlockResult(r.s, b.ty, r.v)
      decreases b, 2
    {
      var val := BlockValue(b);
      var res := UndroppedTmp();
      Emit(Assign(Place(res, b.ty), b.ty, val));
      AddLiveVariable(res, b.ty);
      v := Move(res);
    }

    method AssignExpr(e: Ast.Expr) returns (v: Value)
      requires e.Assign?
      modifies this
      ensures Lowered(State(), v) == LowerExpr(old(State()), e)
      decreases e, 0
    {
      var place := Place(Explicit(e.x), e.rootTy);
      var ty := Ast.TypeOf(e.rhs);
      var val := Expr(e.rhs);
      var tmp := Tmp(ty);
      Store(Place(tmp, ty), ty, val);
      Emit(Drop(place, ty));
      Store(place, ty, Move(tmp));
      v := UNIT_VALUE;
    }

    method BinOp(e: Ast.Expr) returns (v: Value)
      requires e.BinOp?
      modifies this
      ensures Lowered(State(), v) == LowerExpr(old(State()), e)
      decreases e, 1
    {
      if e.op.And? {
        v := ShortcircuitBinOp(e, 1);
      } else if e.op.Or? {
        v := ShortcircuitBinOp(e, 0);
      } else {
        var x := ToVar(e.left, Ast.TypeOf(e.left));
        var y := ToVar(e.right, Ast.TypeOf(e.right));
        v := Value.BinOp(x, e.op, Ast.TypeOf(e.left), y);
      }
    }

    method ShortcircuitBinOp(e: Ast.Expr, otherIf: nat) returns (v: Value)
      requires e.BinOp?
      modifies this
      ensures Lowered(State(), v) == LowerShortcircuit(old(State()), e, otherIf)
      decreases e, 0
    {
      var cont := NewLabel();
      var other := NewLabel();
      var tmp := UndroppedTmp();
      PushSlot();
      var val := Expr(e.left);
      Store(Place(tmp, Bool), Bool, val);
      PopAndDropSlot();
      Emit(Switch(tmp, [(otherIf, other)], Some(cont)));
      NewBlock(other);
      PushSlot();
      val := Expr(e.right);
      Store(Place(tmp, Bool), Bool, val);
      PopAndDropSlot();
      AddLiveVariable(tmp, Bool);
      Emit(Jump(cont));
      NewBlock(cont);
      v := Move(tmp);
    }

    method IfElse(e: Ast.Expr) returns (v: Value)
      requires e.IfElse?
      modifies this
      ensures Lowered(State(), v) == LowerIfElse(old(State()), e)
      decreases e, 0
    {
      hide L.Emit, L.StartBlock, L.FreshLabel, L.UndroppedTmp, L.AddLive, LowerToVar, LowerBlock, LowerExpr;
      var examinee := ToVar(e.condition, Bool);
      var cont := NewLabel();
      var thenLabel := NewLabel();
      var elseLabel := NewLabel();
      Emit(Switch(examinee, [(1, thenLabel)], Some(if e.elseBlock.Some? then elseLabel else cont)));
      NewBlock(thenLabel);
      var val := BlockValue(e.thenBlock);
      var res := UndroppedTmp();
      Emit(Assign(Place(res, e.ty), e.ty, val));
      Emit(Jump(cont));
      if e.elseBlock.Some? {
        NewBlock(elseLabel);
        val := BlockValue(e.elseBlock.value);
        Emit(Assign(Place(res, e.ty), e.ty, val));
        Emit(Jump(cont));
      }
      NewBlock(cont);
      AddLiveVariable(res, e.ty);
      v := Move(res);
    }

    method While(e: Ast.Expr) returns (v: Value)
      requires e.While?
      modifies this
      ensures Lowered(State(), v) == LowerWhile(old(State()), e)
      decreases e, 0
    {
      var cont := NewLabel();
      var condition := NewLabel();
      var body := NewLabel();
      Emit(Jump(condition));
      NewBlock(condition);
      var examinee := ToVar(e.condition, Bool);
      Emit(Switch(examinee, [(1, body)], Some(cont)));
      NewBlock(body);
      var val := BlockValue(e.body);
      var _ := AssignToVar(val, Unit);
      Emit(Jump(condition));
      NewBlock(cont);
      v := UNIT_VALUE;
    }

    // ------------------------------------------------- blocks and statements

    method BlockValue(b: Ast.Block) returns (v: Value)
      modifies this
      ensures Lowered(State(), v) == LowerBlock(old(State()), b)
      decreases b, 1
    {
      PushSlot();
      var i := 0;
      assert b.stmts[0..] == b.stmts;
      while i < |b.stmts|
        invariant 0 <= i <= |b.stmts|
        invariant LowerStmts(State(), b.stmts[i..]) == LowerStmts(PushFrame(old(State())), b.stmts)
      {
        assert b.stmts[i..][1..] == b.stmts[i + 1..];
        Stmt(b.stmts[i]);
        i := i + 1;
      }
      var op := UNIT_VALUE;
      if b.last.Some? {
        op := Expr(b.last.value);
      }
      var final := AssignToVar(op, b.ty);
      var _ := RemoveLiveVariable(final);
      var slot := PopSlot();
      if !b.diverges {
        DropAll(slot);
      }
      v := Move(final);
    }

    method Stmt(stmt: Ast.Stmt)
      modifies this
      ensures State() == LowerStmt(old(State()), stmt)
      decreases stmt, 1
    {
      match stmt {
        case Let(x, ty, init) =>
          var val := Expr(init);
          AddLiveVariable(Explicit(x), ty);
          Store(Place(Explicit(x), ty), ty, val);
        case ExprStmt(e) =>
          var x := ToVar(e, Ast.TypeOf(e));
          DropVar(x);
      }
    }

    // ------------------------------------------------------------- functions

    method FunctionLike(f: Function)
      requires State() == L.State([], [], [], 0, 0, f.returnType, false)
      modifies this
      ensures State() == LowerFunction(f)
    {
      var entry := NewLabel();
      NewBlock(entry);
      PushSlot();
      var i := 0;
      assert f.parameters[0..] == f.parameters;
      assert State() == L.State([Mir.Block(ENTRY, [])], [[]], [], 0, ENTRY + 1, f.returnType, false);
      while i < |f.parameters|
        invariant 0 <= i <= |f.parameters|
        invariant AddParameters(State(), f.parameters[i..]) == FunctionStart(f)
      {
        assert f.parameters[i..][1..] == f.parameters[i + 1..];
        AddLiveVariable(Explicit(f.parameters[i].0), f.parameters[i].1);
        i := i + 1;
      }
      var last := BlockValue(f.body);
      var tmp := AssignToVar(last, f.returnType);
      PopAndDropSlot();
      Emit(Return(tmp));
    }
  }

  lemma {:induction false} PositionIs(frame: Frame, x: Var, i: nat)
    requires i <= |frame| && (forall j :: 0 <= j < i ==> frame[j].0 != x) && (i < |frame| ==> frame[i].0 == x)
    ensures PositionOf(frame, x) == i
  {
    var j := PositionOf(frame, x);
  }
}

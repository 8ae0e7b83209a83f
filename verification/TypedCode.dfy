/** The types in lowered code, instruction by instruction: every variable that
    is used is one of the function, and where the recorded types of the source
    meet, every instruction works at the type of the variables it names. */
module TypedCode {
  import opened Collections
  import opened Mir
  import opened Lowering
  import opened LoweringStages
  import Ast
  import Divergence
  import LoweredFunctions
  import LoweringTypes

  /** Variables that will be in the list of variables later on: they are stored
      before they are made live. */
  type Pending = set<(Var, Ty)>

  predicate Listed(more: Pending, vars: seq<(Var, Ty)>, x: Var, ty: Ty) {
    (x, ty) in vars || (x, ty) in more
  }

  /** The variable is one of the function; if exact, one of this type. */
  ghost predicate Known(exact: bool, more: Pending, vars: seq<(Var, Ty)>, x: Var, ty: Ty) {
    if exact then Listed(more, vars, x, ty) else exists u :: Listed(more, vars, x, u)
  }

  function ResultType(op: Ast.Ops.BinOp, ty: Ty): Ty {
    if Ast.IsArithmetic(op) then ty else Bool
  }

  /** The value has the type at which it is assigned.  What a return or a jump
      back yields is the unit value, whatever is expected. */
  ghost predicate ValueTyped(exact: bool, more: Pending, vars: seq<(Var, Ty)>, v: Value, ty: Ty) {
    match v
    case Const(literal, t) => v == Const(UnitVal, Unit) || (t == Ast.LiteralType(literal) && (exact ==> t == ty))
    case Clone(p) => (p.root, p.ty) in vars && (exact ==> p.ty == ty)
    case Not(x) => Known(exact, more, vars, x, Bool) && (exact ==> ty == Bool)
    case Negate(x, t) => Known(exact, more, vars, x, t) && (exact ==> t == ty)
    case Move(x) => Known(exact, more, vars, x, ty)
    case BinOp(l, op, t, r) =>
      && Known(exact, more, vars, l, t) && Known(exact, more, vars, r, t)
      && (exact ==> ty == ResultType(op, t))
  }

  ghost predicate InstructionTyped(exact: bool, more: Pending, vars: seq<(Var, Ty)>, ret: Ty, i: Instruction) {
    match i
    case Jump(_) => true
    case Switch(x, _, _) => Known(exact, more, vars, x, Bool)
    case Assign(to, ty, v) =>
      && Listed(more, vars, to.root, to.ty) && (exact ==> to.ty == ty)
      && ValueTyped(exact, more, vars, v, ty)
    case Return(x) => Known(exact, more, vars, x, ret)
    case Drop(p, ty) => (p.root, p.ty) in vars && (exact ==> p.ty == ty)
  }

  ghost predicate TypedAt(exact: bool, more: Pending, s: State, k: nat, i: nat)
    requires k < |s.blocks| && i < |s.blocks[k].instructions|
  {
    InstructionTyped(exact, more, s.vars, s.returnType, s.blocks[k].instructions[i])
  }

  ghost predicate CodeTyped(exact: bool, more: Pending, s: State) {
    forall k, i :: 0 <= k < |s.blocks| && 0 <= i < |s.blocks[k].instructions| ==> TypedAt(exact, more, s, k, i)
  }

  /** Live variables are variables of the function. */
  predicate FramesListed(s: State) {
    forall k, i :: 0 <= k < |s.frames| && 0 <= i < |s.frames[k]| ==> s.frames[k][i] in s.vars
  }

  ghost predicate Ready(exact: bool, more: Pending, s: State) {
    s.blocks != [] && s.frames != [] && FramesListed(s) && CodeTyped(exact, more, s)
  }

  predicate Extends(s: State, t: State) {
    && (forall e :: e in s.vars ==> e in t.vars)
    && |t.frames| == |s.frames| && t.returnType == s.returnType
  }

  predicate ScopeListed(s: State, scope: Ast.Scope) {
    forall x :: x in scope ==> (Explicit(x), scope[x]) in s.vars
  }

  /** The value can be assigned at this type; what is moved is live. */
  ghost predicate Assignable(exact: bool, more: Pending, s: State, v: Value, ty: Ty) {
    && ValueTyped(exact, more, s.vars, v, ty)
    && (v.Move? ==> Live(exact, s, v.source, ty))
  }

  ghost predicate Live(exact: bool, s: State, x: Var, ty: Ty) {
    s.frames != [] && (if exact then (x, ty) in TopFrame(s) else exists u :: Entry(TopFrame(s), x, u))
  }

  predicate Entry(frame: Frame, x: Var, ty: Ty) {
    (x, ty) in frame
  }

  // ------------------------------------------------------------------ source

  /** Named variables are in scope with their types; if exact, the recorded
      types agree wherever a value is put somewhere. */
  predicate Checked(exact: bool, ret: Ty, e: Ast.Expr, scope: Ast.Scope)
    decreases e
  {
    match e
    case Return(None, _) => true
    case Return(Some(v), _) => Checked(exact, ret, v, scope) && (exact ==> Ast.TypeOf(v) == ret)
    case Literal(_) => true
    case BlockExpr(b, ty) => CheckedBlock(exact, ret, b, scope) && (exact ==> b.ty == ty)
    case Path(x, ty) => x in scope && scope[x] == ty
    case Not(operand) => Checked(exact, ret, operand, scope) && (exact ==> Ast.TypeOf(operand) == Bool)
    case Negate(operand) => Checked(exact, ret, operand, scope)
    case Assign(x, rootTy, rhs) =>
      && x in scope && scope[x] == rootTy
      && Checked(exact, ret, rhs, scope) && (exact ==> Ast.TypeOf(rhs) == rootTy)
    case BinOp(l, op, r) =>
      && Checked(exact, ret, l, scope) && Checked(exact, ret, r, scope)
      && (exact ==> Ast.TypeOf(l) == Ast.TypeOf(r) && (op.And? || op.Or? ==> Ast.TypeOf(l) == Bool))
    case IfElse(condition, thenBlock, elseBlock, ty) =>
      && Checked(exact, ret, condition, scope) && (exact ==> Ast.TypeOf(condition) == Bool)
      && CheckedBlock(exact, ret, thenBlock, scope) && (exact ==> thenBlock.ty == ty)
      && (elseBlock.Some? ==>
            CheckedBlock(exact, ret, elseBlock.value, scope) && (exact ==> elseBlock.value.ty == ty))
    case While(condition, body) =>
      && Checked(exact, ret, condition, scope) && (exact ==> Ast.TypeOf(condition) == Bool)
      && CheckedBlock(exact, ret, body, scope) && (exact ==> body.ty == Unit)
  }

  predicate CheckedBlock(exact: bool, ret: Ty, b: Ast.Block, scope: Ast.Scope)
    decreases b
  {
    && CheckedStmts(exact, ret, b.stmts, scope)
    && (b.last.Some? ==>
          && Checked(exact, ret, b.last.value, Ast.ScopeAfter(b.stmts, scope))
          && (exact ==> Ast.TypeOf(b.last.value) == b.ty))
  }

  predicate CheckedStmts(exact: bool, ret: Ty, stmts: seq<Ast.Stmt>, scope: Ast.Scope)
    decreases stmts
  {
    stmts != [] ==>
      && CheckedStmt(exact, ret, stmts[0], scope)
      && CheckedStmts(exact, ret, stmts[1..], Ast.ScopeAfterStmt(stmts[0], scope))
  }

  predicate CheckedStmt(exact: bool, ret: Ty, s: Ast.Stmt, scope: Ast.Scope)
    decreases s
  {
    match s
    case Let(x, ty, init) => Checked(exact, ret, init, scope) && (exact ==> Ast.TypeOf(init) == ty)
    case ExprStmt(e) => Checked(exact, ret, e, scope)
  }

  // ------------------------------------------------------------- more is kept

  lemma {:induction false} KnownStays(exact: bool, more: Pending, vars: seq<(Var, Ty)>,
      after: Pending, longer: seq<(Var, Ty)>, x: Var, ty: Ty)
    requires Known(exact, more, vars, x, ty)
    requires forall e :: e in vars || e in more ==> e in longer || e in after
    ensures Known(exact, after, longer, x, ty)
  {
    if !exact {
      var u :| Listed(more, vars, x, u);
      assert Listed(after, longer, x, u);
    }
  }

  lemma {:induction false} ValueStays(exact: bool, more: Pending, vars: seq<(Var, Ty)>,
      after: Pending, longer: seq<(Var, Ty)>, v: Value, ty: Ty)
    requires ValueTyped(exact, more, vars, v, ty)
    requires forall e :: e in vars || e in more ==> e in longer || e in after
    requires forall e :: e in vars ==> e in longer
    ensures ValueTyped(exact, after, longer, v, ty)
  {
    hide Known;
    match v {
    case Const(_, _) =>
    case Clone(_) =>
    case Not(x) => KnownStays(exact, more, vars, after, longer, x, Bool);
    case Negate(x, t) => KnownStays(exact, more, vars, after, longer, x, t);
    case Move(x) => KnownStays(exact, more, vars, after, longer, x, ty);
    case BinOp(l, _, t, r) =>
      KnownStays(exact, more, vars, after, longer, l, t);
      KnownStays(exact, more, vars, after, longer, r, t);
    }
  }

  lemma {:induction false} InstructionStays(exact: bool, more: Pending, vars: seq<(Var, Ty)>,
      after: Pending, longer: seq<(Var, Ty)>, ret: Ty, i: Instruction)
    requires InstructionTyped(exact, more, vars, ret, i)
    requires forall e :: e in vars || e in more ==> e in longer || e in after
    requires forall e :: e in vars ==> e in longer
    ensures InstructionTyped(exact, after, longer, ret, i)
  {
    hide Known, ValueTyped;
    match i {
    case Jump(_) =>
    case Switch(x, _, _) => KnownStays(exact, more, vars, after, longer, x, Bool);
    case Assign(to, ty, v) => ValueStays(exact, more, vars, after, longer, v, ty);
    case Return(x) => KnownStays(exact, more, vars, after, longer, x, ret);
    case Drop(_, _) =>
    }
  }

  /** Code stays typed when variables are added. */
  lemma {:induction false} CodeStays(exact: bool, more: Pending, s: State, after: Pending, t: State)
    requires CodeTyped(exact, more, s) && t.blocks == s.blocks && t.returnType == s.returnType
    requires forall e :: e in s.vars || e in more ==> e in t.vars || e in after
    requires forall e :: e in s.vars ==> e in t.vars
    ensures CodeTyped(exact, after, t)
  {
    hide InstructionTyped;
    forall k, i | 0 <= k < |t.blocks| && 0 <= i < |t.blocks[k].instructions|
      ensures TypedAt(exact, after, t, k, i)
    {
      assert TypedAt(exact, more, s, k, i);
      InstructionStays(exact, more, s.vars, after, t.vars, s.returnType, s.blocks[k].instructions[i]);
    }
  }

  lemma {:induction false} ExtendsJoin(s: State, t: State, u: State)
    requires Extends(s, t) && Extends(t, u)
    ensures Extends(s, u)
  {
  }

  lemma {:induction false} ScopeStays(s: State, t: State, scope: Ast.Scope)
    requires ScopeListed(s, scope) && Extends(s, t)
    ensures ScopeListed(t, scope)
  {
  }

  lemma {:induction false} StillTyped(exact: bool, more: Pending, s: State, t: State, v: Value, ty: Ty)
    requires ValueTyped(exact, more, s.vars, v, ty) && Extends(s, t)
    ensures ValueTyped(exact, more, t.vars, v, ty)
  {
    hide ValueTyped;
    ValueStays(exact, more, s.vars, more, t.vars, v, ty);
  }

  lemma {:induction false} StillKnown(exact: bool, more: Pending, s: State, t: State, x: Var, ty: Ty)
    requires Known(exact, more, s.vars, x, ty) && Extends(s, t)
    ensures Known(exact, more, t.vars, x, ty)
  {
    hide Known;
    KnownStays(exact, more, s.vars, more, t.vars, x, ty);
  }

  // -------------------------------------------------------------- primitives

  /** Nothing but the label of new code, counters and the like changes. */
  lemma {:induction false} SameTyped(exact: bool, more: Pending, s: State, t: State)
    requires Ready(exact, more, s)
    requires t.blocks == s.blocks && t.frames == s.frames && t.vars == s.vars && t.returnType == s.returnType
    ensures Ready(exact, more, t) && Extends(s, t)
  {
    hide InstructionTyped;
    CodeStays(exact, more, s, more, t);
  }

  lemma {:induction false} EmitTyped(exact: bool, more: Pending, s: State, i: Instruction)
    requires Ready(exact, more, s) && InstructionTyped(exact, more, s.vars, s.returnType, i)
    ensures Ready(exact, more, Emit(s, i)) && Extends(s, Emit(s, i)) && TopFrame(Emit(s, i)) == TopFrame(s)
  {
    hide InstructionTyped;
    var t, last := Emit(s, i), |s.blocks| - 1;
    forall k, j | 0 <= k < |t.blocks| && 0 <= j < |t.blocks[k].instructions|
      ensures TypedAt(exact, more, t, k, j)
    {
      if k < last || j < |s.blocks[last].instructions| {
        assert TypedAt(exact, more, s, k, j);
      }
    }
  }

  lemma {:induction false} StartTyped(exact: bool, more: Pending, s: State, l: Label)
    requires Ready(exact, more, s)
    ensures Ready(exact, more, StartBlock(s, l)) && Extends(s, StartBlock(s, l))
    ensures TopFrame(StartBlock(s, l)) == TopFrame(s)
  {
    hide InstructionTyped;
    var t := StartBlock(s, l);
    forall k, j | 0 <= k < |t.blocks| && 0 <= j < |t.blocks[k].instructions|
      ensures TypedAt(exact, more, t, k, j)
    {
      assert k < |s.blocks| && TypedAt(exact, more, s, k, j);
    }
  }

  /** Making a variable live puts it into the list. */
  lemma {:induction false} AddTyped(exact: bool, more: Pending, after: Pending, s: State, x: Var, ty: Ty)
    requires Ready(exact, more, s) && more <= after + {(x, ty)}
    ensures Ready(exact, after, AddLive(s, x, ty)) && Extends(s, AddLive(s, x, ty))
    ensures Listed(after, AddLive(s, x, ty).vars, x, ty) && (x, ty) in AddLive(s, x, ty).vars
    ensures Entry(TopFrame(AddLive(s, x, ty)), x, ty)
  {
    hide InstructionTyped;
    var t := AddLive(s, x, ty);
    assert t.vars[|s.vars|] == (x, ty) && forall i :: 0 <= i < |s.vars| ==> t.vars[i] == s.vars[i];
    CodeStays(exact, more, s, after, t);
    var n := |TopFrame(s)|;
    assert TopFrame(t)[n] == (x, ty);
    forall k, i | 0 <= k < |t.frames| && 0 <= i < |t.frames[k]|
      ensures t.frames[k][i] in t.vars
    {
      if k < |s.frames| - 1 || i < n { assert s.frames[k][i] in s.vars; }
    }
  }

  /** The variable is live in the top frame. */
  predicate InTop(s: State, x: Var) {
    s.frames != [] && PositionOf(TopFrame(s), x) < |TopFrame(s)|
  }

  lemma {:induction false} RemoveTyped(exact: bool, more: Pending, s: State, x: Var)
    requires Ready(exact, more, s)
    ensures Ready(exact, more, RemoveLive(s, x)) && Extends(s, RemoveLive(s, x))
    ensures InTop(s, x) ==> (x, LiveType(s, x)) in s.vars
  {
    hide InstructionTyped;
    var t := RemoveLive(s, x);
    CodeStays(exact, more, s, more, t);
    forall k, i | 0 <= k < |t.frames| && 0 <= i < |t.frames[k]|
      ensures t.frames[k][i] in t.vars
    {
      assert t.frames[k][i] in s.frames[k];
    }
  }

  lemma {:induction false} EntryHasPosition(frame: Frame, x: Var, ty: Ty)
    requires Entry(frame, x, ty)
    ensures exists i :: 0 <= i < |frame| && frame[i] == (x, ty)
  {
    assert (x, ty) in frame;
  }

  lemma {:induction false} LiveIsTop(exact: bool, s: State, x: Var, ty: Ty)
    requires Live(exact, s, x, ty)
    ensures InTop(s, x)
  {
    var frame := TopFrame(s);
    assert exact ==> Entry(frame, x, ty);
    ghost var u :| Entry(frame, x, u);
    EntryHasPosition(frame, x, u);
    var i :| 0 <= i < |frame| && frame[i] == (x, u);
    assert frame[i].0 == x;
  }

  lemma {:induction false} PushTyped(exact: bool, more: Pending, s: State)
    requires Ready(exact, more, s)
    ensures Ready(exact, more, PushFrame(s)) && PushFrame(s).vars == s.vars
  {
    hide InstructionTyped;
    CodeStays(exact, more, s, more, PushFrame(s));
  }

  lemma {:induction false} PopTyped(exact: bool, more: Pending, s: State)
    requires Ready(exact, more, s) && |s.frames| > 1
    ensures Ready(exact, more, PopFrame(s)) && PopFrame(s).vars == s.vars
    ensures forall e :: e in TopFrame(s) ==> e in s.vars
  {
    hide InstructionTyped;
    CodeStays(exact, more, s, more, PopFrame(s));
    var k := |s.frames| - 1;
    forall i | 0 <= i < |TopFrame(s)|
      ensures TopFrame(s)[i] in s.vars
    {
      assert s.frames[k][i] in s.vars;
    }
  }

  lemma {:induction false} DropsTyped(exact: bool, more: Pending, s: State, frame: Frame)
    requires Ready(exact, more, s) && forall e :: e in frame ==> e in s.vars
    ensures Ready(exact, more, EmitDrops(s, frame)) && Extends(s, EmitDrops(s, frame))
    ensures EmitDrops(s, frame).frames == s.frames
    decreases |frame|
  {
    hide Ready, Emit;
    if frame == [] {
    } else {
      var last := frame[|frame| - 1];
      var t := Emit(s, Drop(Place(last.0, last.1), last.1));
      assert last in frame;
      EmitTyped(exact, more, s, Drop(Place(last.0, last.1), last.1));
      assert t.frames == s.frames && t.vars == s.vars by { EmitKeeps(s, Drop(Place(last.0, last.1), last.1)); }
      DropsTyped(exact, more, t, frame[..|frame| - 1]);
      ExtendsJoin(s, t, EmitDrops(s, frame));
    }
  }

  lemma {:induction false} EmitKeeps(s: State, i: Instruction)
    ensures Emit(s, i).frames == s.frames && Emit(s, i).vars == s.vars
  {
  }

  lemma {:induction false} AllDropsTyped(exact: bool, more: Pending, s: State, frames: seq<Frame>)
    requires Ready(exact, more, s) && frames <= s.frames
    ensures Ready(exact, more, EmitAllDrops(s, frames)) && Extends(s, EmitAllDrops(s, frames))
    ensures EmitAllDrops(s, frames).frames == s.frames
    decreases |frames|
  {
    hide InstructionTyped;
    if frames == [] {
    } else {
      var k := |frames| - 1;
      assert forall i :: 0 <= i < |frames[k]| ==> s.frames[k][i] in s.vars;
      DropsTyped(exact, more, s, frames[k]);
      AllDropsTyped(exact, more, EmitDrops(s, frames[k]), frames[..k]);
    }
  }

  lemma {:induction false} AssignTyped(exact: bool, more: Pending, s: State, to: Place, ty: Ty, v: Value)
    requires Ready(exact, more, s) && ValueTyped(exact, more, s.vars, v, ty)
    requires Listed(more, s.vars, to.root, to.ty) && (exact ==> to.ty == ty)
    ensures Ready(exact, more, DoAssign(s, to, ty, v)) && Extends(s, DoAssign(s, to, ty, v))
    ensures !v.Move? ==> TopFrame(DoAssign(s, to, ty, v)) == TopFrame(s)
  {
    hide Ready, ValueTyped, Emit;
    var t := if v.Move? then RemoveLive(s, v.source) else s;
    if v.Move? { RemoveTyped(exact, more, s, v.source); }
    StillTyped(exact, more, s, t, v, ty);
    EmitTyped(exact, more, t, Assign(to, ty, v));
    ExtendsJoin(s, t, DoAssign(s, to, ty, v));
  }

  lemma {:induction false} NotMovedLive(exact: bool, s: State, x: Var, ty: Ty)
    requires s.frames != [] && Entry(TopFrame(s), x, ty)
    ensures Live(exact, s, x, ty)
  {
  }

  lemma {:induction false} ToVarTyped(exact: bool, more: Pending, s: State, v: Value, ty: Ty)
    requires Ready(exact, more, s) && Assignable(exact, more, s, v, ty)
    ensures var r := AssignToVar(s, v, ty);
      Ready(exact, more, r.s) && Extends(s, r.s) && Known(exact, more, r.s.vars, r.x, ty) && Live(exact, r.s, r.x, ty)
  {
    hide Ready, ValueTyped, Known, Live, AddLive, DoAssign, Entry;
    var r := AssignToVar(s, v, ty);
    if v.Move? {
      MoveIsKnown(exact, more, s.vars, v, ty);
    } else {
      var u, t := UndroppedTmp(s), DroppedTmp(s, ty).s;
      SameTyped(exact, more, s, u.s) by { hide CodeTyped; ReadyFrames(exact, more, s); }
      AddTyped(exact, more, more, u.s, u.x, ty);
      ExtendsJoin(s, u.s, t);
      StillTyped(exact, more, s, t, v, ty);
      AssignTyped(exact, more, t, Place(u.x, ty), ty, v);
      ExtendsJoin(s, t, r.s);
      NowKnown(exact, more, r.s.vars, u.x, ty);
      ReadyFrames(exact, more, r.s);
      NotMovedLive(exact, r.s, u.x, ty);
    }
  }

  lemma {:induction false} ReadyFrames(exact: bool, more: Pending, s: State)
    requires Ready(exact, more, s)
    ensures s.frames != [] && s.blocks != []
  {
  }

  lemma {:induction false} MoveIsKnown(exact: bool, more: Pending, vars: seq<(Var, Ty)>, v: Value, ty: Ty)
    requires v.Move?
    ensures ValueTyped(exact, more, vars, v, ty) <==> Known(exact, more, vars, v.source, ty)
  {
  }

  lemma {:induction false} NowKnown(exact: bool, more: Pending, vars: seq<(Var, Ty)>, x: Var, ty: Ty)
    requires Listed(more, vars, x, ty)
    ensures Known(exact, more, vars, x, ty) && ValueTyped(exact, more, vars, Move(x), ty)
  {
  }

  lemma {:induction false} UnitIsTyped(exact: bool, more: Pending, s: State, ty: Ty)
    ensures Assignable(exact, more, s, UNIT_VALUE, ty)
  {
  }

  lemma {:induction false} DropVarTyped(exact: bool, more: Pending, s: State, x: Var)
    requires Ready(exact, more, s) && InTop(s, x)
    ensures Ready(exact, more, DropVar(s, x)) && Extends(s, DropVar(s, x))
  {
    hide Ready, Emit, LiveType, RemoveLive, InTop;
    var ty, t := LiveType(s, x), RemoveLive(s, x);
    RemoveTyped(exact, more, s, x);
    EmitTyped(exact, more, t, Drop(Place(x, ty), ty));
    ExtendsJoin(s, t, DropVar(s, x));
  }

  /** The end of a frame: without or with its drops. */
  lemma {:induction false} LeavingTyped(exact: bool, more: Pending, s: State)
    requires Ready(exact, more, s) && |s.frames| > 1
    ensures Ready(exact, more, PopFrame(s)) && Ready(exact, more, PopAndDrop(s))
    ensures (forall e :: e in s.vars ==> e in PopFrame(s).vars && e in PopAndDrop(s).vars)
    ensures |PopFrame(s).frames| == |PopAndDrop(s).frames| == |s.frames| - 1
    ensures PopFrame(s).returnType == PopAndDrop(s).returnType == s.returnType
  {
    hide Ready;
    PopTyped(exact, more, s);
    DropsTyped(exact, more, PopFrame(s), TopFrame(s));
  }

  lemma {:induction false} ReturnTyped(exact: bool, more: Pending, s: State, v: Value, ty: Ty)
    requires Ready(exact, more, s) && Assignable(exact, more, s, v, s.returnType)
    ensures Arrives(exact, more, s, ReturnValue(s, v), ty)
  {
    hide Ready, ValueTyped, Known, Live, AssignToVar, RemoveLive, EmitAllDrops, Emit, Assignable;
    var r := AssignToVar(s, v, s.returnType);
    var t := RemoveLive(r.s, r.x);
    var u := EmitAllDrops(t, t.frames);
    ToVarTyped(exact, more, s, v, s.returnType);
    RemoveTyped(exact, more, r.s, r.x);
    AllDropsTyped(exact, more, t, t.frames);
    StillKnown(exact, more, r.s, t, r.x, s.returnType);
    StillKnown(exact, more, t, u, r.x, s.returnType);
    EmitTyped(exact, more, u, Return(r.x));
    ExtendsJoin(s, r.s, t);
    ExtendsJoin(s, t, u);
    ExtendsJoin(s, u, ReturnValue(s, v).s);
    UnitIsTyped(exact, more, ReturnValue(s, v).s, ty);
  }

  /** Lowering has gone from s to r: the code is typed, and so is the value. */
  ghost predicate Arrives(exact: bool, more: Pending, s: State, r: Lowered, ty: Ty) {
    Ready(exact, more, r.s) && Extends(s, r.s) && Assignable(exact, more, r.s, r.v, ty)
  }

  lemma {:induction false} ResultTyped(exact: bool, more: Pending, s: State, ty: Ty, v: Value)
    requires Ready(exact, more, s) && ValueTyped(exact, more, s.vars, v, ty)
    ensures Arrives(exact, more, s, BlockResult(s, ty, v), ty)
  {
    hide Ready, ValueTyped, Known, Emit, AddLive, Live, Entry;
    var u := UndroppedTmp(s);
    var place := Place(u.x, ty);
    var later := more + {(u.x, ty)};
    var a := Emit(u.s, Assign(place, ty, v));
    var t := AddLive(a, u.x, ty);
    SameTyped(exact, more, s, u.s) by { ReadyFrames(exact, more, s); }
    MoreReady(exact, more, later, u.s);
    ValueStays(exact, more, s.vars, later, u.s.vars, v, ty);
    EmitTyped(exact, later, u.s, Assign(place, ty, v));
    AddTyped(exact, later, more, a, u.x, ty);
    ExtendsJoin(s, u.s, a);
    ExtendsJoin(s, a, t);
    NowKnown(exact, more, t.vars, u.x, ty);
    ReadyFrames(exact, more, t);
    NotMovedLive(exact, t, u.x, ty);
  }

  lemma {:induction false} MoreReady(exact: bool, more: Pending, after: Pending, s: State)
    requires Ready(exact, more, s) && more <= after
    ensures Ready(exact, after, s)
  {
    hide InstructionTyped;
    CodeStays(exact, more, s, after, s);
  }

  lemma {:induction false} VariableTyped(exact: bool, more: Pending, s: State, place: Place, ty: Ty, v: Value)
    requires Ready(exact, more, s) && ValueTyped(exact, more, s.vars, v, ty)
    requires (place.root, place.ty) in s.vars && (exact ==> place.ty == ty)
    ensures Arrives(exact, more, s, AssignVariable(s, place, ty, v), Unit)
  {
    hide Ready, ValueTyped, Known, Emit, AddLive, DoAssign, Live, Entry;
    var u, t := UndroppedTmp(s), DroppedTmp(s, ty).s;
    var a := DoAssign(t, Place(u.x, ty), ty, v);
    var d := Emit(a, Drop(place, ty));
    var r := AssignVariable(s, place, ty, v);
    SameTyped(exact, more, s, u.s) by { ReadyFrames(exact, more, s); }
    AddTyped(exact, more, more, u.s, u.x, ty);
    ExtendsJoin(s, u.s, t);
    StillTyped(exact, more, s, t, v, ty);
    AssignTyped(exact, more, t, Place(u.x, ty), ty, v);
    ExtendsJoin(s, t, a);
    EmitTyped(exact, more, a, Drop(place, ty));
    ExtendsJoin(s, a, d);
    ExtendsJoin(t, a, d);
    NowKnown(exact, more, t.vars, u.x, ty);
    StillTyped(exact, more, t, d, Move(u.x), ty);
    AssignTyped(exact, more, d, place, ty, Move(u.x));
    ExtendsJoin(s, d, r.s);
    UnitIsTyped(exact, more, r.s, Unit);
  }

  // ------------------------------------------------------------ expressions

  ghost predicate BlockArrives(exact: bool, more: Pending, s: State, r: Lowered, ty: Ty) {
    Ready(exact, more, r.s) && Extends(s, r.s) && ValueTyped(exact, more, r.s.vars, r.v, ty)
  }

  ghost predicate VarArrives(exact: bool, more: Pending, s: State, r: LoweredVar, ty: Ty) {
    && Ready(exact, more, r.s) && Extends(s, r.s)
    && Known(exact, more, r.s.vars, r.x, ty) && Live(exact, r.s, r.x, ty)
  }

  ghost predicate Steps(exact: bool, more: Pending, s: State, t: State) {
    Ready(exact, more, t) && Extends(s, t)
  }

  /** Without exactness types may change. */
  lemma {:induction false} Retyped(exact: bool, more: Pending, vars: seq<(Var, Ty)>, v: Value, from: Ty, ty: Ty)
    requires ValueTyped(exact, more, vars, v, from) && (exact ==> from == ty)
    ensures ValueTyped(exact, more, vars, v, ty)
  {
  }

  lemma {:induction false} AssignableAt(exact: bool, more: Pending, s: State, v: Value, from: Ty, ty: Ty)
    requires Assignable(exact, more, s, v, from) && (exact ==> from == ty)
    ensures Assignable(exact, more, s, v, ty)
  {
    Retyped(exact, more, s.vars, v, from, ty);
  }

  lemma {:induction false} ArrivesAt(exact: bool, more: Pending, s: State, r: Lowered, from: Ty, ty: Ty)
    requires Arrives(exact, more, s, r, from) && (exact ==> from == ty)
    ensures Ready(exact, more, r.s) && Extends(s, r.s) && Assignable(exact, more, r.s, r.v, ty)
    ensures ValueTyped(exact, more, r.s.vars, r.v, ty)
  {
    hide Ready, ValueTyped, Live;
    AssignableAt(exact, more, r.s, r.v, from, ty);
  }

  lemma {:induction false} ArrivesVia(exact: bool, more: Pending, s: State, t: State, r: Lowered, ty: Ty)
    requires Extends(s, t) && Arrives(exact, more, t, r, ty)
    ensures Arrives(exact, more, s, r, ty)
  {
    hide Ready, Assignable;
    ExtendsJoin(s, t, r.s);
  }

  lemma {:induction false} StepsJoin(exact: bool, more: Pending, s: State, t: State, u: State)
    requires Extends(s, t) && Steps(exact, more, t, u)
    ensures Steps(exact, more, s, u)
  {
    hide Ready;
    ExtendsJoin(s, t, u);
  }

  /** A value that is no move can be assigned wherever it is typed. */
  lemma {:induction false} PlainArrives(exact: bool, more: Pending, s: State, r: Lowered, ty: Ty)
    requires Ready(exact, more, r.s) && Extends(s, r.s) && ValueTyped(exact, more, r.s.vars, r.v, ty) && !r.v.Move?
    ensures Arrives(exact, more, s, r, ty)
  {
  }

  lemma {:induction false} SameStep(exact: bool, more: Pending, s: State, t: State)
    requires Ready(exact, more, s)
    requires t.blocks == s.blocks && t.frames == s.frames && t.vars == s.vars && t.returnType == s.returnType
    ensures Steps(exact, more, s, t)
  {
    hide CodeTyped, FramesListed;
    SameTyped(exact, more, s, t);
  }

  /** A jump or switch, and the start of the next block. */
  lemma {:induction false} NextBlockTyped(exact: bool, more: Pending, s: State, i: Instruction, l: Label)
    requires Ready(exact, more, s) && InstructionTyped(exact, more, s.vars, s.returnType, i)
    ensures Steps(exact, more, s, StartBlock(Emit(s, i), l))
  {
    hide Ready, Emit, StartBlock, InstructionTyped;
    EmitTyped(exact, more, s, i);
    StartTyped(exact, more, Emit(s, i), l);
    ExtendsJoin(s, Emit(s, i), StartBlock(Emit(s, i), l));
  }

  lemma {:induction false} ExprTyped(exact: bool, more: Pending, s: State, e: Ast.Expr, scope: Ast.Scope)
    requires Ready(exact, more, s) && ScopeListed(s, scope) && Checked(exact, s.returnType, e, scope)
    ensures Arrives(exact, more, s, LowerExpr(s, e), Ast.TypeOf(e))
    decreases e, 2
  {
    hide Ready, Known, Live, Extends, ReturnValue, BlockResult, AssignVariable, LowerShortcircuit, LowerIfElse;
    hide LowerWhile, LowerToVar, LowerBlock, Arrives, BlockArrives, VarArrives, Assignable, ScopeListed;
    var ret, ty := s.returnType, Ast.TypeOf(e);
    match e {
    case Return(None, _) =>
      UnitIsTyped(exact, more, s, ret);
      ReturnTyped(exact, more, s, UNIT_VALUE, ty);
    case Return(Some(v), _) =>
      var r := LowerExpr(s, v);
      ExprTyped(exact, more, s, v, scope);
      ArrivesAt(exact, more, s, r, Ast.TypeOf(v), ret);
      SameReturn(s, r.s);
      ReturnTyped(exact, more, r.s, r.v, ty);
      ArrivesVia(exact, more, s, r.s, LowerExpr(s, e), ty);
    case Literal(_) =>
      Itself(s);
      PlainArrives(exact, more, s, LowerExpr(s, e), ty);
    case BlockExpr(b, _) =>
      var r := LowerBlock(s, b);
      BlockTyped(exact, more, s, b, scope);
      BlockParts(exact, more, s, r, b.ty);
      ResultTyped(exact, more, r.s, b.ty, r.v);
      ArrivesVia(exact, more, s, r.s, LowerExpr(s, e), b.ty);
      AtType(exact, more, s, LowerExpr(s, e), b.ty, ty);
    case Path(x, t) =>
      Itself(s);
      InScope(s, scope, x);
      PlainArrives(exact, more, s, LowerExpr(s, e), ty);
    case Not(operand) =>
      VarTyped(exact, more, s, operand, scope, Bool);
      VarParts(exact, more, s, LowerToVar(s, operand, Bool), Bool);
      PlainArrives(exact, more, s, LowerExpr(s, e), ty);
    case Negate(operand) =>
      VarTyped(exact, more, s, operand, scope, ty);
      VarParts(exact, more, s, LowerToVar(s, operand, ty), ty);
      PlainArrives(exact, more, s, LowerExpr(s, e), ty);
    case Assign(x, rootTy, rhs) =>
      var r, t := LowerExpr(s, rhs), Ast.TypeOf(rhs);
      ExprTyped(exact, more, s, rhs, scope);
      ArrivesAt(exact, more, s, r, t, t);
      ScopeStays(s, r.s, scope);
      InScope(r.s, scope, x);
      VariableTyped(exact, more, r.s, Place(Explicit(x), rootTy), t, r.v);
      ArrivesVia(exact, more, s, r.s, LowerExpr(s, e), ty);
    case BinOp(_, op, _) =>
      if op.And? {
        LogicTyped(exact, more, s, e, 1, scope);
      } else if op.Or? {
        LogicTyped(exact, more, s, e, 0, scope);
      } else {
        OperatorTyped(exact, more, s, e, scope);
      }
    case IfElse(_, _, _, _) => IfTyped(exact, more, s, e, scope);
    case While(_, _) => LoopTyped(exact, more, s, e, scope);
    }
  }

  lemma {:induction false} SameReturn(s: State, t: State)
    requires Extends(s, t)
    ensures t.returnType == s.returnType && |t.frames| == |s.frames|
  {
  }

  lemma {:induction false} Itself(s: State)
    ensures Extends(s, s)
  {
  }

  lemma {:induction false} InScope(s: State, scope: Ast.Scope, x: Name)
    requires ScopeListed(s, scope) && x in scope
    ensures (Explicit(x), scope[x]) in s.vars
  {
  }

  lemma {:induction false} AtType(exact: bool, more: Pending, s: State, r: Lowered, from: Ty, ty: Ty)
    requires Arrives(exact, more, s, r, from) && (exact ==> from == ty)
    ensures Arrives(exact, more, s, r, ty)
  {
    hide Ready, Assignable, ValueTyped;
    ArrivesAt(exact, more, s, r, from, ty);
  }

  lemma {:induction false} BlockParts(exact: bool, more: Pending, s: State, r: Lowered, ty: Ty)
    requires BlockArrives(exact, more, s, r, ty)
    ensures Ready(exact, more, r.s) && Extends(s, r.s) && ValueTyped(exact, more, r.s.vars, r.v, ty)
  {
  }

  lemma {:induction false} VarParts(exact: bool, more: Pending, s: State, r: LoweredVar, ty: Ty)
    requires VarArrives(exact, more, s, r, ty)
    ensures Ready(exact, more, r.s) && Extends(s, r.s) && Known(exact, more, r.s.vars, r.x, ty)
    ensures InTop(r.s, r.x)
  {
    hide Ready, Known;
    LiveIsTop(exact, r.s, r.x, ty);
  }

  lemma {:induction false} StepParts(exact: bool, more: Pending, s: State, t: State)
    requires Steps(exact, more, s, t)
    ensures Ready(exact, more, t) && Extends(s, t)
  {
  }

  lemma {:induction false} VarTyped(exact: bool, more: Pending, s: State, e: Ast.Expr, scope: Ast.Scope, ty: Ty)
    requires Ready(exact, more, s) && ScopeListed(s, scope) && Checked(exact, s.returnType, e, scope)
    requires exact ==> Ast.TypeOf(e) == ty
    ensures VarArrives(exact, more, s, LowerToVar(s, e, ty), ty)
    decreases e, 3
  {
    hide Ready, Known, Live, Extends, LowerExpr, AssignToVar, Checked, Arrives, ScopeListed, Assignable, ValueTyped;
    var r := LowerExpr(s, e);
    ExprTyped(exact, more, s, e, scope);
    ArrivesAt(exact, more, s, r, Ast.TypeOf(e), ty);
    ToVarTyped(exact, more, r.s, r.v, ty);
    ExtendsJoin(s, r.s, LowerToVar(s, e, ty).s);
  }

  lemma {:induction false} OperatorTyped(exact: bool, more: Pending, s: State, e: Ast.Expr, scope: Ast.Scope)
    requires Ready(exact, more, s) && ScopeListed(s, scope) && Checked(exact, s.returnType, e, scope)
    requires e.BinOp? && !e.op.And? && !e.op.Or?
    ensures Arrives(exact, more, s, LowerExpr(s, e), Ast.TypeOf(e))
    decreases e, 1
  {
    hide Ready, Known, Live, Extends, LowerToVar, VarArrives, Arrives, ScopeListed;
    var t := Ast.TypeOf(e.left);
    var x := LowerToVar(s, e.left, t);
    var y := LowerToVar(x.s, e.right, Ast.TypeOf(e.right));
    VarTyped(exact, more, s, e.left, scope, t);
    VarParts(exact, more, s, x, t);
    ScopeStays(s, x.s, scope);
    SameReturn(s, x.s);
    VarTyped(exact, more, x.s, e.right, scope, Ast.TypeOf(e.right));
    VarParts(exact, more, x.s, y, Ast.TypeOf(e.right));
    StillKnown(exact, more, x.s, y.s, x.x, t);
    KnownAt(exact, more, y.s.vars, y.x, Ast.TypeOf(e.right), t);
    ExtendsJoin(s, x.s, y.s);
    PlainArrives(exact, more, s, LowerExpr(s, e), Ast.TypeOf(e));
  }

  lemma {:induction false} KnownAt(exact: bool, more: Pending, vars: seq<(Var, Ty)>, x: Var, from: Ty, ty: Ty)
    requires Known(exact, more, vars, x, from) && (exact ==> from == ty)
    ensures Known(exact, more, vars, x, ty)
  {
  }

  lemma {:induction false} OperandTyped(exact: bool, more: Pending, s: State, x: Var,
      operand: Ast.Expr, scope: Ast.Scope)
    requires Ready(exact, more, s) && ScopeListed(s, scope) && Checked(exact, s.returnType, operand, scope)
    requires (x, Bool) in more && (exact ==> Ast.TypeOf(operand) == Bool)
    ensures Steps(exact, more, s, LowerOperand(s, Place(x, Bool), operand))
    decreases operand, 3
  {
    hide Ready, LowerExpr, DoAssign, PopAndDrop, Checked, Arrives, Assignable, ValueTyped, PopFrame;
    var p := PushFrame(s);
    var r := LowerExpr(p, operand);
    var a := DoAssign(r.s, Place(x, Bool), Bool, r.v);
    PushTyped(exact, more, s);
    ExprTyped(exact, more, p, operand, scope);
    ArrivesAt(exact, more, p, r, Ast.TypeOf(operand), Bool);
    AssignTyped(exact, more, r.s, Place(x, Bool), Bool, r.v);
    ReadyFrames(exact, more, s);
    LeavingTyped(exact, more, a);
  }

  lemma {:induction false} LogicTyped(exact: bool, more: Pending, s: State, e: Ast.Expr, otherIf: nat, scope: Ast.Scope)
    requires Ready(exact, more, s) && ScopeListed(s, scope) && Checked(exact, s.returnType, e, scope)
    requires e.BinOp? && (e.op.And? || e.op.Or?)
    ensures Arrives(exact, more, s, LowerShortcircuit(s, e, otherIf), Ast.TypeOf(e))
    decreases e, 1
  {
    hide Ready, Extends, LowerOperand, Emit, StartBlock, AddLive, Steps, ScopeListed, Known, Live, Entry;
    hide InstructionTyped;
    var g := OperandStages(s, e, otherIf);
    var tmp := Tmp(s.tmpIndex);
    var later := more + {(tmp, Bool)};
    MoreReady(exact, more, later, s);
    SameStep(exact, later, s, g.start);
    StepParts(exact, later, s, g.start);
    ScopeStays(s, g.start, scope);
    OperandTyped(exact, later, g.start, tmp, e.left, scope);
    StepParts(exact, later, g.start, g.left);
    ExtendsJoin(s, g.start, g.left);
    SwitchTyped(exact, later, g.left, tmp, [(otherIf, g.other)], Some(g.cont));
    NextBlockTyped(exact, later, g.left, Switch(tmp, [(otherIf, g.other)], Some(g.cont)), g.other);
    StepParts(exact, later, g.left, g.second);
    ExtendsJoin(s, g.left, g.second);
    SameReturn(s, g.second);
    ScopeStays(s, g.second, scope);
    OperandTyped(exact, later, g.second, tmp, e.right, scope);
    StepParts(exact, later, g.second, g.right);
    ExtendsJoin(s, g.second, g.right);
    AddTyped(exact, later, more, g.right, tmp, Bool);
    ExtendsJoin(s, g.right, g.end);
    ContinueTyped(exact, more, s, g.end, Jump(g.cont), g.cont, tmp, Bool);
  }

  lemma {:induction false} SwitchTyped(exact: bool, more: Pending, s: State, x: Var, branches: seq<(nat, Label)>,
      default: Option<Label>)
    requires (x, Bool) in more
    ensures InstructionTyped(exact, more, s.vars, s.returnType, Switch(x, branches, default))
  {
    NowKnown(exact, more, s.vars, x, Bool);
  }

  /** The block after a branch starts with the result in a live variable. */
  lemma {:induction false} ContinueTyped(exact: bool, more: Pending, s: State, t: State, i: Instruction, l: Label,
      x: Var, ty: Ty)
    requires Ready(exact, more, t) && Extends(s, t) && i.Jump?
    requires Listed(more, t.vars, x, ty) && Entry(TopFrame(t), x, ty)
    ensures Arrives(exact, more, s, Lowered(StartBlock(Emit(t, i), l), Move(x)), ty)
  {
    hide Ready, Extends, Emit, StartBlock, Known, Live, Entry, ValueTyped;
    var u := Emit(t, i);
    var v := StartBlock(u, l);
    EmitTyped(exact, more, t, i);
    StartTyped(exact, more, u, l);
    ExtendsJoin(s, t, u);
    ExtendsJoin(s, u, v);
    ExtendsJoin(t, u, v);
    NowKnown(exact, more, t.vars, x, ty);
    StillTyped(exact, more, t, v, Move(x), ty);
    ReadyFrames(exact, more, v);
    NotMovedLive(exact, v, x, ty);
  }

  /** A branch stores its result and jumps. */
  lemma {:induction false} EndTyped(exact: bool, more: Pending, s: State, x: Var, ty: Ty,
      v: Value, from: Ty, cont: Label)
    requires Ready(exact, more, s) && ValueTyped(exact, more, s.vars, v, from) && (exact ==> from == ty)
    requires (x, ty) in more
    ensures Steps(exact, more, s, EndBranch(s, Place(x, ty), v, cont))
  {
    hide Ready, Extends, Emit, ValueTyped;
    var i := Assign(Place(x, ty), ty, v);
    var t := Emit(s, i);
    Retyped(exact, more, s.vars, v, from, ty);
    EmitTyped(exact, more, s, i);
    EmitTyped(exact, more, t, Jump(cont));
    ExtendsJoin(s, t, Emit(t, Jump(cont)));
  }

  lemma {:induction false} IfTyped(exact: bool, more: Pending, s: State, e: Ast.Expr, scope: Ast.Scope)
    requires Ready(exact, more, s) && ScopeListed(s, scope) && Checked(exact, s.returnType, e, scope) && e.IfElse?
    ensures Arrives(exact, more, s, LowerIfElse(s, e), e.ty)
    decreases e, 1
  {
    hide Ready, Extends, LowerToVar, LowerBlock, Emit, StartBlock, AddLive, EndBranch, Steps, ScopeListed;
    hide Known, Live, Entry, VarArrives, BlockArrives, ValueTyped, InstructionTyped;
    var g := BranchStages(s, e);
    var tmp := g.res.x;
    var later := more + {(tmp, e.ty)};
    BranchTyped(exact, more, s, e, scope);
    StepParts(exact, more, s, g.start);
    SameReturn(s, g.start);
    ScopeStays(s, g.start, scope);
    BlockTyped(exact, more, g.start, e.thenBlock, scope);
    BlockParts(exact, more, g.start, g.t, e.thenBlock.ty);
    ExtendsJoin(s, g.start, g.t.s);
    SameStep(exact, more, g.t.s, g.res.s);
    StepParts(exact, more, g.t.s, g.res.s);
    ExtendsJoin(s, g.t.s, g.res.s);
    StillTyped(exact, more, g.t.s, g.res.s, g.t.v, e.thenBlock.ty);
    MoreReady(exact, more, later, g.res.s);
    MoreTyped(exact, more, later, g.res.s, g.t.v, e.thenBlock.ty);
    EndTyped(exact, later, g.res.s, tmp, e.ty, g.t.v, e.thenBlock.ty, g.l.cont);
    StepParts(exact, later, g.res.s, g.mid);
    ExtendsJoin(s, g.res.s, g.mid);
    var end := g.mid;
    if e.elseBlock.Some? {
      var b := e.elseBlock.value;
      var f := LowerBlock(g.second, b);
      end := EndBranch(f.s, Place(tmp, e.ty), f.v, g.l.cont);
      StartTyped(exact, later, g.mid, g.l.second);
      ExtendsJoin(s, g.mid, g.second);
      SameReturn(s, g.second);
      ScopeStays(s, g.second, scope);
      BlockTyped(exact, later, g.second, b, scope);
      BlockParts(exact, later, g.second, f, b.ty);
      ExtendsJoin(s, g.second, f.s);
      EndTyped(exact, later, f.s, tmp, e.ty, f.v, b.ty, g.l.cont);
      StepParts(exact, later, f.s, end);
      ExtendsJoin(s, f.s, end);
    }
    var last := StartBlock(end, g.l.cont);
    StartTyped(exact, later, end, g.l.cont);
    ExtendsJoin(s, end, last);
    JoinedTyped(exact, more, s, last, tmp, e.ty);
  }

  lemma {:induction false} MoreTyped(exact: bool, more: Pending, after: Pending, s: State, v: Value, ty: Ty)
    requires ValueTyped(exact, more, s.vars, v, ty) && more <= after
    ensures ValueTyped(exact, after, s.vars, v, ty)
  {
    hide ValueTyped;
    ValueStays(exact, more, s.vars, after, s.vars, v, ty);
  }

  /** The condition of an if, up to where the first branch starts. */
  lemma {:induction false} BranchTyped(exact: bool, more: Pending, s: State, e: Ast.Expr, scope: Ast.Scope)
    requires Ready(exact, more, s) && ScopeListed(s, scope) && Checked(exact, s.returnType, e, scope) && e.IfElse?
    ensures Steps(exact, more, s, BranchStages(s, e).start)
    decreases e, 0
  {
    hide Ready, Extends, LowerToVar, LowerBlock, Emit, StartBlock, ScopeListed, Known, VarArrives;
    var g := BranchStages(s, e);
    var i := Switch(g.x.x, [(1, g.l.first)], Some(if e.elseBlock.Some? then g.l.second else g.l.cont));
    VarTyped(exact, more, s, e.condition, scope, Bool);
    VarParts(exact, more, s, g.x, Bool);
    SameStep(exact, more, g.x.s, g.l.s);
    StepParts(exact, more, g.x.s, g.l.s);
    ExtendsJoin(s, g.x.s, g.l.s);
    StillKnown(exact, more, g.x.s, g.l.s, g.x.x, Bool);
    NextBlockTyped(exact, more, g.l.s, i, g.l.first);
    StepsJoin(exact, more, s, g.l.s, g.start);
  }

  /** Where branches meet, their result becomes live. */
  lemma {:induction false} JoinedTyped(exact: bool, more: Pending, s: State, t: State, x: Var, ty: Ty)
    requires Ready(exact, more + {(x, ty)}, t) && Extends(s, t)
    ensures Arrives(exact, more, s, Lowered(AddLive(t, x, ty), Move(x)), ty)
  {
    hide Ready, Extends, AddLive, Known, Live, Entry, ValueTyped;
    var u := AddLive(t, x, ty);
    AddTyped(exact, more + {(x, ty)}, more, t, x, ty);
    ExtendsJoin(s, t, u);
    NowKnown(exact, more, u.vars, x, ty);
    ReadyFrames(exact, more, u);
    NotMovedLive(exact, u, x, ty);
  }

  lemma {:induction false} LoopTyped(exact: bool, more: Pending, s: State, e: Ast.Expr, scope: Ast.Scope)
    requires Ready(exact, more, s) && ScopeListed(s, scope) && Checked(exact, s.returnType, e, scope) && e.While?
    ensures Arrives(exact, more, s, LowerWhile(s, e), Unit)
    decreases e, 1
  {
    hide Ready, Extends, LowerToVar, LowerBlock, Emit, StartBlock, ScopeListed, Steps;
    hide Known, Live, VarArrives, BlockArrives, ValueTyped, Assignable;
    var g := LoopStages(s, e);
    SameStep(exact, more, s, g.l.s);
    StepParts(exact, more, s, g.l.s);
    NextBlockTyped(exact, more, g.l.s, Jump(g.l.first), g.l.first);
    StepParts(exact, more, g.l.s, g.head);
    ExtendsJoin(s, g.l.s, g.head);
    SameReturn(s, g.head);
    ScopeStays(s, g.head, scope);
    VarTyped(exact, more, g.head, e.condition, scope, Bool);
    VarParts(exact, more, g.head, g.x, Bool);
    ExtendsJoin(s, g.head, g.x.s);
    NextBlockTyped(exact, more, g.x.s, Switch(g.x.x, [(1, g.l.second)], Some(g.l.cont)), g.l.second);
    StepParts(exact, more, g.x.s, g.body);
    ExtendsJoin(s, g.x.s, g.body);
    SameReturn(s, g.body);
    ScopeStays(s, g.body, scope);
    BlockTyped(exact, more, g.body, e.body, scope);
    BlockParts(exact, more, g.body, g.b, e.body.ty);
    ExtendsJoin(s, g.body, g.b.s);
    BlockMoves(g.body, e.body);
    NextBlockTyped(exact, more, g.b.s, Jump(g.l.first), g.l.cont);
    StepParts(exact, more, g.b.s, LowerWhile(s, e).s);
    ExtendsJoin(s, g.b.s, LowerWhile(s, e).s);
    UnitIsTyped(exact, more, LowerWhile(s, e).s, Unit);
  }

  /** The result of a block is in a variable already. */
  lemma {:induction false} BlockMoves(s: State, b: Ast.Block)
    ensures LowerBlock(s, b).v.Move?
  {
    hide LowerExpr, LowerStmts, AssignToVar, RemoveLive, PopFrame, PopAndDrop;
  }

  // ----------------------------------------------------- blocks, statements

  lemma {:induction false} BlockTyped(exact: bool, more: Pending, s: State, b: Ast.Block, scope: Ast.Scope)
    requires Ready(exact, more, s) && ScopeListed(s, scope) && CheckedBlock(exact, s.returnType, b, scope)
    ensures BlockArrives(exact, more, s, LowerBlock(s, b), b.ty)
    decreases b, 2
  {
    hide Ready, Extends, LowerStmts, AssignToVar, RemoveLive, PopFrame, PopAndDrop, Steps, Checked, CheckedStmts;
    hide Known, Live, ScopeListed, Assignable, ValueTyped, LowerExpr, Arrives, VarArrives;
    var p := PushFrame(s);
    var t := LowerStmts(p, b.stmts);
    var op := if b.last.Some? then LowerExpr(t, b.last.value) else Lowered(t, UNIT_VALUE);
    PushTyped(exact, more, s);
    PushedScope(s, scope);
    StmtsTyped(exact, more, p, b.stmts, scope);
    StepParts(exact, more, p, t);
    SameReturn(p, t);
    if b.last.Some? {
      ExprTyped(exact, more, t, b.last.value, Ast.ScopeAfter(b.stmts, scope));
      ArrivesAt(exact, more, t, op, Ast.TypeOf(b.last.value), b.ty);
      ExtendsJoin(p, t, op.s);
    } else {
      UnitIsTyped(exact, more, t, b.ty);
    }
    FinalTyped(exact, more, s, op, b);
  }

  lemma {:induction false} PushedScope(s: State, scope: Ast.Scope)
    requires ScopeListed(s, scope)
    ensures ScopeListed(PushFrame(s), scope)
  {
  }

  /** The result goes into a variable and out of the frame, the frame ends. */
  lemma {:induction false} FinalTyped(exact: bool, more: Pending, s: State, op: Lowered, b: Ast.Block)
    requires Ready(exact, more, s) && Ready(exact, more, op.s) && Extends(PushFrame(s), op.s)
    requires Assignable(exact, more, op.s, op.v, b.ty)
    ensures var final := AssignToVar(op.s, op.v, b.ty);
      var u := RemoveLive(final.s, final.x);
      BlockArrives(exact, more, s, Lowered(if b.diverges then PopFrame(u) else PopAndDrop(u), Move(final.x)), b.ty)
  {
    hide Ready, AssignToVar, RemoveLive, PopFrame, PopAndDrop, Known, Live, Assignable, ValueTyped;
    var final := AssignToVar(op.s, op.v, b.ty);
    var u := RemoveLive(final.s, final.x);
    var r := if b.diverges then PopFrame(u) else PopAndDrop(u);
    ToVarTyped(exact, more, op.s, op.v, b.ty);
    RemoveTyped(exact, more, final.s, final.x);
    ReadyFrames(exact, more, s);
    LeavingTyped(exact, more, u);
    KnownStays(exact, more, final.s.vars, more, r.vars, final.x, b.ty);
    MoveIsKnown(exact, more, r.vars, Move(final.x), b.ty);
  }

  lemma {:induction false} StmtsTyped(exact: bool, more: Pending, s: State, stmts: seq<Ast.Stmt>, scope: Ast.Scope)
    requires Ready(exact, more, s) && ScopeListed(s, scope) && CheckedStmts(exact, s.returnType, stmts, scope)
    ensures Steps(exact, more, s, LowerStmts(s, stmts))
    ensures ScopeListed(LowerStmts(s, stmts), Ast.ScopeAfter(stmts, scope))
    decreases stmts, 2
  {
    hide Ready, Extends, LowerStmt, CheckedStmt, ScopeListed;
    if stmts == [] {
      Itself(s);
    } else {
      var t := LowerStmt(s, stmts[0]);
      StmtTyped(exact, more, s, stmts[0], scope);
      SameReturn(s, t);
      StmtsTyped(exact, more, t, stmts[1..], Ast.ScopeAfterStmt(stmts[0], scope));
      StepsJoin(exact, more, s, t, LowerStmts(s, stmts));
    }
  }

  lemma {:induction false} StmtTyped(exact: bool, more: Pending, s: State, stmt: Ast.Stmt, scope: Ast.Scope)
    requires Ready(exact, more, s) && ScopeListed(s, scope) && CheckedStmt(exact, s.returnType, stmt, scope)
    ensures Steps(exact, more, s, LowerStmt(s, stmt))
    ensures ScopeListed(LowerStmt(s, stmt), Ast.ScopeAfterStmt(stmt, scope))
    decreases stmt, 2
  {
    hide Ready, Extends, LowerExpr, LowerToVar, DropVar, Checked, ScopeListed, Arrives, VarArrives, InTop, Assignable;
    hide AddLive, DoAssign, Known, ValueTyped;
    match stmt {
    case Let(x, ty, init) =>
      var r := LowerExpr(s, init);
      ExprTyped(exact, more, s, init, scope);
      ArrivesAt(exact, more, s, r, Ast.TypeOf(init), ty);
      LetTyped(exact, more, s, r, x, ty, scope);
    case ExprStmt(e) =>
      var t := LowerToVar(s, e, Ast.TypeOf(e));
      VarTyped(exact, more, s, e, scope, Ast.TypeOf(e));
      VarParts(exact, more, s, t, Ast.TypeOf(e));
      DropVarTyped(exact, more, t.s, t.x);
      ExtendsJoin(s, t.s, DropVar(t.s, t.x));
      ScopeStays(s, DropVar(t.s, t.x), scope);
    }
  }

  lemma {:induction false} LetTyped(exact: bool, more: Pending, s: State, r: Lowered, x: Name, ty: Ty, scope: Ast.Scope)
    requires Ready(exact, more, r.s) && Extends(s, r.s) && ValueTyped(exact, more, r.s.vars, r.v, ty)
    requires ScopeListed(s, scope)
    ensures Steps(exact, more, s, LetStore(r.s, x, ty, r.v))
    ensures ScopeListed(LetStore(r.s, x, ty, r.v), scope[x := ty])
  {
    hide Ready, Extends, AddLive, DoAssign, Known, ValueTyped, ScopeListed;
    var t := AddLive(r.s, Explicit(x), ty);
    var u := LetStore(r.s, x, ty, r.v);
    AddTyped(exact, more, more, r.s, Explicit(x), ty);
    StillTyped(exact, more, r.s, t, r.v, ty);
    AssignTyped(exact, more, t, Place(Explicit(x), ty), ty, r.v);
    ExtendsJoin(s, r.s, t);
    ExtendsJoin(s, t, u);
    ScopeStays(s, u, scope);
    WiderScope(t, u, scope, x, ty);
  }

  lemma {:induction false} WiderScope(t: State, u: State, scope: Ast.Scope, x: Name, ty: Ty)
    requires ScopeListed(u, scope) && (Explicit(x), ty) in t.vars && Extends(t, u)
    ensures ScopeListed(u, scope[x := ty])
  {
  }

  // -------------------------------------------------------------- functions

  function ParameterScope(parameters: seq<(Name, Ty)>, scope: Ast.Scope): Ast.Scope
    decreases |parameters|
  {
    if parameters == [] then scope else ParameterScope(parameters[1..], scope[parameters[0].0 := parameters[0].1])
  }

  predicate CheckedFunction(exact: bool, f: Function) {
    CheckedBlock(exact, f.returnType, f.body, LoweredFunctions.ScopeOf(f.parameters))
    && (exact ==> f.body.ty == f.returnType)
  }

  lemma {:induction false} ParametersTyped(exact: bool, s: State, parameters: seq<(Name, Ty)>, scope: Ast.Scope)
    requires Ready(exact, {}, s) && ScopeListed(s, scope)
    ensures Steps(exact, {}, s, AddParameters(s, parameters))
    ensures ScopeListed(AddParameters(s, parameters), ParameterScope(parameters, scope))
    decreases |parameters|
  {
    hide Ready, Extends, AddLive, ScopeListed;
    if parameters == [] {
      Itself(s);
    } else {
      var (x, ty) := parameters[0];
      var t := AddLive(s, Explicit(x), ty);
      AddTyped(exact, {}, {}, s, Explicit(x), ty);
      ScopeStays(s, t, scope);
      Itself(t);
      WiderScope(t, t, scope, x, ty);
      ParametersTyped(exact, t, parameters[1..], scope[x := ty]);
      StepsJoin(exact, {}, s, t, AddParameters(s, parameters));
    }
  }

  lemma {:induction false} ScopeFromLast(parameters: seq<(Name, Ty)>, scope: Ast.Scope)
    requires parameters != []
    ensures var k := |parameters| - 1;
      ParameterScope(parameters, scope)
        == ParameterScope(parameters[..k], scope)[parameters[k].0 := parameters[k].1]
    decreases |parameters|
  {
    var k := |parameters| - 1;
    if k > 0 {
      ScopeFromLast(parameters[1..], scope[parameters[0].0 := parameters[0].1]);
      assert parameters[1..][..k - 1] == parameters[..k][1..];
    }
  }

  lemma {:induction false} ScopesAgree(parameters: seq<(Name, Ty)>)
    ensures ParameterScope(parameters, map[]) == LoweredFunctions.ScopeOf(parameters)
    decreases |parameters|
  {
    if parameters != [] {
      ScopeFromLast(parameters, map[]);
      ScopesAgree(parameters[..|parameters| - 1]);
    }
  }

  /** Drops do not depend on the frames around them. */
  lemma {:induction false} DropsIgnoreFrames(s: State, t: State, frame: Frame)
    requires s.blocks == t.blocks
    ensures EmitDrops(s, frame).blocks == EmitDrops(t, frame).blocks
    ensures EmitDrops(s, frame).vars == s.vars && EmitDrops(s, frame).returnType == s.returnType
    ensures EmitDrops(t, frame).vars == t.vars && EmitDrops(t, frame).returnType == t.returnType
    decreases |frame|
  {
    if frame != [] {
      var last := frame[|frame| - 1];
      var i := Drop(Place(last.0, last.1), last.1);
      DropsIgnoreFrames(Emit(s, i), Emit(t, i), frame[..|frame| - 1]);
    }
  }

  /** The drops of the only frame, and the return. */
  lemma {:induction false} ClosingTyped(exact: bool, s: State, x: Var)
    requires Ready(exact, {}, s) && |s.frames| == 1 && Known(exact, {}, s.vars, x, s.returnType)
    ensures CodeTyped(exact, {}, Emit(PopAndDrop(s), Return(x)))
  {
    hide InstructionTyped, Known;
    var t := s.(frames := [[], s.frames[0]]);
    CodeStays(exact, {}, s, {}, t);
    assert forall i :: 0 <= i < |s.frames[0]| ==> s.frames[0][i] in s.vars;
    LeavingTyped(exact, {}, t);
    DropsIgnoreFrames(PopFrame(s), PopFrame(t), s.frames[0]);
    ClosedTyped(exact, PopAndDrop(s), PopAndDrop(t), x);
  }

  lemma {:induction false} ClosedTyped(exact: bool, s: State, t: State, x: Var)
    requires Ready(exact, {}, t) && s.blocks == t.blocks && s.vars == t.vars && s.returnType == t.returnType
    requires Known(exact, {}, t.vars, x, t.returnType)
    ensures CodeTyped(exact, {}, Emit(s, Return(x)))
  {
    hide InstructionTyped, Known;
    ReturnIsTyped(exact, t, x);
    EmitTyped(exact, {}, t, Return(x));
    CodeStays(exact, {}, Emit(t, Return(x)), {}, Emit(s, Return(x)));
  }

  lemma {:induction false} ReturnIsTyped(exact: bool, t: State, x: Var)
    requires Known(exact, {}, t.vars, x, t.returnType)
    ensures InstructionTyped(exact, {}, t.vars, t.returnType, Return(x))
  {
  }

  lemma {:induction false} FunctionTyped(exact: bool, f: Function)
    requires CheckedFunction(exact, f)
    ensures CodeTyped(exact, {}, LowerFunction(f)) && LowerFunction(f).returnType == f.returnType
  {
    hide Extends, LowerBlock, AddParameters, PopAndDrop, Emit, ScopeListed, CheckedBlock, CodeTyped, Known;
    hide BlockArrives, ValueTyped;
    var entry := State([Block(ENTRY, [])], [[]], [], 0, ENTRY + 1, f.returnType, false);
    var s := FunctionStart(f);
    var last := LowerBlock(s, f.body);
    EntryTyped(exact, entry);
    ParametersTyped(exact, entry, f.parameters, map[]);
    ScopesAgree(f.parameters);
    SameReturn(entry, s);
    BlockTyped(exact, {}, s, f.body, LoweredFunctions.ScopeOf(f.parameters));
    BlockParts(exact, {}, s, last, f.body.ty);
    SameReturn(s, last.s);
    BlockMoves(s, f.body);
    Retyped(exact, {}, last.s.vars, last.v, f.body.ty, f.returnType);
    MoveIsKnown(exact, {}, last.s.vars, last.v, f.returnType);
    ClosingTyped(exact, last.s, last.v.source);
    ClosingKeeps(last.s, last.v.source);
  }

  lemma {:induction false} EntryTyped(exact: bool, s: State)
    requires s.blocks == [Block(ENTRY, [])] && s.frames == [[]]
    ensures Ready(exact, {}, s) && ScopeListed(s, map[])
  {
  }

  lemma {:induction false} ClosingKeeps(s: State, x: Var)
    ensures Emit(PopAndDrop(s), Return(x)).returnType == s.returnType
  {
    DropsIgnoreFrames(PopFrame(s), PopFrame(s), TopFrame(s));
  }

  // --------------------------------------------------------------- theorems

  /** Where the recorded types agree, every instruction of the function works
      at the types of its variables. */
  lemma {:induction false} CodeIsTyped(f: Function, b: Block, i: Instruction)
    requires CheckedFunction(true, f) && b in LowerFunction(f).blocks && i in b.instructions
    ensures InstructionTyped(true, {}, LowerFunction(f).vars, f.returnType, i)
  {
    hide LowerFunction, InstructionTyped, CheckedFunction;
    var s := LowerFunction(f);
    FunctionTyped(true, f);
    var k :| 0 <= k < |s.blocks| && s.blocks[k] == b;
    var j :| 0 <= j < |b.instructions| && b.instructions[j] == i;
    assert TypedAt(true, {}, s, k, j);
  }

  /** Every drop of a typed function names a variable of the function with its
      type; it works at this type unless an assignment has sides of different
      recorded types, and then some drop does not. */
  lemma {:induction false} DropsAreTyped(m: Machine, f: Function)
    requires LoweredFunctions.TypedFunction(m, f)
    ensures forall b, i :: b in LowerFunction(f).blocks && i in b.instructions && i.Drop? ==>
      (i.val.root, i.val.ty) in LowerFunction(f).vars
    ensures LoweringTypes.MatchedBlock(f.body) <==>
      forall b, i :: b in LowerFunction(f).blocks && i in b.instructions && i.Drop? ==> i.val.ty == i.ty
  {
    hide LowerFunction, LoweringTypes.MatchedBlock;
    var s := LowerFunction(f);
    TypedIsCheckedBlock(m, f.body, LoweredFunctions.ScopeOf(f.parameters));
    FunctionTyped(false, f);
    forall b, i | b in s.blocks && i in b.instructions && i.Drop?
      ensures (i.val.root, i.val.ty) in s.vars
    {
      var k :| 0 <= k < |s.blocks| && s.blocks[k] == b;
      var j :| 0 <= j < |b.instructions| && b.instructions[j] == i;
      assert TypedAt(false, {}, s, k, j);
    }
    LoweringTypes.FunctionDropsAgree(f);
    DropsAgreeIs(s);
  }

  lemma {:induction false} DropsAgreeIs(s: State)
    ensures LoweringTypes.DropsAgree(s) <==>
      forall b, i :: b in s.blocks && i in b.instructions && i.Drop? ==> i.val.ty == i.ty
  {
    if LoweringTypes.DropsAgree(s) {
      forall b, i | b in s.blocks && i in b.instructions && i.Drop?
        ensures i.val.ty == i.ty
      {
        var k :| 0 <= k < |s.blocks| && s.blocks[k] == b;
        var j :| 0 <= j < |b.instructions| && b.instructions[j] == i;
        assert LoweringTypes.AgreesAt(s, k, j);
      }
    } else {
      var k, j :| 0 <= k < |s.blocks| && 0 <= j < |s.blocks[k].instructions| && !LoweringTypes.AgreesAt(s, k, j);
      assert s.blocks[k] in s.blocks && s.blocks[k].instructions[j] in s.blocks[k].instructions;
    }
  }

  const PARAMETER := Mir.Name(0, "x")

  /** A function that stores what a return yields in its string. */
  const MISMATCHED := Function([(PARAMETER, Managed)], Unit,
    Ast.Block([Ast.ExprStmt(Ast.Assign(PARAMETER, Managed, Ast.Return(None, Unit)))], None, Unit, true))

  /** It is accepted, with the flag the checker records, and some drop in its
      code is at another type than its variable. */
  lemma {:induction false} MismatchedDrop(m: Machine)
    requires m.returnType == Unit
    ensures LoweredFunctions.TypedFunction(m, MISMATCHED) && Divergence.DivergesBlock(MISMATCHED.body)
    ensures exists b, i :: b in LowerFunction(MISMATCHED).blocks && i in b.instructions && i.Drop? && i.val.ty != i.ty
  {
    hide LowerFunction;
    var stmts := MISMATCHED.body.stmts;
    var scope := LoweredFunctions.ScopeOf(MISMATCHED.parameters);
    assert MISMATCHED.parameters[..0] == [] && LoweredFunctions.ScopeOf([]) == map[];
    assert scope == map[PARAMETER := Managed];
    assert Ast.NeverCompletes(m, Ast.Return(None, Unit));
    assert Ast.TypedStmt(m, stmts[0], scope) && stmts[1..] == [];
    assert Divergence.DivergesStmt(stmts[0]);
    assert !LoweringTypes.MatchedStmt(stmts[0]);
    assert Ast.TypedStmts(m, [], Ast.ScopeAfterStmt(stmts[0], scope));
    assert Ast.TypedStmts(m, stmts, scope);
    assert LoweredFunctions.DistinctNames(MISMATCHED.parameters);
    assert Ast.TypedBlock(m, MISMATCHED.body, scope);
    assert LoweredFunctions.TypedFunction(m, MISMATCHED);
    DropsAreTyped(m, MISMATCHED);
  }

  // ------------------------------------------------------ typed, so checked

  lemma {:induction false} TypedIsChecked(m: Machine, e: Ast.Expr, scope: Ast.Scope)
    requires Ast.Typed(m, e, scope)
    ensures Checked(false, m.returnType, e, scope)
    decreases e
  {
    match e
    case Return(None, _) =>
    case Return(Some(v), _) => TypedIsChecked(m, v, scope);
    case Literal(_) =>
    case BlockExpr(b, _) => TypedIsCheckedBlock(m, b, scope);
    case Path(_, _) =>
    case Not(operand) => TypedIsChecked(m, operand, scope);
    case Negate(operand) => TypedIsChecked(m, operand, scope);
    case Assign(_, _, rhs) => TypedIsChecked(m, rhs, scope);
    case BinOp(l, _, r) =>
      TypedIsChecked(m, l, scope);
      TypedIsChecked(m, r, scope);
    case IfElse(condition, thenBlock, elseBlock, _) =>
      TypedIsChecked(m, condition, scope);
      TypedIsCheckedBlock(m, thenBlock, scope);
      if elseBlock.Some? { TypedIsCheckedBlock(m, elseBlock.value, scope); }
    case While(condition, body) =>
      TypedIsChecked(m, condition, scope);
      TypedIsCheckedBlock(m, body, scope);
  }

  lemma {:induction false} TypedIsCheckedBlock(m: Machine, b: Ast.Block, scope: Ast.Scope)
    requires Ast.TypedBlock(m, b, scope)
    ensures CheckedBlock(false, m.returnType, b, scope)
    decreases b
  {
    TypedIsCheckedStmts(m, b.stmts, scope);
    if b.last.Some? { TypedIsChecked(m, b.last.value, Ast.ScopeAfter(b.stmts, scope)); }
  }

  lemma {:induction false} TypedIsCheckedStmts(m: Machine, stmts: seq<Ast.Stmt>, scope: Ast.Scope)
    requires Ast.TypedStmts(m, stmts, scope)
    ensures CheckedStmts(false, m.returnType, stmts, scope)
    decreases stmts
  {
    if stmts != [] {
      TypedIsCheckedStmt(m, stmts[0], scope);
      TypedIsCheckedStmts(m, stmts[1..], Ast.ScopeAfterStmt(stmts[0], scope));
    }
  }

  lemma {:induction false} TypedIsCheckedStmt(m: Machine, s: Ast.Stmt, scope: Ast.Scope)
    requires Ast.TypedStmt(m, s, scope)
    ensures CheckedStmt(false, m.returnType, s, scope)
    decreases s
  {
    match s
    case Let(_, _, init) => TypedIsChecked(m, init, scope);
    case ExprStmt(e) => TypedIsChecked(m, e, scope);
  }
}

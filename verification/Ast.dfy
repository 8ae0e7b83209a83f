/** The part of the source language whose lowering is modelled (src/ast.rs),
    with what the type checker records for it (src/typechecker/expr.rs), and
    its evaluation.

    Variables are resolved names.  An expression carries the type recorded for
    it where that is not determined by its parts; a block carries its recorded
    type and its divergence flag. */
module Ast {
  import opened Collections
  import opened Mir
  import Ops = Precedence

  datatype Expr =
    | Return(result: Option<Expr>, ty: Ty)
    | Literal(literal: Val)
    | BlockExpr(block: Block, ty: Ty)
    | Path(x: Name, ty: Ty)
    | Not(operand: Expr)
    | Negate(operand: Expr)
    | Assign(x: Name, rootTy: Ty, rhs: Expr)
    | BinOp(left: Expr, op: Ops.BinOp, right: Expr)
    | IfElse(condition: Expr, thenBlock: Block, elseBlock: Option<Block>, ty: Ty)
    | While(condition: Expr, body: Block)

  datatype Block = Block(stmts: seq<Stmt>, last: Option<Expr>, ty: Ty, diverges: bool)

  datatype Stmt = Let(x: Name, ty: Ty, init: Expr) | ExprStmt(e: Expr)

  function LiteralType(v: Val): Ty {
    match v
    case UnitVal => Unit
    case BoolVal(_) => Bool
    case IntVal(_) => Int
    case ManagedVal(_) => Managed
  }

  predicate IsArithmetic(op: Ops.BinOp) {
    op.Add? || op.Sub? || op.Mul? || op.Div? || op.Mod?
  }

  /** The type recorded for an expression. */
  function TypeOf(e: Expr): Ty {
    match e
    case Return(_, ty) => ty
    case Literal(v) => LiteralType(v)
    case BlockExpr(_, ty) => ty
    case Path(_, ty) => ty
    case Not(_) => Bool
    case Negate(operand) => TypeOf(operand)
    case Assign(_, _, _) => Unit
    case BinOp(l, op, _) => if IsArithmetic(op) then TypeOf(l) else Bool
    case IfElse(_, _, _, ty) => ty
    case While(_, _) => Unit
  }

  // ------------------------------------------------------------- evaluation

  type Env = map<Name, Val>

  /** How an evaluation ends.  Void: it has come to its end without a value,
      because a flagged block has been completed where a value of another type
      is expected; nobody has asked for the value yet.  Slipped: somebody has.
      Timeout: not within the fuel. */
  datatype Outcome = Normal(val: Val, env: Env) | Void(env: Env) | Returned(returned: Val) | Slipped | Timeout

  predicate Completes(o: Outcome) {
    o.Normal? || o.Void?
  }

  lemma {:induction false} CompletesIs(o: Outcome)
    ensures Completes(o) <==> o.Normal? || o.Void?
    ensures !o.Void? ==> Needed(o) == o
  {
  }

  /** The value is asked for. */
  function Needed(o: Outcome): Outcome {
    if o.Void? then Slipped else o
  }

  /** The value is put into a variable, unless it is that of a block: that is
      in a variable already. */
  function Held(e: Expr, o: Outcome): Outcome {
    if o.Void? && !e.BlockExpr? then Slipped else o
  }

  /** The value of a block of one type is asked for as a value of another. */
  function Expecting(o: Outcome, from: Ty, ty: Ty): Outcome {
    if o.Void? || (o.Normal? && from != ty) then Slipped else o
  }

  /** After the left operand the right one is evaluated. */
  predicate GoesOn(l: Expr, op: Ops.BinOp, o: Outcome) {
    if op.And? then o.Normal? && IsTrue(o.val)
    else if op.Or? then o.Normal? && !IsTrue(o.val)
    else Completes(Held(l, o))
  }

  predicate IsTrue(v: Val) {
    v == BoolVal(true)
  }

  /** Evaluation; fuel bounds the number of iterations of every loop. */
  function Eval(m: Machine, e: Expr, env: Env, fuel: nat): (o: Outcome)
    ensures o.Void? ==> e.BlockExpr? || e.Not? || e.Negate? || (e.BinOp? && !e.op.And? && !e.op.Or?)
    decreases fuel, e
  {
    match e
    case Return(None, _) => Returned(UnitVal)
    case Return(Some(v), _) =>
      var o := Eval(m, v, env, fuel);
      if o.Normal? then Returned(o.val) else Needed(o)
    case Literal(v) => Normal(v, env)
    case BlockExpr(b, ty) =>
      var o := EvalBlock(m, b, env, fuel);
      if o.Normal? && b.ty != ty then Void(o.env) else Needed(o)
    case Path(x, _) => Normal(if x in env then env[x] else UnitVal, env)
    case Not(operand) =>
      var o := Held(operand, Eval(m, operand, env, fuel));
      if o.Normal? then Normal(m.not(o.val), o.env) else o
    case Negate(operand) =>
      var o := Held(operand, Eval(m, operand, env, fuel));
      if o.Normal? then Normal(m.negate(o.val), o.env) else o
    case Assign(x, _, value) =>
      var o := Eval(m, value, env, fuel);
      if o.Normal? then Normal(UnitVal, o.env[x := o.val]) else Needed(o)
    case BinOp(l, op, r) =>
      var o := Eval(m, l, env, fuel);
      if op.And? || op.Or? then
        if GoesOn(l, op, o) then Needed(Eval(m, r, o.env, fuel)) else Needed(o)
      else if !GoesOn(l, op, o) then Held(l, o)
      else
        var p := Held(r, Eval(m, r, o.env, fuel));
        if !Completes(p) then p
        else if o.Normal? && p.Normal? then Normal(m.binop(op, o.val, p.val), p.env)
        else Void(p.env)
    case IfElse(condition, thenBlock, elseBlock, ty) =>
      var o := Needed(Eval(m, condition, env, fuel));
      if !o.Normal? then o
      else if IsTrue(o.val) then Expecting(EvalBlock(m, thenBlock, o.env, fuel), thenBlock.ty, ty)
      else if elseBlock.Some? then Expecting(EvalBlock(m, elseBlock.value, o.env, fuel), elseBlock.value.ty, ty)
      else Normal(UnitVal, o.env)
    case While(condition, body) =>
      if fuel == 0 then Timeout
      else
        var o := Needed(Eval(m, condition, env, fuel));
        if !o.Normal? then o
        else if !IsTrue(o.val) then Normal(UnitVal, o.env)
        else
          var p := EvalBlock(m, body, o.env, fuel);
          if !p.Normal? then Needed(p) else Eval(m, e, p.env, fuel - 1)
  }

  function EvalBlock(m: Machine, b: Block, env: Env, fuel: nat): Outcome
    decreases fuel, b
  {
    var o := EvalStmts(m, b.stmts, env, fuel);
    if !o.Normal? || b.last.None? then o else Held(b.last.value, Eval(m, b.last.value, o.env, fuel))
  }

  function EvalStmts(m: Machine, stmts: seq<Stmt>, env: Env, fuel: nat): (o: Outcome)
    ensures !o.Void?
    decreases fuel, stmts
  {
    if stmts == [] then Normal(UnitVal, env) else
      var o := EvalStmt(m, stmts[0], env, fuel);
      if o.Normal? then EvalStmts(m, stmts[1..], o.env, fuel) else o
  }

  function EvalStmt(m: Machine, s: Stmt, env: Env, fuel: nat): (o: Outcome)
    ensures !o.Void?
    decreases fuel, s
  {
    match s
    case Let(x, _, init) =>
      var o := Eval(m, init, env, fuel);
      if o.Normal? then Normal(UnitVal, o.env[x := o.val]) else Needed(o)
    case ExprStmt(e) =>
      var o := Held(e, Eval(m, e, env, fuel));
      if Completes(o) then Normal(UnitVal, o.env) else o
  }

  ghost predicate NeverCompletes(m: Machine, e: Expr) {
    forall env, fuel :: !Completes(Eval(m, e, env, fuel))
  }

  ghost predicate BlockNeverCompletes(m: Machine, b: Block) {
    forall env, fuel :: !Completes(EvalBlock(m, b, env, fuel))
  }

  /** An evaluation that has ended is the same with more fuel. */
  lemma {:induction false} MoreFuel(m: Machine, e: Expr, env: Env, fuel: nat)
    requires !Eval(m, e, env, fuel).Timeout?
    ensures Eval(m, e, env, fuel + 1) == Eval(m, e, env, fuel)
    decreases fuel, e
  {
    match e
    case Return(None, _) =>
    case Return(Some(v), _) => MoreFuel(m, v, env, fuel);
    case Literal(_) =>
    case BlockExpr(b, _) => MoreFuelBlock(m, b, env, fuel);
    case Path(_, _) =>
    case Not(operand) => MoreFuel(m, operand, env, fuel);
    case Negate(operand) => MoreFuel(m, operand, env, fuel);
    case Assign(_, _, value) => MoreFuel(m, value, env, fuel);
    case BinOp(l, op, r) =>
      MoreFuel(m, l, env, fuel);
      var o := Eval(m, l, env, fuel);
      if GoesOn(l, op, o) {
        MoreFuel(m, r, o.env, fuel);
      }
    case IfElse(condition, thenBlock, elseBlock, _) =>
      MoreFuel(m, condition, env, fuel);
      var o := Eval(m, condition, env, fuel);
      if o.Normal? && IsTrue(o.val) {
        MoreFuelBlock(m, thenBlock, o.env, fuel);
      } else if o.Normal? && elseBlock.Some? {
        MoreFuelBlock(m, elseBlock.value, o.env, fuel);
      }
    case While(condition, body) =>
      MoreFuel(m, condition, env, fuel);
      var o := Eval(m, condition, env, fuel);
      if o.Normal? && IsTrue(o.val) {
        MoreFuelBlock(m, body, o.env, fuel);
        var p := EvalBlock(m, body, o.env, fuel);
        if p.Normal? {
          MoreFuel(m, e, p.env, fuel - 1);
        }
      }
  }

  lemma {:induction false} MoreFuelBlock(m: Machine, b: Block, env: Env, fuel: nat)
    requires !EvalBlock(m, b, env, fuel).Timeout?
    ensures EvalBlock(m, b, env, fuel + 1) == EvalBlock(m, b, env, fuel)
    decreases fuel, b
  {
    MoreFuelStmts(m, b.stmts, env, fuel);
    var o := EvalStmts(m, b.stmts, env, fuel);
    if o.Normal? && b.last.Some? {
      MoreFuel(m, b.last.value, o.env, fuel);
    }
  }

  lemma {:induction false} MoreFuelStmts(m: Machine, stmts: seq<Stmt>, env: Env, fuel: nat)
    requires !EvalStmts(m, stmts, env, fuel).Timeout?
    ensures EvalStmts(m, stmts, env, fuel + 1) == EvalStmts(m, stmts, env, fuel)
    decreases fuel, stmts
  {
    if stmts != [] {
      MoreFuelStmt(m, stmts[0], env, fuel);
      var o := EvalStmt(m, stmts[0], env, fuel);
      if o.Normal? {
        MoreFuelStmts(m, stmts[1..], o.env, fuel);
      }
    }
  }

  lemma {:induction false} MoreFuelStmt(m: Machine, s: Stmt, env: Env, fuel: nat)
    requires !EvalStmt(m, s, env, fuel).Timeout?
    ensures EvalStmt(m, s, env, fuel + 1) == EvalStmt(m, s, env, fuel)
    decreases fuel, s
  {
    match s
    case Let(_, _, init) => MoreFuel(m, init, env, fuel);
    case ExprStmt(e) => MoreFuel(m, e, env, fuel);
  }

  // ----------------------------------------------------------------- typing

  type Scope = map<Name, Ty>

  /** The expression has type ty wherever it completes. */
  ghost predicate Fits(m: Machine, e: Expr, ty: Ty) {
    TypeOf(e) == ty || NeverCompletes(m, e)
  }

  ghost predicate BlockFits(m: Machine, b: Block, ty: Ty) {
    b.ty == ty || BlockNeverCompletes(m, b)
  }

  /** A flagged block without a last expression has the unit type, whatever
      type is expected of it. */
  predicate Slippery(b: Block, ty: Ty) {
    b.diverges && b.last.None? && b.ty != ty
  }

  /** What the type checker guarantees about an expression in a scope. */
  ghost predicate Typed(m: Machine, e: Expr, scope: Scope)
    decreases e
  {
    match e
    case Return(None, _) => m.returnType == Unit
    case Return(Some(v), _) => Typed(m, v, scope) && Fits(m, v, m.returnType)
    case Literal(_) => true
    case BlockExpr(b, ty) => TypedBlock(m, b, scope) && (BlockFits(m, b, ty) || Slippery(b, ty))
    case Path(x, ty) => x in scope && scope[x] == ty
    case Not(operand) => Typed(m, operand, scope) && Fits(m, operand, Bool)
    case Negate(operand) => Typed(m, operand, scope) && TypeOf(operand) != Unit
    case Assign(x, rootTy, value) =>
      x in scope && scope[x] == rootTy && Typed(m, value, scope) && Fits(m, value, rootTy)
    case BinOp(l, op, r) =>
      && Typed(m, l, scope) && Typed(m, r, scope)
      && (if op.And? || op.Or? then Fits(m, l, Bool) && Fits(m, r, Bool) else Fits(m, r, TypeOf(l)))
      && (IsArithmetic(op) ==> TypeOf(l) != Unit)
    case IfElse(condition, thenBlock, elseBlock, ty) =>
      && Typed(m, condition, scope) && Fits(m, condition, Bool)
      && TypedBlock(m, thenBlock, scope) && (BlockFits(m, thenBlock, ty) || Slippery(thenBlock, ty))
      && (elseBlock.Some? ==>
            TypedBlock(m, elseBlock.value, scope)
              && (BlockFits(m, elseBlock.value, ty) || Slippery(elseBlock.value, ty)))
      && (elseBlock.None? ==> ty == Unit)
    case While(condition, body) =>
      && Typed(m, condition, scope) && Fits(m, condition, Bool)
      && TypedBlock(m, body, scope) && BlockFits(m, body, Unit)
  }

  ghost predicate TypedBlock(m: Machine, b: Block, scope: Scope)
    decreases b
  {
    && TypedStmts(m, b.stmts, scope)
    && match b.last
       case None => b.ty == Unit
       case Some(e) => Typed(m, e, ScopeAfter(b.stmts, scope)) && TypeOf(e) == b.ty
  }

  ghost predicate TypedStmts(m: Machine, stmts: seq<Stmt>, scope: Scope)
    decreases stmts
  {
    stmts != [] ==> TypedStmt(m, stmts[0], scope) && TypedStmts(m, stmts[1..], ScopeAfterStmt(stmts[0], scope))
  }

  /** Every let declares a new variable: names are unique in the scope graph. */
  ghost predicate TypedStmt(m: Machine, s: Stmt, scope: Scope)
    decreases s
  {
    match s
    case Let(x, ty, init) => x !in scope && Typed(m, init, scope) && Fits(m, init, ty)
    case ExprStmt(e) => Typed(m, e, scope)
  }

  function ScopeAfterStmt(s: Stmt, scope: Scope): Scope {
    match s
    case Let(x, ty, _) => scope[x := ty]
    case ExprStmt(_) => scope
  }

  function ScopeAfter(stmts: seq<Stmt>, scope: Scope): Scope {
    if stmts == [] then scope else ScopeAfter(stmts[1..], ScopeAfterStmt(stmts[0], scope))
  }

  // ------------------------------------------------------------ declarations

  /** Every let declares its variable with the type that types gives it. */
  predicate Declared(types: map<Name, Ty>, e: Expr)
    decreases e
  {
    match e
    case Return(None, _) => true
    case Return(Some(v), _) => Declared(types, v)
    case Literal(_) => true
    case BlockExpr(b, _) => DeclaredBlock(types, b)
    case Path(_, _) => true
    case Not(operand) => Declared(types, operand)
    case Negate(operand) => Declared(types, operand)
    case Assign(_, _, rhs) => Declared(types, rhs)
    case BinOp(l, _, r) => Declared(types, l) && Declared(types, r)
    case IfElse(condition, thenBlock, elseBlock, _) =>
      Declared(types, condition) && DeclaredBlock(types, thenBlock)
        && (elseBlock.Some? ==> DeclaredBlock(types, elseBlock.value))
    case While(condition, body) => Declared(types, condition) && DeclaredBlock(types, body)
  }

  predicate DeclaredBlock(types: map<Name, Ty>, b: Block)
    decreases b
  {
    DeclaredStmts(types, b.stmts) && (b.last.Some? ==> Declared(types, b.last.value))
  }

  predicate DeclaredStmts(types: map<Name, Ty>, stmts: seq<Stmt>)
    decreases stmts
  {
    stmts != [] ==> DeclaredStmt(types, stmts[0]) && DeclaredStmts(types, stmts[1..])
  }

  predicate DeclaredStmt(types: map<Name, Ty>, s: Stmt)
    decreases s
  {
    match s
    case Let(x, ty, init) => x in types && types[x] == ty && Declared(types, init)
    case ExprStmt(e) => Declared(types, e)
  }

  // ------------------------------------------------- values of the unit type

  /** Variables in scope have a value; those of the unit type the unit value. */
  ghost predicate EnvFits(env: Env, scope: Scope) {
    forall x :: x in scope ==> x in env && (scope[x].Unit? ==> env[x] == UnitVal)
  }

  /** A completed expression of the unit type has the unit value, and variables
      in scope keep theirs. */
  lemma {:induction false} UnitSound(m: Machine, e: Expr, scope: Scope, env: Env, fuel: nat)
    requires Typed(m, e, scope) && EnvFits(env, scope)
    ensures var o := Eval(m, e, env, fuel);
      Completes(o) ==> EnvFits(o.env, scope) && (TypeOf(e).Unit? ==> o.Normal? && o.val == UnitVal)
    decreases fuel, e
  {
    hide BlockFits, Slippery;
    match e
    case Return(None, _) =>
    case Return(Some(v), _) =>
    case Literal(_) =>
    case BlockExpr(_, _) => UnitSoundBlockExpr(m, e, scope, env, fuel);
    case Path(_, _) =>
    case Not(operand) => UnitSound(m, operand, scope, env, fuel);
    case Negate(operand) => UnitSound(m, operand, scope, env, fuel);
    case Assign(_, _, value) => UnitSound(m, value, scope, env, fuel);
    case BinOp(_, _, _) => UnitSoundBinOp(m, e, scope, env, fuel);
    case IfElse(_, _, _, _) => UnitSoundIf(m, e, scope, env, fuel);
    case While(_, _) => UnitSoundLoop(m, e, scope, env, fuel);
  }

  lemma {:induction false} UnitSoundBlockExpr(m: Machine, e: Expr, scope: Scope, env: Env, fuel: nat)
    requires e.BlockExpr? && Typed(m, e, scope) && EnvFits(env, scope)
    ensures var o := Eval(m, e, env, fuel);
      Completes(o) ==> EnvFits(o.env, scope) && (TypeOf(e).Unit? ==> o.Normal? && o.val == UnitVal)
    decreases fuel, e, 0
  {
    hide EnvFits;
    UnitSoundBlock(m, e.block, scope, env, fuel);
  }

  lemma {:induction false} UnitSoundBinOp(m: Machine, e: Expr, scope: Scope, env: Env, fuel: nat)
    requires e.BinOp? && Typed(m, e, scope) && EnvFits(env, scope)
    ensures var o := Eval(m, e, env, fuel);
      Completes(o) ==> EnvFits(o.env, scope) && (TypeOf(e).Unit? ==> o.Normal? && o.val == UnitVal)
    decreases fuel, e, 0
  {
    hide EnvFits, Fits, BlockFits;
    UnitSound(m, e.left, scope, env, fuel);
    var o := Eval(m, e.left, env, fuel);
    if Completes(o) {
      UnitSound(m, e.right, scope, o.env, fuel);
    }
  }

  lemma {:induction false} UnitSoundIf(m: Machine, e: Expr, scope: Scope, env: Env, fuel: nat)
    requires e.IfElse? && Typed(m, e, scope) && EnvFits(env, scope)
    ensures var o := Eval(m, e, env, fuel);
      o.Normal? ==> EnvFits(o.env, scope) && (e.ty.Unit? ==> o.val == UnitVal)
    decreases fuel, e, 0
  {
    hide EnvFits, Fits, BlockFits;
    UnitSound(m, e.condition, scope, env, fuel);
    var o := Eval(m, e.condition, env, fuel);
    if o.Normal? {
      UnitSoundBlock(m, e.thenBlock, scope, o.env, fuel);
      if e.elseBlock.Some? {
        UnitSoundBlock(m, e.elseBlock.value, scope, o.env, fuel);
      }
    }
  }

  lemma {:induction false} UnitSoundLoop(m: Machine, e: Expr, scope: Scope, env: Env, fuel: nat)
    requires e.While? && Typed(m, e, scope) && EnvFits(env, scope)
    ensures var o := Eval(m, e, env, fuel); o.Normal? ==> EnvFits(o.env, scope) && o.val == UnitVal
    decreases fuel, e, 0
  {
    hide EnvFits, Fits, BlockFits;
    if fuel > 0 {
      UnitSound(m, e.condition, scope, env, fuel);
      var o := Eval(m, e.condition, env, fuel);
      if o.Normal? && IsTrue(o.val) {
        UnitSoundBlock(m, e.body, scope, o.env, fuel);
        var p := EvalBlock(m, e.body, o.env, fuel);
        if p.Normal? {
          UnitSoundLoop(m, e, scope, p.env, fuel - 1);
        }
      }
    }
  }

  lemma {:induction false} UnitSoundBlock(m: Machine, b: Block, scope: Scope, env: Env, fuel: nat)
    requires TypedBlock(m, b, scope) && EnvFits(env, scope)
    ensures var o := EvalBlock(m, b, env, fuel);
      Completes(o) ==> EnvFits(o.env, scope) && (b.ty.Unit? ==> o.Normal? && o.val == UnitVal)
    decreases fuel, b
  {
    UnitSoundStmts(m, b.stmts, scope, env, fuel);
    var o := EvalStmts(m, b.stmts, env, fuel);
    if o.Normal? && b.last.Some? {
      UnitSound(m, b.last.value, ScopeAfter(b.stmts, scope), o.env, fuel);
    }
  }

  lemma {:induction false} UnitSoundStmts(m: Machine, stmts: seq<Stmt>, scope: Scope, env: Env, fuel: nat)
    requires TypedStmts(m, stmts, scope) && EnvFits(env, scope)
    ensures forall x :: x in scope ==> x in ScopeAfter(stmts, scope) && ScopeAfter(stmts, scope)[x] == scope[x]
    ensures var o := EvalStmts(m, stmts, env, fuel);
      o.Normal? ==> EnvFits(o.env, ScopeAfter(stmts, scope)) && o.val == UnitVal
    decreases fuel, stmts
  {
    if stmts != [] {
      var after := ScopeAfterStmt(stmts[0], scope);
      UnitSoundStmt(m, stmts[0], scope, env, fuel);
      ScopeGrows(m, stmts[1..], after);
      var o := EvalStmt(m, stmts[0], env, fuel);
      if o.Normal? {
        UnitSoundStmts(m, stmts[1..], after, o.env, fuel);
      }
    }
  }

  lemma {:induction false} UnitSoundStmt(m: Machine, s: Stmt, scope: Scope, env: Env, fuel: nat)
    requires TypedStmt(m, s, scope) && EnvFits(env, scope)
    ensures var o := EvalStmt(m, s, env, fuel); o.Normal? ==> EnvFits(o.env, ScopeAfterStmt(s, scope))
    decreases fuel, s
  {
    match s
    case Let(x, ty, init) => UnitSound(m, init, scope, env, fuel);
    case ExprStmt(e) => UnitSound(m, e, scope, env, fuel);
  }

  lemma {:induction false} ScopeGrows(m: Machine, stmts: seq<Stmt>, scope: Scope)
    requires TypedStmts(m, stmts, scope)
    ensures forall x :: x in scope ==> x in ScopeAfter(stmts, scope) && ScopeAfter(stmts, scope)[x] == scope[x]
    decreases |stmts|
  {
    if stmts != [] {
      ScopeGrows(m, stmts[1..], ScopeAfterStmt(stmts[0], scope));
    }
  }
}

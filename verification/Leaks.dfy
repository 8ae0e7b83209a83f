/** When lowered code misses a drop, in terms of the source.

    Drops are missed in two places: at the end of a block that is flagged as
    diverging and completes all the same, and when a loop starts over while
    temporaries of its condition are still there. */
module Leaks {
  import opened Collections
  import opened Ast
  import Divergence
  import Mir

  // ------------------------------------------------- what frames are left with

  /** The value of the expression waits in a live temporary. */
  predicate Moves(e: Expr) {
    e.BlockExpr? || e.IfElse? || (e.BinOp? && (e.op.And? || e.op.Or?))
  }

  /** The type of that temporary. */
  function MovedType(e: Expr): Mir.Ty {
    match e
    case BlockExpr(b, _) => b.ty
    case IfElse(_, _, _, ty) => ty
    case _ => Mir.Bool
  }

  /** Lowering the expression leaves a managed temporary in its frame, other
      than the one its value waits in. */
  predicate Rest(e: Expr)
    decreases e, 0
  {
    match e
    case Return(None, _) => false
    case Return(Some(v), _) => Rest(v)
    case Literal(_) => false
    case BlockExpr(_, _) => false
    case Path(_, _) => false
    case Not(operand) => InVar(operand, Mir.Bool)
    case Negate(operand) => InVar(operand, TypeOf(operand))
    case Assign(_, _, rhs) => Rest(rhs)
    case BinOp(l, op, r) => !op.And? && !op.Or? && (InVar(l, TypeOf(l)) || InVar(r, TypeOf(r)))
    case IfElse(condition, _, _, _) => InVar(condition, Mir.Bool)
    case While(condition, _) => InVar(condition, Mir.Bool)
  }

  /** The same with the value in a variable, which counts too. */
  predicate InVar(e: Expr, ty: Mir.Ty)
    decreases e, 1
  {
    Rest(e) || (if Moves(e) then MovedType(e).Managed? else ty.Managed?)
  }

  predicate RestOf(stmts: seq<Stmt>) {
    stmts != [] && (RestOfStmt(stmts[0]) || RestOf(stmts[1..]))
  }

  predicate RestOfStmt(s: Stmt) {
    match s
    case Let(_, ty, init) => ty.Managed? || Rest(init)
    case ExprStmt(e) => Rest(e)
  }

  /** The frame of a block holds something managed when the block ends, apart
      from its result. */
  predicate Holds(b: Block) {
    RestOf(b.stmts) || (b.last.Some? && Rest(b.last.value))
  }

  // -------------------------------------------------------------------- leaks

  /** The evaluation misses a drop. */
  predicate Leaks(m: Mir.Machine, e: Expr, env: Env, fuel: nat)
    decreases fuel, e
  {
    match e
    case Return(None, _) => false
    case Return(Some(v), _) => Leaks(m, v, env, fuel)
    case Literal(_) => false
    case BlockExpr(b, _) => LeaksBlock(m, b, env, fuel)
    case Path(_, _) => false
    case Not(operand) => Leaks(m, operand, env, fuel)
    case Negate(operand) => Leaks(m, operand, env, fuel)
    case Assign(_, _, rhs) => Leaks(m, rhs, env, fuel)
    case BinOp(l, op, r) =>
      var o := Eval(m, l, env, fuel);
      || Leaks(m, l, env, fuel)
      || (GoesOn(l, op, o) && Leaks(m, r, o.env, fuel))
    case IfElse(condition, thenBlock, elseBlock, _) =>
      var o := Eval(m, condition, env, fuel);
      || Leaks(m, condition, env, fuel)
      || (o.Normal? && IsTrue(o.val) && LeaksBlock(m, thenBlock, o.env, fuel))
      || (o.Normal? && !IsTrue(o.val) && elseBlock.Some? && LeaksBlock(m, elseBlock.value, o.env, fuel))
    case While(condition, body) =>
      fuel > 0 &&
      var o := Eval(m, condition, env, fuel);
      || Leaks(m, condition, env, fuel)
      || (o.Normal? && IsTrue(o.val) && LeaksIteration(m, e, o.env, fuel))
  }

  /** From the body of a loop on: the iteration itself, and if it completes the
      temporaries of the condition and all that follows. */
  predicate LeaksIteration(m: Mir.Machine, e: Expr, env: Env, fuel: nat)
    requires e.While? && fuel > 0
    decreases fuel, e, 0
  {
    var p := EvalBlock(m, e.body, env, fuel);
    || LeaksBlock(m, e.body, env, fuel)
    || (p.Normal? && (InVar(e.condition, Mir.Bool) || Leaks(m, e, p.env, fuel - 1)))
  }

  predicate LeaksBlock(m: Mir.Machine, b: Block, env: Env, fuel: nat)
    decreases fuel, b
  {
    || LeaksInside(m, b, env, fuel)
    || (b.diverges && Holds(b) && Completes(EvalBlock(m, b, env, fuel)))
  }

  /** Before the end of the block. */
  predicate LeaksInside(m: Mir.Machine, b: Block, env: Env, fuel: nat)
    decreases fuel, b, 0
  {
    var o := EvalStmts(m, b.stmts, env, fuel);
    || LeaksStmts(m, b.stmts, env, fuel)
    || (o.Normal? && b.last.Some? && Leaks(m, b.last.value, o.env, fuel))
  }

  predicate LeaksStmts(m: Mir.Machine, stmts: seq<Stmt>, env: Env, fuel: nat)
    decreases fuel, stmts
  {
    stmts != [] &&
    var o := EvalStmt(m, stmts[0], env, fuel);
    || LeaksStmt(m, stmts[0], env, fuel)
    || (o.Normal? && LeaksStmts(m, stmts[1..], o.env, fuel))
  }

  predicate LeaksStmt(m: Mir.Machine, s: Stmt, env: Env, fuel: nat)
    decreases fuel, s
  {
    match s
    case Let(_, _, init) => Leaks(m, init, env, fuel)
    case ExprStmt(e) => Leaks(m, e, env, fuel)
  }

  /** More fuel finds no fewer leaks, and the same once the evaluation has
      ended. */
  lemma {:induction false} MoreLeaks(m: Mir.Machine, e: Expr, env: Env, fuel: nat)
    ensures Leaks(m, e, env, fuel) ==> Leaks(m, e, env, fuel + 1)
    ensures !Eval(m, e, env, fuel).Timeout? ==> (Leaks(m, e, env, fuel) <==> Leaks(m, e, env, fuel + 1))
    decreases fuel, e
  {
    match e
    case Return(None, _) =>
    case Return(Some(v), _) => MoreLeaks(m, v, env, fuel);
    case Literal(_) =>
    case BlockExpr(b, _) => MoreLeaksBlock(m, b, env, fuel);
    case Path(_, _) =>
    case Not(operand) => MoreLeaks(m, operand, env, fuel);
    case Negate(operand) => MoreLeaks(m, operand, env, fuel);
    case Assign(_, _, rhs) => MoreLeaks(m, rhs, env, fuel);
    case BinOp(l, op, r) =>
      var o := Eval(m, l, env, fuel);
      MoreLeaks(m, l, env, fuel);
      if !o.Timeout? { MoreFuel(m, l, env, fuel); }
      if Completes(o) { MoreLeaks(m, r, o.env, fuel); }
    case IfElse(condition, thenBlock, elseBlock, _) =>
      var o := Eval(m, condition, env, fuel);
      MoreLeaks(m, condition, env, fuel);
      if !o.Timeout? { MoreFuel(m, condition, env, fuel); }
      if o.Normal? {
        MoreLeaksBlock(m, thenBlock, o.env, fuel);
        if elseBlock.Some? { MoreLeaksBlock(m, elseBlock.value, o.env, fuel); }
      }
    case While(condition, body) =>
      if fuel > 0 { MoreLeaksLoop(m, e, env, fuel); }
  }

  lemma {:induction false} MoreLeaksLoop(m: Mir.Machine, e: Expr, env: Env, fuel: nat)
    requires e.While? && fuel > 0
    ensures Leaks(m, e, env, fuel) ==> Leaks(m, e, env, fuel + 1)
    ensures !Eval(m, e, env, fuel).Timeout? ==> (Leaks(m, e, env, fuel) <==> Leaks(m, e, env, fuel + 1))
    decreases fuel, e, 1
  {
    var o := Eval(m, e.condition, env, fuel);
    MoreLeaks(m, e.condition, env, fuel);
    if !o.Timeout? { MoreFuel(m, e.condition, env, fuel); }
    if o.Normal? && IsTrue(o.val) {
      MoreLeaksIteration(m, e, o.env, fuel);
    }
  }

  lemma {:induction false} MoreLeaksIteration(m: Mir.Machine, e: Expr, env: Env, fuel: nat)
    requires e.While? && fuel > 0
    ensures LeaksIteration(m, e, env, fuel) ==> LeaksIteration(m, e, env, fuel + 1)
    ensures var p := EvalBlock(m, e.body, env, fuel);
      !p.Timeout? && (p.Normal? ==> !Eval(m, e, p.env, fuel - 1).Timeout?) ==>
        (LeaksIteration(m, e, env, fuel) <==> LeaksIteration(m, e, env, fuel + 1))
    decreases fuel, e, 0
  {
    var p := EvalBlock(m, e.body, env, fuel);
    MoreLeaksBlock(m, e.body, env, fuel);
    if !p.Timeout? { MoreFuelBlock(m, e.body, env, fuel); }
    if p.Normal? { MoreLeaks(m, e, p.env, fuel - 1); }
  }

  lemma {:induction false} MoreLeaksBlock(m: Mir.Machine, b: Block, env: Env, fuel: nat)
    ensures LeaksBlock(m, b, env, fuel) ==> LeaksBlock(m, b, env, fuel + 1)
    ensures !EvalBlock(m, b, env, fuel).Timeout? ==> (LeaksBlock(m, b, env, fuel) <==> LeaksBlock(m, b, env, fuel + 1))
    decreases fuel, b
  {
    MoreLeaksInside(m, b, env, fuel);
    if !EvalBlock(m, b, env, fuel).Timeout? { MoreFuelBlock(m, b, env, fuel); }
  }

  lemma {:induction false} MoreLeaksInside(m: Mir.Machine, b: Block, env: Env, fuel: nat)
    ensures LeaksInside(m, b, env, fuel) ==> LeaksInside(m, b, env, fuel + 1)
    ensures !EvalBlock(m, b, env, fuel).Timeout? ==>
      (LeaksInside(m, b, env, fuel) <==> LeaksInside(m, b, env, fuel + 1))
    decreases fuel, b, 0
  {
    MoreLeaksStmts(m, b.stmts, env, fuel);
    var o := EvalStmts(m, b.stmts, env, fuel);
    if !o.Timeout? { MoreFuelStmts(m, b.stmts, env, fuel); }
    if o.Normal? && b.last.Some? { MoreLeaks(m, b.last.value, o.env, fuel); }
  }

  lemma {:induction false} MoreLeaksStmts(m: Mir.Machine, stmts: seq<Stmt>, env: Env, fuel: nat)
    ensures LeaksStmts(m, stmts, env, fuel) ==> LeaksStmts(m, stmts, env, fuel + 1)
    ensures !EvalStmts(m, stmts, env, fuel).Timeout? ==>
      (LeaksStmts(m, stmts, env, fuel) <==> LeaksStmts(m, stmts, env, fuel + 1))
    decreases fuel, stmts
  {
    if stmts != [] {
      var o := EvalStmt(m, stmts[0], env, fuel);
      MoreLeaksStmt(m, stmts[0], env, fuel);
      if !o.Timeout? { MoreFuelStmt(m, stmts[0], env, fuel); }
      if o.Normal? { MoreLeaksStmts(m, stmts[1..], o.env, fuel); }
    }
  }

  lemma {:induction false} MoreLeaksStmt(m: Mir.Machine, s: Stmt, env: Env, fuel: nat)
    ensures LeaksStmt(m, s, env, fuel) ==> LeaksStmt(m, s, env, fuel + 1)
    ensures !EvalStmt(m, s, env, fuel).Timeout? ==> (LeaksStmt(m, s, env, fuel) <==> LeaksStmt(m, s, env, fuel + 1))
    decreases fuel, s
  {
    match s
    case Let(_, _, init) => MoreLeaks(m, init, env, fuel);
    case ExprStmt(e) => MoreLeaks(m, e, env, fuel);
  }

  // -------------------------------------------------------------- a static guard

  /** Every flagged block that holds something managed, or from which another
      value is expected, must exit, and so must the body of every loop whose
      condition leaves something managed. */
  predicate Tidy(e: Expr)
    decreases e
  {
    match e
    case Return(None, _) => true
    case Return(Some(v), _) => Tidy(v)
    case Literal(_) => true
    case BlockExpr(b, ty) => TidyBranch(b, ty)
    case Path(_, _) => true
    case Not(operand) => Tidy(operand)
    case Negate(operand) => Tidy(operand)
    case Assign(_, _, rhs) => Tidy(rhs)
    case BinOp(l, _, r) => Tidy(l) && Tidy(r)
    case IfElse(condition, thenBlock, elseBlock, ty) =>
      && Tidy(condition) && TidyBranch(thenBlock, ty)
      && (elseBlock.Some? ==> TidyBranch(elseBlock.value, ty))
    case While(condition, body) =>
      Tidy(condition) && TidyBlock(body) && (InVar(condition, Mir.Bool) ==> Divergence.MustExitBlock(body))
  }

  predicate TidyBranch(b: Block, ty: Mir.Ty)
    decreases b, 1
  {
    TidyBlock(b) && (Slippery(b, ty) ==> Divergence.MustExitBlock(b))
  }

  predicate TidyBlock(b: Block)
    decreases b, 0
  {
    && TidyStmts(b.stmts) && (b.last.Some? ==> Tidy(b.last.value))
    && (b.diverges && Holds(b) ==> Divergence.MustExitBlock(b))
  }

  predicate TidyStmts(stmts: seq<Stmt>)
    decreases stmts
  {
    stmts != [] ==> TidyStmt(stmts[0]) && TidyStmts(stmts[1..])
  }

  predicate TidyStmt(s: Stmt)
    decreases s
  {
    match s
    case Let(_, _, init) => Tidy(init)
    case ExprStmt(e) => Tidy(e)
  }

  /** Tidy code misses no drop, whatever the operators do. */
  lemma {:induction false} TidyNeverLeaks(m: Mir.Machine, e: Expr, env: Env, fuel: nat)
    requires Tidy(e)
    ensures !Leaks(m, e, env, fuel)
    decreases fuel, e
  {
    match e
    case Return(None, _) =>
    case Return(Some(v), _) => TidyNeverLeaks(m, v, env, fuel);
    case Literal(_) =>
    case BlockExpr(b, _) => TidyBlockNeverLeaks(m, b, env, fuel);
    case Path(_, _) =>
    case Not(operand) => TidyNeverLeaks(m, operand, env, fuel);
    case Negate(operand) => TidyNeverLeaks(m, operand, env, fuel);
    case Assign(_, _, rhs) => TidyNeverLeaks(m, rhs, env, fuel);
    case BinOp(l, _, r) =>
      var o := Eval(m, l, env, fuel);
      TidyNeverLeaks(m, l, env, fuel);
      if Completes(o) { TidyNeverLeaks(m, r, o.env, fuel); }
    case IfElse(condition, thenBlock, elseBlock, _) =>
      var o := Eval(m, condition, env, fuel);
      TidyNeverLeaks(m, condition, env, fuel);
      if o.Normal? {
        TidyBlockNeverLeaks(m, thenBlock, o.env, fuel);
        if elseBlock.Some? { TidyBlockNeverLeaks(m, elseBlock.value, o.env, fuel); }
      }
    case While(condition, body) =>
      var o := Eval(m, condition, env, fuel);
      TidyNeverLeaks(m, condition, env, fuel);
      if fuel > 0 && o.Normal? {
        var p := EvalBlock(m, body, o.env, fuel);
        TidyBlockNeverLeaks(m, body, o.env, fuel);
        if InVar(condition, Mir.Bool) { Divergence.MustExitBlockIsSound(m, body, o.env, fuel); }
        if p.Normal? { TidyNeverLeaks(m, e, p.env, fuel - 1); }
      }
  }

  lemma {:induction false} TidyBlockNeverLeaks(m: Mir.Machine, b: Block, env: Env, fuel: nat)
    requires TidyBlock(b)
    ensures !LeaksBlock(m, b, env, fuel)
    decreases fuel, b
  {
    TidyStmtsNeverLeak(m, b.stmts, env, fuel);
    var o := EvalStmts(m, b.stmts, env, fuel);
    if o.Normal? && b.last.Some? { TidyNeverLeaks(m, b.last.value, o.env, fuel); }
    if b.diverges && Holds(b) { Divergence.MustExitBlockIsSound(m, b, env, fuel); }
  }

  lemma {:induction false} TidyStmtsNeverLeak(m: Mir.Machine, stmts: seq<Stmt>, env: Env, fuel: nat)
    requires TidyStmts(stmts)
    ensures !LeaksStmts(m, stmts, env, fuel)
    decreases fuel, stmts
  {
    if stmts != [] {
      var o := EvalStmt(m, stmts[0], env, fuel);
      TidyStmtNeverLeaks(m, stmts[0], env, fuel);
      if o.Normal? { TidyStmtsNeverLeak(m, stmts[1..], o.env, fuel); }
    }
  }

  lemma {:induction false} TidyStmtNeverLeaks(m: Mir.Machine, s: Stmt, env: Env, fuel: nat)
    requires TidyStmt(s)
    ensures !LeaksStmt(m, s, env, fuel)
    decreases fuel, s
  {
    match s
    case Let(_, _, init) => TidyNeverLeaks(m, init, env, fuel);
    case ExprStmt(e) => TidyNeverLeaks(m, e, env, fuel);
  }

  /** Tidy code never comes to the end of a block where another value is
      expected. */
  lemma {:induction false} TidyNeverSlips(m: Mir.Machine, e: Expr, scope: Scope, env: Env, fuel: nat)
    requires Typed(m, e, scope) && Tidy(e)
    ensures !Eval(m, e, env, fuel).Slipped? && !Eval(m, e, env, fuel).Void?
    decreases fuel, e
  {
    match e
    case Return(None, _) =>
    case Return(Some(v), _) => TidyNeverSlips(m, v, scope, env, fuel);
    case Literal(_) =>
    case BlockExpr(b, ty) => TidyBranchNeverSlips(m, b, ty, scope, env, fuel);
    case Path(_, _) =>
    case Not(operand) => TidyNeverSlips(m, operand, scope, env, fuel);
    case Negate(operand) => TidyNeverSlips(m, operand, scope, env, fuel);
    case Assign(_, _, rhs) => TidyNeverSlips(m, rhs, scope, env, fuel);
    case BinOp(l, _, r) =>
      var o := Eval(m, l, env, fuel);
      TidyNeverSlips(m, l, scope, env, fuel);
      if o.Normal? { TidyNeverSlips(m, r, scope, o.env, fuel); }
    case IfElse(_, _, _, _) => TidyIfNeverSlips(m, e, scope, env, fuel);
    case While(_, _) => TidyLoopNeverSlips(m, e, scope, env, fuel);
  }

  lemma {:induction false} TidyIfNeverSlips(m: Mir.Machine, e: Expr, scope: Scope, env: Env, fuel: nat)
    requires e.IfElse? && Typed(m, e, scope) && Tidy(e)
    ensures !Eval(m, e, env, fuel).Slipped? && !Eval(m, e, env, fuel).Void?
    decreases fuel, e, 0
  {
    var o := Eval(m, e.condition, env, fuel);
    TidyNeverSlips(m, e.condition, scope, env, fuel);
    if o.Normal? {
      TidyBranchNeverSlips(m, e.thenBlock, e.ty, scope, o.env, fuel);
      if e.elseBlock.Some? { TidyBranchNeverSlips(m, e.elseBlock.value, e.ty, scope, o.env, fuel); }
    }
  }

  lemma {:induction false} TidyLoopNeverSlips(m: Mir.Machine, e: Expr, scope: Scope, env: Env, fuel: nat)
    requires e.While? && Typed(m, e, scope) && Tidy(e)
    ensures !Eval(m, e, env, fuel).Slipped? && !Eval(m, e, env, fuel).Void?
    decreases fuel, e, 0
  {
    var o := Eval(m, e.condition, env, fuel);
    TidyNeverSlips(m, e.condition, scope, env, fuel);
    if fuel > 0 && o.Normal? {
      var p := EvalBlock(m, e.body, o.env, fuel);
      TidyBlockNeverSlips(m, e.body, scope, o.env, fuel);
      if p.Normal? { TidyNeverSlips(m, e, scope, p.env, fuel - 1); }
    }
  }

  lemma {:induction false} TidyBranchNeverSlips(m: Mir.Machine, b: Block, ty: Mir.Ty, scope: Scope, env: Env, fuel: nat)
    requires TypedBlock(m, b, scope) && (BlockFits(m, b, ty) || Slippery(b, ty)) && TidyBranch(b, ty)
    ensures !Expecting(EvalBlock(m, b, env, fuel), b.ty, ty).Slipped?
    decreases fuel, b, 1
  {
    TidyBlockNeverSlips(m, b, scope, env, fuel);
    if Slippery(b, ty) { Divergence.MustExitBlockIsSound(m, b, env, fuel); }
  }

  lemma {:induction false} TidyBlockNeverSlips(m: Mir.Machine, b: Block, scope: Scope, env: Env, fuel: nat)
    requires TypedBlock(m, b, scope) && TidyBlock(b)
    ensures !EvalBlock(m, b, env, fuel).Slipped? && !EvalBlock(m, b, env, fuel).Void?
    decreases fuel, b, 0
  {
    TidyStmtsNeverSlip(m, b.stmts, scope, env, fuel);
    var o := EvalStmts(m, b.stmts, env, fuel);
    if o.Normal? && b.last.Some? { TidyNeverSlips(m, b.last.value, ScopeAfter(b.stmts, scope), o.env, fuel); }
  }

  lemma {:induction false} TidyStmtsNeverSlip(m: Mir.Machine, stmts: seq<Stmt>, scope: Scope, env: Env, fuel: nat)
    requires TypedStmts(m, stmts, scope) && TidyStmts(stmts)
    ensures !EvalStmts(m, stmts, env, fuel).Slipped?
    decreases fuel, stmts
  {
    if stmts != [] {
      var o := EvalStmt(m, stmts[0], env, fuel);
      TidyStmtNeverSlips(m, stmts[0], scope, env, fuel);
      if o.Normal? { TidyStmtsNeverSlip(m, stmts[1..], ScopeAfterStmt(stmts[0], scope), o.env, fuel); }
    }
  }

  lemma {:induction false} TidyStmtNeverSlips(m: Mir.Machine, s: Stmt, scope: Scope, env: Env, fuel: nat)
    requires TypedStmt(m, s, scope) && TidyStmt(s)
    ensures !EvalStmt(m, s, env, fuel).Slipped?
    decreases fuel, s
  {
    match s
    case Let(_, _, init) => TidyNeverSlips(m, init, scope, env, fuel);
    case ExprStmt(e) => TidyNeverSlips(m, e, scope, env, fuel);
  }

  // ------------------------------------------------------- flags to be trusted

  /** Flags are those the checker records, every flagged block is reliable, and
      no loop condition leaves anything managed. */
  predicate Trusted(e: Expr)
    decreases e
  {
    match e
    case Return(None, _) => true
    case Return(Some(v), _) => Trusted(v)
    case Literal(_) => true
    case BlockExpr(b, _) => TrustedBlock(b)
    case Path(_, _) => true
    case Not(operand) => Trusted(operand)
    case Negate(operand) => Trusted(operand)
    case Assign(_, _, rhs) => Trusted(rhs)
    case BinOp(l, _, r) => Trusted(l) && Trusted(r)
    case IfElse(condition, thenBlock, elseBlock, _) =>
      Trusted(condition) && TrustedBlock(thenBlock) && (elseBlock.Some? ==> TrustedBlock(elseBlock.value))
    case While(condition, body) => Trusted(condition) && TrustedBlock(body) && !InVar(condition, Mir.Bool)
  }

  predicate TrustedBlock(b: Block)
    decreases b
  {
    && TrustedStmts(b.stmts) && (b.last.Some? ==> Trusted(b.last.value))
    && b.diverges == Divergence.DivergesBlock(b) && (b.diverges ==> Divergence.ReliableBlock(b))
  }

  predicate TrustedStmts(stmts: seq<Stmt>)
    decreases stmts
  {
    stmts != [] ==> TrustedStmt(stmts[0]) && TrustedStmts(stmts[1..])
  }

  predicate TrustedStmt(s: Stmt)
    decreases s
  {
    match s
    case Let(_, _, init) => Trusted(init)
    case ExprStmt(e) => Trusted(e)
  }

  lemma {:induction false} TrustedIsTidy(e: Expr)
    requires Trusted(e)
    ensures Tidy(e)
    decreases e
  {
    match e
    case Return(None, _) =>
    case Return(Some(v), _) => TrustedIsTidy(v);
    case Literal(_) =>
    case BlockExpr(b, _) => TrustedBlockIsTidy(b);
    case Path(_, _) =>
    case Not(operand) => TrustedIsTidy(operand);
    case Negate(operand) => TrustedIsTidy(operand);
    case Assign(_, _, rhs) => TrustedIsTidy(rhs);
    case BinOp(l, _, r) =>
      TrustedIsTidy(l);
      TrustedIsTidy(r);
    case IfElse(condition, thenBlock, elseBlock, _) =>
      TrustedIsTidy(condition);
      TrustedBlockIsTidy(thenBlock);
      if elseBlock.Some? { TrustedBlockIsTidy(elseBlock.value); }
    case While(condition, body) =>
      TrustedIsTidy(condition);
      TrustedBlockIsTidy(body);
  }

  /** A reliable flag means that the block must exit. */
  lemma {:induction false} TrustedBlockIsTidy(b: Block)
    requires TrustedBlock(b)
    ensures TidyBlock(b) && (b.diverges ==> Divergence.MustExitBlock(b))
    decreases b
  {
    TrustedStmtsAreTidy(b.stmts);
    if b.last.Some? { TrustedIsTidy(b.last.value); }
    if b.diverges { Divergence.ReliableBlockMustExit(b); }
  }

  lemma {:induction false} TrustedStmtsAreTidy(stmts: seq<Stmt>)
    requires TrustedStmts(stmts)
    ensures TidyStmts(stmts)
    decreases stmts
  {
    if stmts != [] {
      TrustedStmtIsTidy(stmts[0]);
      TrustedStmtsAreTidy(stmts[1..]);
    }
  }

  lemma {:induction false} TrustedStmtIsTidy(s: Stmt)
    requires TrustedStmt(s)
    ensures TidyStmt(s)
    decreases s
  {
    match s
    case Let(_, _, init) => TrustedIsTidy(init);
    case ExprStmt(e) => TrustedIsTidy(e);
  }

  /** No return, no flagged block, and no loop condition that leaves anything
      managed. */
  predicate Harmless(e: Expr)
    decreases e
  {
    match e
    case Return(_, _) => false
    case Literal(_) => true
    case BlockExpr(b, _) => HarmlessBlock(b)
    case Path(_, _) => true
    case Not(operand) => Harmless(operand)
    case Negate(operand) => Harmless(operand)
    case Assign(_, _, rhs) => Harmless(rhs)
    case BinOp(l, _, r) => Harmless(l) && Harmless(r)
    case IfElse(condition, thenBlock, elseBlock, _) =>
      Harmless(condition) && HarmlessBlock(thenBlock) && (elseBlock.Some? ==> HarmlessBlock(elseBlock.value))
    case While(condition, body) => Harmless(condition) && HarmlessBlock(body) && !InVar(condition, Mir.Bool)
  }

  predicate HarmlessBlock(b: Block)
    decreases b
  {
    !b.diverges && HarmlessStmts(b.stmts) && (b.last.Some? ==> Harmless(b.last.value))
  }

  predicate HarmlessStmts(stmts: seq<Stmt>)
    decreases stmts
  {
    stmts != [] ==> HarmlessStmt(stmts[0]) && HarmlessStmts(stmts[1..])
  }

  predicate HarmlessStmt(s: Stmt)
    decreases s
  {
    match s
    case Let(_, _, init) => Harmless(init)
    case ExprStmt(e) => Harmless(e)
  }

  /** Code without a return may be trusted, and nothing in it is flagged. */
  lemma {:induction false} HarmlessIsTrusted(e: Expr)
    requires Harmless(e)
    ensures Trusted(e) && !Divergence.Diverges(e)
    decreases e
  {
    match e
    case Literal(_) =>
    case BlockExpr(b, _) => HarmlessBlockIsTrusted(b);
    case Path(_, _) =>
    case Not(operand) => HarmlessIsTrusted(operand);
    case Negate(operand) => HarmlessIsTrusted(operand);
    case Assign(_, _, rhs) => HarmlessIsTrusted(rhs);
    case BinOp(l, _, r) =>
      HarmlessIsTrusted(l);
      HarmlessIsTrusted(r);
    case IfElse(condition, thenBlock, elseBlock, _) =>
      HarmlessIsTrusted(condition);
      HarmlessBlockIsTrusted(thenBlock);
      if elseBlock.Some? { HarmlessBlockIsTrusted(elseBlock.value); }
    case While(condition, body) =>
      HarmlessIsTrusted(condition);
      HarmlessBlockIsTrusted(body);
  }

  lemma {:induction false} HarmlessBlockIsTrusted(b: Block)
    requires HarmlessBlock(b)
    ensures TrustedBlock(b) && !Divergence.DivergesBlock(b)
    decreases b
  {
    HarmlessStmtsAreTrusted(b.stmts);
    if b.last.Some? { HarmlessIsTrusted(b.last.value); }
  }

  lemma {:induction false} HarmlessStmtsAreTrusted(stmts: seq<Stmt>)
    requires HarmlessStmts(stmts)
    ensures TrustedStmts(stmts) && !Divergence.DivergesStmts(stmts)
    decreases stmts
  {
    if stmts != [] {
      HarmlessStmtIsTrusted(stmts[0]);
      HarmlessStmtsAreTrusted(stmts[1..]);
    }
  }

  lemma {:induction false} HarmlessStmtIsTrusted(s: Stmt)
    requires HarmlessStmt(s)
    ensures TrustedStmt(s) && !Divergence.DivergesStmt(s)
    decreases s
  {
    match s
    case Let(_, _, init) => HarmlessIsTrusted(init);
    case ExprStmt(e) => HarmlessIsTrusted(e);
  }
}

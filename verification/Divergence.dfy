/** The divergence flag of the type checker (src/typechecker/expr.rs): a block
    or expression is flagged if control should not reach its end.  Lowering
    drops nothing at the end of a flagged block. */
module Divergence {
  import opened Collections
  import opened Ast
  import Mir
  import Ops = Precedence

  // ------------------------------------------------- what the checker records

  predicate Diverges(e: Expr)
    decreases e
  {
    match e
    case Return(_, _) => true
    case Literal(_) => false
    case BlockExpr(b, _) => DivergesBlock(b)
    case Path(_, _) => false
    case Not(operand) => Diverges(operand)
    case Negate(operand) => Diverges(operand)
    case Assign(_, _, rhs) => Diverges(rhs)
    case BinOp(l, _, r) => Diverges(l) || Diverges(r)
    case IfElse(_, thenBlock, elseBlock, _) => elseBlock.Some? && DivergesBlock(thenBlock)
      && DivergesBlock(elseBlock.value)
    case While(condition, body) => Diverges(condition) || DivergesBlock(body)
  }

  predicate DivergesBlock(b: Block)
    decreases b
  {
    DivergesStmts(b.stmts) || (b.last.Some? && Diverges(b.last.value))
  }

  predicate DivergesStmts(stmts: seq<Stmt>)
    decreases stmts
  {
    stmts != [] && (DivergesStmt(stmts[0]) || DivergesStmts(stmts[1..]))
  }

  predicate DivergesStmt(s: Stmt)
    decreases s
  {
    match s
    case Let(_, _, init) => Diverges(init)
    case ExprStmt(e) => Diverges(e)
  }

  // ------------------------------------------------------- what must be left

  /** Control leaves the expression for good, whatever the operators do. */
  predicate MustExit(e: Expr)
    decreases e
  {
    match e
    case Return(_, _) => true
    case Literal(_) => false
    case BlockExpr(b, _) => MustExitBlock(b)
    case Path(_, _) => false
    case Not(operand) => MustExit(operand)
    case Negate(operand) => MustExit(operand)
    case Assign(_, _, rhs) => MustExit(rhs)
    case BinOp(l, op, r) => MustExit(l) || (!op.And? && !op.Or? && MustExit(r))
    case IfElse(condition, thenBlock, elseBlock, _) =>
      MustExit(condition) || (elseBlock.Some? && MustExitBlock(thenBlock) && MustExitBlock(elseBlock.value))
    case While(condition, _) => MustExit(condition)
  }

  predicate MustExitBlock(b: Block)
    decreases b
  {
    MustExitStmts(b.stmts) || (b.last.Some? && MustExit(b.last.value))
  }

  predicate MustExitStmts(stmts: seq<Stmt>)
    decreases stmts
  {
    stmts != [] && (MustExitStmt(stmts[0]) || MustExitStmts(stmts[1..]))
  }

  predicate MustExitStmt(s: Stmt)
    decreases s
  {
    match s
    case Let(_, _, init) => MustExit(init)
    case ExprStmt(e) => MustExit(e)
  }

  lemma {:induction false} MustExitIsSound(m: Mir.Machine, e: Expr, env: Env, fuel: nat)
    requires MustExit(e)
    ensures !Completes(Eval(m, e, env, fuel))
    decreases e
  {
    match e
    case Return(None, _) =>
    case Return(Some(v), _) =>
    case BlockExpr(b, _) => MustExitBlockIsSound(m, b, env, fuel);
    case Not(operand) => MustExitIsSound(m, operand, env, fuel);
    case Negate(operand) => MustExitIsSound(m, operand, env, fuel);
    case Assign(_, _, rhs) => MustExitIsSound(m, rhs, env, fuel);
    case BinOp(l, op, r) =>
      if MustExit(l) {
        MustExitIsSound(m, l, env, fuel);
      } else {
        var o := Eval(m, l, env, fuel);
        if Completes(o) { MustExitIsSound(m, r, o.env, fuel); }
      }
    case IfElse(condition, thenBlock, elseBlock, _) =>
      if MustExit(condition) {
        MustExitIsSound(m, condition, env, fuel);
      } else {
        var o := Eval(m, condition, env, fuel);
        if o.Normal? {
          MustExitBlockIsSound(m, thenBlock, o.env, fuel);
          MustExitBlockIsSound(m, elseBlock.value, o.env, fuel);
        }
      }
    case While(condition, _) => MustExitIsSound(m, condition, env, fuel);
  }

  lemma {:induction false} MustExitBlockIsSound(m: Mir.Machine, b: Block, env: Env, fuel: nat)
    requires MustExitBlock(b)
    ensures !Completes(EvalBlock(m, b, env, fuel))
    decreases b
  {
    if MustExitStmts(b.stmts) {
      MustExitStmtsIsSound(m, b.stmts, env, fuel);
    } else {
      var o := EvalStmts(m, b.stmts, env, fuel);
      if o.Normal? { MustExitIsSound(m, b.last.value, o.env, fuel); }
    }
  }

  lemma {:induction false} MustExitStmtsIsSound(m: Mir.Machine, stmts: seq<Stmt>, env: Env, fuel: nat)
    requires MustExitStmts(stmts)
    ensures !EvalStmts(m, stmts, env, fuel).Normal?
    decreases stmts
  {
    if MustExitStmt(stmts[0]) {
      MustExitStmtIsSound(m, stmts[0], env, fuel);
    } else {
      var o := EvalStmt(m, stmts[0], env, fuel);
      if o.Normal? { MustExitStmtsIsSound(m, stmts[1..], o.env, fuel); }
    }
  }

  lemma {:induction false} MustExitStmtIsSound(m: Mir.Machine, s: Stmt, env: Env, fuel: nat)
    requires MustExitStmt(s)
    ensures !EvalStmt(m, s, env, fuel).Normal?
    decreases s
  {
    match s
    case Let(_, _, init) => MustExitIsSound(m, init, env, fuel);
    case ExprStmt(e) => MustExitIsSound(m, e, env, fuel);
  }

  // ------------------------------------------------- when a flag is reliable

  /** No operand on the right of && or ||, and no loop body, is flagged. */
  predicate Reliable(e: Expr)
    decreases e
  {
    match e
    case Return(_, _) => true
    case Literal(_) => true
    case BlockExpr(b, _) => ReliableBlock(b)
    case Path(_, _) => true
    case Not(operand) => Reliable(operand)
    case Negate(operand) => Reliable(operand)
    case Assign(_, _, rhs) => Reliable(rhs)
    case BinOp(l, op, r) => Reliable(l) && (if op.And? || op.Or? then !Diverges(r) else Reliable(r))
    case IfElse(_, thenBlock, elseBlock, _) =>
      elseBlock.Some? ==> ReliableBlock(thenBlock) && ReliableBlock(elseBlock.value)
    case While(condition, body) => Reliable(condition) && !DivergesBlock(body)
  }

  predicate ReliableBlock(b: Block)
    decreases b
  {
    ReliableStmts(b.stmts) && (b.last.Some? ==> Reliable(b.last.value))
  }

  predicate ReliableStmts(stmts: seq<Stmt>)
    decreases stmts
  {
    stmts != [] ==> ReliableStmt(stmts[0]) && ReliableStmts(stmts[1..])
  }

  predicate ReliableStmt(s: Stmt)
    decreases s
  {
    match s
    case Let(_, _, init) => Reliable(init)
    case ExprStmt(e) => Reliable(e)
  }

  /** A flag that comes neither from a right operand of && or || nor from a
      loop body is right, whatever the operators do. */
  lemma {:induction false} ReliableMustExit(e: Expr)
    requires Diverges(e) && Reliable(e)
    ensures MustExit(e)
    decreases e
  {
    match e
    case Return(_, _) =>
    case BlockExpr(b, _) => ReliableBlockMustExit(b);
    case Not(operand) => ReliableMustExit(operand);
    case Negate(operand) => ReliableMustExit(operand);
    case Assign(_, _, rhs) => ReliableMustExit(rhs);
    case BinOp(l, op, r) =>
      if Diverges(l) { ReliableMustExit(l); } else { ReliableMustExit(r); }
    case IfElse(_, thenBlock, elseBlock, _) =>
      ReliableBlockMustExit(thenBlock);
      ReliableBlockMustExit(elseBlock.value);
    case While(condition, _) => ReliableMustExit(condition);
  }

  lemma {:induction false} ReliableBlockMustExit(b: Block)
    requires DivergesBlock(b) && ReliableBlock(b)
    ensures MustExitBlock(b)
    decreases b
  {
    if DivergesStmts(b.stmts) { ReliableStmtsMustExit(b.stmts); } else { ReliableMustExit(b.last.value); }
  }

  lemma {:induction false} ReliableStmtsMustExit(stmts: seq<Stmt>)
    requires DivergesStmts(stmts) && ReliableStmts(stmts)
    ensures MustExitStmts(stmts)
    decreases stmts
  {
    if DivergesStmt(stmts[0]) { ReliableStmtMustExit(stmts[0]); } else { ReliableStmtsMustExit(stmts[1..]); }
  }

  lemma {:induction false} ReliableStmtMustExit(s: Stmt)
    requires DivergesStmt(s) && ReliableStmt(s)
    ensures MustExitStmt(s)
    decreases s
  {
    match s
    case Let(_, _, init) => ReliableMustExit(init);
    case ExprStmt(e) => ReliableMustExit(e);
  }

  lemma {:induction false} FlagIsSound(m: Mir.Machine, e: Expr, env: Env, fuel: nat)
    requires Diverges(e) && Reliable(e)
    ensures !Completes(Eval(m, e, env, fuel))
  {
    ReliableMustExit(e);
    MustExitIsSound(m, e, env, fuel);
  }

  /** The condition under which the flag of a block may be trusted. */
  lemma {:induction false} ReliableFlagsAreTrue(m: Mir.Machine, b: Block)
    requires b.diverges == DivergesBlock(b) && ReliableBlock(b)
    ensures b.diverges ==> MustExitBlock(b) && BlockNeverCompletes(m, b)
  {
    if b.diverges {
      ReliableBlockMustExit(b);
      forall env, fuel
        ensures !Completes(EvalBlock(m, b, env, fuel))
      {
        MustExitBlockIsSound(m, b, env, fuel);
      }
    }
  }

  // --------------------------------------------------- when a flag must be set

  /** No if has a condition that must exit: the flag of an if ignores it. */
  predicate PlainIfs(e: Expr)
    decreases e
  {
    match e
    case Return(None, _) => true
    case Return(Some(v), _) => PlainIfs(v)
    case Literal(_) => true
    case BlockExpr(b, _) => PlainIfsBlock(b)
    case Path(_, _) => true
    case Not(operand) => PlainIfs(operand)
    case Negate(operand) => PlainIfs(operand)
    case Assign(_, _, rhs) => PlainIfs(rhs)
    case BinOp(l, _, r) => PlainIfs(l) && PlainIfs(r)
    case IfElse(condition, thenBlock, elseBlock, _) =>
      !MustExit(condition) && PlainIfsBlock(thenBlock) && (elseBlock.Some? ==> PlainIfsBlock(elseBlock.value))
    case While(condition, body) => PlainIfs(condition) && PlainIfsBlock(body)
  }

  predicate PlainIfsBlock(b: Block)
    decreases b
  {
    PlainIfsStmts(b.stmts) && (b.last.Some? ==> PlainIfs(b.last.value))
  }

  predicate PlainIfsStmts(stmts: seq<Stmt>)
    decreases stmts
  {
    stmts != [] ==> PlainIfsStmt(stmts[0]) && PlainIfsStmts(stmts[1..])
  }

  predicate PlainIfsStmt(s: Stmt)
    decreases s
  {
    match s
    case Let(_, _, init) => PlainIfs(init)
    case ExprStmt(e) => PlainIfs(e)
  }

  /** What must exit without relying on the condition of an if is flagged. */
  lemma {:induction false} ExitIsFlagged(e: Expr)
    requires MustExit(e) && PlainIfs(e)
    ensures Diverges(e)
    decreases e
  {
    match e
    case Return(_, _) =>
    case BlockExpr(b, _) => BlockExitIsFlagged(b);
    case Not(operand) => ExitIsFlagged(operand);
    case Negate(operand) => ExitIsFlagged(operand);
    case Assign(_, _, rhs) => ExitIsFlagged(rhs);
    case BinOp(l, _, r) =>
      if MustExit(l) { ExitIsFlagged(l); } else { ExitIsFlagged(r); }
    case IfElse(_, thenBlock, elseBlock, _) =>
      BlockExitIsFlagged(thenBlock);
      BlockExitIsFlagged(elseBlock.value);
    case While(condition, _) => ExitIsFlagged(condition);
  }

  lemma {:induction false} BlockExitIsFlagged(b: Block)
    requires MustExitBlock(b) && PlainIfsBlock(b)
    ensures DivergesBlock(b)
    decreases b
  {
    if MustExitStmts(b.stmts) { StmtsExitIsFlagged(b.stmts); } else { ExitIsFlagged(b.last.value); }
  }

  lemma {:induction false} StmtsExitIsFlagged(stmts: seq<Stmt>)
    requires MustExitStmts(stmts) && PlainIfsStmts(stmts)
    ensures DivergesStmts(stmts)
    decreases stmts
  {
    if MustExitStmt(stmts[0]) { StmtExitIsFlagged(stmts[0]); } else { StmtsExitIsFlagged(stmts[1..]); }
  }

  lemma {:induction false} StmtExitIsFlagged(s: Stmt)
    requires MustExitStmt(s) && PlainIfsStmt(s)
    ensures DivergesStmt(s)
    decreases s
  {
    match s
    case Let(_, _, init) => ExitIsFlagged(init);
    case ExprStmt(e) => ExitIsFlagged(e);
  }

  /** A reliable flag is set exactly if the block must exit, where no if relies
      on its condition. */
  lemma {:induction false} FlagIsExact(b: Block)
    requires ReliableBlock(b) && PlainIfsBlock(b)
    ensures DivergesBlock(b) <==> MustExitBlock(b)
  {
    if DivergesBlock(b) { ReliableBlockMustExit(b); }
    if MustExitBlock(b) { BlockExitIsFlagged(b); }
  }

  /** An if whose condition exits is left for good, but its flag says nothing
      about that. */
  lemma {:induction false} ConditionIsIgnored(m: Mir.Machine, condition: Expr, b: Block, ty: Mir.Ty)
    requires MustExit(condition)
    ensures NeverCompletes(m, IfElse(condition, b, None, ty)) && !Diverges(IfElse(condition, b, None, ty))
  {
    forall env, fuel
      ensures !Completes(Eval(m, IfElse(condition, b, None, ty), env, fuel))
    {
      MustExitIsSound(m, IfElse(condition, b, None, ty), env, fuel);
    }
  }

  predicate HasReturn(e: Expr)
    decreases e
  {
    match e
    case Return(_, _) => true
    case Literal(_) => false
    case BlockExpr(b, _) => HasReturnBlock(b)
    case Path(_, _) => false
    case Not(operand) => HasReturn(operand)
    case Negate(operand) => HasReturn(operand)
    case Assign(_, _, rhs) => HasReturn(rhs)
    case BinOp(l, _, r) => HasReturn(l) || HasReturn(r)
    case IfElse(condition, thenBlock, elseBlock, _) =>
      HasReturn(condition) || HasReturnBlock(thenBlock) || (elseBlock.Some? && HasReturnBlock(elseBlock.value))
    case While(condition, body) => HasReturn(condition) || HasReturnBlock(body)
  }

  predicate HasReturnBlock(b: Block)
    decreases b
  {
    HasReturnStmts(b.stmts) || (b.last.Some? && HasReturn(b.last.value))
  }

  predicate HasReturnStmts(stmts: seq<Stmt>)
    decreases stmts
  {
    stmts != [] && (HasReturnStmt(stmts[0]) || HasReturnStmts(stmts[1..]))
  }

  predicate HasReturnStmt(s: Stmt)
    decreases s
  {
    match s
    case Let(_, _, init) => HasReturn(init)
    case ExprStmt(e) => HasReturn(e)
  }

  /** Without a return nothing is flagged. */
  lemma {:induction false} FlagHasReturn(e: Expr)
    requires Diverges(e)
    ensures HasReturn(e)
    decreases e
  {
    match e
    case Return(_, _) =>
    case BlockExpr(b, _) => BlockFlagHasReturn(b);
    case Not(operand) => FlagHasReturn(operand);
    case Negate(operand) => FlagHasReturn(operand);
    case Assign(_, _, rhs) => FlagHasReturn(rhs);
    case BinOp(l, _, r) =>
      if Diverges(l) { FlagHasReturn(l); } else { FlagHasReturn(r); }
    case IfElse(_, thenBlock, _, _) => BlockFlagHasReturn(thenBlock);
    case While(condition, body) =>
      if Diverges(condition) { FlagHasReturn(condition); } else { BlockFlagHasReturn(body); }
  }

  lemma {:induction false} BlockFlagHasReturn(b: Block)
    requires DivergesBlock(b)
    ensures HasReturnBlock(b)
    decreases b
  {
    if DivergesStmts(b.stmts) { StmtsFlagHasReturn(b.stmts); } else { FlagHasReturn(b.last.value); }
  }

  lemma {:induction false} StmtsFlagHasReturn(stmts: seq<Stmt>)
    requires DivergesStmts(stmts)
    ensures HasReturnStmts(stmts)
    decreases stmts
  {
    if DivergesStmt(stmts[0]) { StmtFlagHasReturn(stmts[0]); } else { StmtsFlagHasReturn(stmts[1..]); }
  }

  lemma {:induction false} StmtFlagHasReturn(s: Stmt)
    requires DivergesStmt(s)
    ensures HasReturnStmt(s)
    decreases s
  {
    match s
    case Let(_, _, init) => FlagHasReturn(init);
    case ExprStmt(e) => FlagHasReturn(e);
  }

  // -------------------------------------------------------- when it is wrong

  ghost predicate AlwaysTrue(m: Mir.Machine, e: Expr) {
    forall env, fuel :: var o := Eval(m, e, env, fuel); o.Normal? ==> IsTrue(o.val)
  }

  ghost predicate AlwaysFalse(m: Mir.Machine, e: Expr) {
    forall env, fuel :: var o := Eval(m, e, env, fuel); o.Normal? ==> !IsTrue(o.val)
  }

  /** && and || with a flagged right operand are flagged; the flag is right
      exactly if the left operand never decides the result. */
  lemma {:induction false} FlaggedOperand(m: Mir.Machine, l: Expr, op: Ops.BinOp, r: Expr)
    requires (op.And? || op.Or?) && Diverges(r) && NeverCompletes(m, r)
    ensures Diverges(BinOp(l, op, r))
    ensures NeverCompletes(m, BinOp(l, op, r)) <==> if op.And? then AlwaysTrue(m, l) else AlwaysFalse(m, l)
  {
    var e := BinOp(l, op, r);
    forall env, fuel
      ensures var o := Eval(m, l, env, fuel);
        Completes(Eval(m, e, env, fuel)) <==> o.Normal? && (IsTrue(o.val) <==> op.Or?)
    {
      var o := Eval(m, l, env, fuel);
      if o.Normal? {
        assert !Completes(Eval(m, r, o.env, fuel));
      }
    }
  }

  /** A loop with a flagged body is flagged; the flag is right exactly if the
      condition is true whenever it is evaluated. */
  lemma {:induction false} FlaggedBody(m: Mir.Machine, condition: Expr, body: Block)
    requires DivergesBlock(body) && BlockNeverCompletes(m, body)
    ensures Diverges(While(condition, body))
    ensures NeverCompletes(m, While(condition, body)) <==> AlwaysTrue(m, condition)
  {
    var e := While(condition, body);
    forall env, fuel: nat
      ensures Completes(Eval(m, e, env, fuel)) <==>
        fuel > 0 && var o := Eval(m, condition, env, fuel); o.Normal? && !IsTrue(o.val)
    {
      if fuel > 0 {
        var o := Eval(m, condition, env, fuel);
        if o.Normal? {
          assert !Completes(EvalBlock(m, body, o.env, fuel));
        }
      }
    }
    if NeverCompletes(m, e) {
      forall env, fuel: nat
        ensures var o := Eval(m, condition, env, fuel); o.Normal? ==> IsTrue(o.val)
      {
        if Eval(m, condition, env, fuel).Normal? {
          MoreFuel(m, condition, env, fuel);
          assert !Completes(Eval(m, e, env, fuel + 1));
        }
      }
    }
  }
}

/** The operator parser (src/parser/expr.rs, binop_expr and peek_binop).

    Everything that the parser below the operators produces (negation, access,
    parenthesised expressions) is one Operand token here. */
module Operators {
  import opened Collections
  import opened Precedence

  datatype Token =
    | Operand(id: nat)
    | AmpAmp | PipePipe | EqEq | BangEq
    | AngleLeft | AngleLeftEq | AngleRight | AngleRightEq
    | Plus | Hyphen | Star | Slash | Percent
    | OtherToken(id: nat)

  datatype Tree = Leaf(id: nat) | Node(left: Tree, op: BinOp, right: Tree)

  datatype ParseError = ExpectedOperand | CannotBeChained(op: BinOp, previous: BinOp)

  datatype Result = Ok(tree: Tree, rest: seq<Token>) | Err(error: ParseError)

  function BinOpOf(token: Token): Option<BinOp> {
    match token
    case AmpAmp => Some(And)
    case PipePipe => Some(Or)
    case EqEq => Some(Eq)
    case BangEq => Some(Ne)
    case AngleLeftEq => Some(Le)
    case AngleRightEq => Some(Ge)
    case AngleLeft => Some(Lt)
    case AngleRight => Some(Gt)
    case Plus => Some(Add)
    case Hyphen => Some(Sub)
    case Star => Some(Mul)
    case Slash => Some(Div)
    case Percent => Some(Mod)
    case _ => None
  }

  /** The spelling of an operator: the inverse of BinOpOf. */
  function Spelling(op: BinOp): (token: Token)
    ensures BinOpOf(token) == Some(op)
  {
    match op
    case And => AmpAmp
    case Or => PipePipe
    case Eq => EqEq
    case Ne => BangEq
    case Lt => AngleLeft
    case Le => AngleLeftEq
    case Gt => AngleRight
    case Ge => AngleRightEq
    case Add => Plus
    case Sub => Hyphen
    case Mul => Star
    case Div => Slash
    case Mod => Percent
  }

  lemma {:induction false} SpellingIsInverse(token: Token, op: BinOp)
    ensures BinOpOf(token) == Some(op) <==> token == Spelling(op)
  {
  }

  // ------------------------------------------------------------------ trees

  function Flatten(t: Tree): (tokens: seq<Token>)
    ensures tokens != []
  {
    match t
    case Leaf(id) => [Operand(id)]
    case Node(l, op, r) => Flatten(l) + [Spelling(op)] + Flatten(r)
  }

  /** Each node binds its operands as the relative associativity demands. */
  predicate WellFormed(t: Tree) {
    match t
    case Leaf(_) => true
    case Node(l, op, r) =>
      && WellFormed(l) && WellFormed(r)
      && (l.Node? ==> RelativeAssociativity(l.op, op) == Left)
      && (r.Node? ==> RelativeAssociativity(op, r.op) == Right)
  }

  /** An operator that may be parsed below the previous one. */
  predicate BindsTighter(previous: Option<BinOp>, op: BinOp) {
    previous.None? || RelativeAssociativity(previous.value, op) == Right
  }

  predicate Fits(previous: Option<BinOp>, t: Tree) {
    t.Node? ==> BindsTighter(previous, t.op)
  }

  // -------------------------------------------------------------- algorithm

  function PeekBinop(tokens: seq<Token>): Option<BinOp> {
    if tokens == [] then None else BinOpOf(tokens[0])
  }

  /** binop_expr as a function of the remaining tokens. */
  function BinopExpr(previous: Option<BinOp>, tokens: seq<Token>): (r: Result)
    ensures r.Ok? ==> |r.rest| < |tokens|
    decreases |tokens|, 0
  {
    if tokens == [] || !tokens[0].Operand? then
      Err(ExpectedOperand)
    else
      BinopLoop(previous, Leaf(tokens[0].id), tokens[1..])
  }

  /** The loop of binop_expr. */
  function BinopLoop(previous: Option<BinOp>, lhs: Tree, tokens: seq<Token>): (r: Result)
    ensures r.Ok? ==> |r.rest| <= |tokens|
    decreases |tokens|, 1
  {
    match PeekBinop(tokens)
    case None => Ok(lhs, tokens)
    case Some(op) =>
      var associativity := if previous.None? then Right else RelativeAssociativity(previous.value, op);
      match associativity
      case Left => Ok(lhs, tokens)
      case Incompatible => Err(CannotBeChained(op, previous.value))
      case Right =>
        var rhs := BinopExpr(Some(op), tokens[1..]);
        if rhs.Err? then rhs else BinopLoop(previous, Node(lhs, op, rhs.tree), rhs.rest)
  }

  /** The parser over a mutable position in the token stream. */
  class Parser {
    const tokens: seq<Token>
    var position: nat

    constructor (tokens: seq<Token>)
      ensures this.tokens == tokens && position == 0
    {
      this.tokens := tokens;
      position := 0;
    }

    ghost predicate Valid()
      reads this
    {
      position <= |tokens|
    }

    function Remaining(): seq<Token>
      requires Valid()
      reads this
    {
      tokens[position..]
    }

    method ParseBinopExpr(previous: Option<BinOp>) returns (r: Result)
      requires Valid()
      modifies this
      ensures Valid() && old(position) <= position
      ensures r == BinopExpr(previous, old(Remaining()))
      ensures r.Ok? ==> r.rest == Remaining()
      decreases |tokens| - position
    {
      hide RelativeAssociativity, BinOpOf;
      if position == |tokens| || !tokens[position].Operand? {
        return Err(ExpectedOperand);
      }
      var lhs := Leaf(tokens[position].id);
      position := position + 1;
      while position < |tokens|
        invariant Valid() && old(position) < position
        invariant BinopExpr(previous, old(Remaining())) == BinopLoop(previous, lhs, Remaining())
        decreases |tokens| - position
      {
        var peeked := BinOpOf(tokens[position]);
        if peeked.None? {
          break;
        }
        var operator := peeked.value;
        if previous.Some? {
          var associativity := RelativeAssociativity(previous.value, operator);
          if associativity == Left {
            break;
          }
          if associativity == Incompatible {
            position := position + 1;
            return Err(CannotBeChained(operator, previous.value));
          }
        }
        position := position + 1;
        var rhs := ParseBinopExpr(Some(operator));
        if rhs.Err? {
          return rhs;
        }
        lhs := Node(lhs, operator, rhs.tree);
      }
      return Ok(lhs, Remaining());
    }
  }

  // -------------------------------------------------------------- soundness

  /** What follows a parsed expression does not belong to it. */
  predicate Stops(previous: Option<BinOp>, rest: seq<Token>) {
    var next := PeekBinop(rest);
    next.None? || (previous.Some? && RelativeAssociativity(previous.value, next.value) == Left)
  }

  lemma {:induction false} BinopExprSound(previous: Option<BinOp>, tokens: seq<Token>)
    ensures var r := BinopExpr(previous, tokens);
      r.Ok? ==>
        WellFormed(r.tree) && Fits(previous, r.tree) && Flatten(r.tree) + r.rest == tokens && Stops(previous, r.rest)
    decreases |tokens|, 0
  {
    if tokens != [] && tokens[0].Operand? {
      var leaf := Leaf(tokens[0].id);
      BinopLoopSound(previous, leaf, tokens[1..]);
      assert Flatten(leaf) + tokens[1..] == tokens;
    }
  }

  lemma {:induction false} FlattenNode(l: Tree, op: BinOp, r: Tree, rest: seq<Token>)
    ensures Flatten(Node(l, op, r)) + rest == Flatten(l) + ([Spelling(op)] + (Flatten(r) + rest))
  {
    assert Flatten(Node(l, op, r)) == Flatten(l) + [Spelling(op)] + Flatten(r);
  }

  lemma {:induction false} BinopLoopSound(previous: Option<BinOp>, lhs: Tree, tokens: seq<Token>)
    requires WellFormed(lhs) && Fits(previous, lhs)
    requires lhs.Node? ==> Stops(Some(lhs.op), tokens)
    ensures var r := BinopLoop(previous, lhs, tokens);
      r.Ok? ==>
        && WellFormed(r.tree) && Fits(previous, r.tree) && Flatten(r.tree) + r.rest == Flatten(lhs) + tokens
        && Stops(previous, r.rest)
    decreases |tokens|, 1
  {
    var next := PeekBinop(tokens);
    if next.Some? && BindsTighter(previous, next.value) {
      var op := next.value;
      SpellingIsInverse(tokens[0], op);
      var rhs := BinopExpr(Some(op), tokens[1..]);
      BinopExprSound(Some(op), tokens[1..]);
      if rhs.Ok? {
        var node := Node(lhs, op, rhs.tree);
        FlattenNode(lhs, op, rhs.tree, rhs.rest);
        assert tokens == [Spelling(op)] + tokens[1..];
        BinopLoopSound(previous, node, rhs.rest);
      }
    }
  }

  // ----------------------------------------------------------- completeness

  /** What may be parsed below an operator may be parsed with its whole left
      spine. */
  lemma {:induction false} TighterLeft(previous: Option<BinOp>, op: BinOp, left: BinOp)
    requires BindsTighter(previous, op) && RelativeAssociativity(left, op) == Left
    ensures BindsTighter(previous, left)
  {
  }

  /** What stops an operator stops everything on its right spine. */
  lemma {:induction false} StopsRight(op: BinOp, right: BinOp, rest: seq<Token>)
    requires Stops(Some(op), rest) && RelativeAssociativity(op, right) == Right
    ensures Stops(Some(right), rest)
  {
  }

  lemma {:induction false} ParserFollowsTree(previous: Option<BinOp>, t: Tree, rest: seq<Token>)
    requires WellFormed(t) && Fits(previous, t)
    requires t.Node? ==> Stops(Some(t.op), rest)
    ensures BinopExpr(previous, Flatten(t) + rest) == BinopLoop(previous, t, rest)
    decreases t
  {
    match t
    case Leaf(id) =>
      assert (Flatten(t) + rest)[1..] == rest;
    case Node(l, op, r) =>
      var afterOp := Flatten(r) + rest;
      var afterLeft := [Spelling(op)] + afterOp;
      FlattenNode(l, op, r, rest);
      assert afterLeft[1..] == afterOp;
      if l.Node? {
        TighterLeft(previous, op, l.op);
      }
      ParserFollowsTree(previous, l, afterLeft);
      if r.Node? {
        StopsRight(op, r.op, rest);
      }
      ParserFollowsTree(Some(op), r, rest);
      assert BinopLoop(Some(op), r, rest) == Ok(r, rest);
  }

  /** Parsing what a well-formed tree flattens to returns that tree. */
  lemma {:induction false} RoundTrip(t: Tree, rest: seq<Token>)
    requires WellFormed(t) && PeekBinop(rest).None?
    ensures BinopExpr(None, Flatten(t) + rest) == Ok(t, rest)
  {
    ParserFollowsTree(None, t, rest);
  }

  /** The parser returns a tree exactly when it is a well-formed reading of the
      longest operator expression the tokens start with. */
  lemma {:induction false} ParserIsExact(tokens: seq<Token>, t: Tree, rest: seq<Token>)
    ensures BinopExpr(None, tokens) == Ok(t, rest) <==>
      WellFormed(t) && tokens == Flatten(t) + rest && PeekBinop(rest).None?
  {
    BinopExprSound(None, tokens);
    if WellFormed(t) && tokens == Flatten(t) + rest && PeekBinop(rest).None? {
      RoundTrip(t, rest);
    }
  }

  lemma {:induction false} ReadingIsUnique(t: Tree, u: Tree)
    requires WellFormed(t) && WellFormed(u) && Flatten(t) == Flatten(u)
    ensures t == u
  {
    RoundTrip(t, []);
    RoundTrip(u, []);
  }

  // -------------------------------------------------------------- rejection

  /** The tokens of atom (op atom)*. */
  function Infix(atoms: seq<nat>, ops: seq<BinOp>): seq<Token>
    requires |atoms| == |ops| + 1
    decreases |ops|, 1
  {
    [Operand(atoms[0])] + Tail(atoms, ops)
  }

  function Tail(atoms: seq<nat>, ops: seq<BinOp>): seq<Token>
    requires |atoms| == |ops| + 1
    decreases |ops|, 0
  {
    if ops == [] then [] else [Spelling(ops[0])] + Infix(atoms[1..], ops[1..])
  }

  predicate IsLogical(op: BinOp) { PrecedenceOf(op) == Logical }

  predicate IsComparison(op: BinOp) { PrecedenceOf(op) == Comparison }

  /** Two comparisons with no logical operator between them. */
  ghost predicate ChainedComparisons(ops: seq<BinOp>) {
    exists i, j :: 0 <= i < j < |ops| && ChainedAt(ops, i, j)
  }

  ghost predicate ChainedAt(ops: seq<BinOp>, i: nat, j: nat)
    requires i < j < |ops|
  {
    IsComparison(ops[i]) && IsComparison(ops[j]) && NoLogical(ops[i + 1..j])
  }

  ghost predicate NoLogical(ops: seq<BinOp>) {
    forall op :: op in ops ==> !IsLogical(op)
  }

  ghost predicate Ambiguous(ops: seq<BinOp>) {
    (And in ops && Or in ops) || ChainedComparisons(ops)
  }

  lemma {:induction false} AmbiguousSuffix(before: seq<BinOp>, ops: seq<BinOp>)
    requires Ambiguous(ops)
    ensures Ambiguous(before + ops)
  {
    if ChainedComparisons(ops) {
      var i, j :| 0 <= i < j < |ops| && ChainedAt(ops, i, j);
      var n := |before|;
      assert (before + ops)[n + i] == ops[i] && (before + ops)[n + j] == ops[j];
      assert (before + ops)[n + i + 1..n + j] == ops[i + 1..j];
      assert ChainedAt(before + ops, n + i, n + j);
    }
  }

  /** The operators seen by a call of binop_expr, its lower bound first. */
  function WithPrevious(previous: Option<BinOp>, ops: seq<BinOp>): seq<BinOp> {
    if previous.None? then ops else [previous.value] + ops
  }

  ghost predicate AllTighter(previous: Option<BinOp>, ops: seq<BinOp>) {
    forall op :: op in ops ==> BindsTighter(previous, op)
  }

  lemma {:induction false} IncompatibleIsAmbiguous(previous: BinOp, consumed: seq<BinOp>,
      next: BinOp, after: seq<BinOp>)
    requires AllTighter(Some(previous), consumed)
    requires RelativeAssociativity(previous, next) == Incompatible
    ensures Ambiguous([previous] + consumed + [next] + after)
  {
    var ops := [previous] + consumed + [next] + after;
    assert ops[0] == previous && ops[|consumed| + 1] == next;
    if IsComparison(previous) {
      assert ops[1..|consumed| + 1] == consumed;
      assert ChainedAt(ops, 0, |consumed| + 1);
    }
  }

  /** r fails on an ambiguous sequence, or stops in front of the operators
      left, having taken only operators that bind tighter than its bound. */
  ghost predicate Consumes(previous: Option<BinOp>, before: seq<BinOp>, ops: seq<BinOp>, r: Result,
                           taken: seq<BinOp>, atomsLeft: seq<nat>, opsLeft: seq<BinOp>)
  {
    if r.Err? then
      r.error.CannotBeChained? && Ambiguous(WithPrevious(previous, before + ops))
    else
      && |atomsLeft| == |opsLeft| + 1
      && ops == taken + opsLeft
      && r.rest == Tail(atomsLeft, opsLeft)
      && AllTighter(previous, taken)
  }

  lemma {:induction false} ExprConsumes(previous: Option<BinOp>, atoms: seq<nat>, ops: seq<BinOp>)
    returns (taken: seq<BinOp>, atomsLeft: seq<nat>, opsLeft: seq<BinOp>)
    requires |atoms| == |ops| + 1
    ensures Consumes(previous, [], ops, BinopExpr(previous, Infix(atoms, ops)), taken, atomsLeft, opsLeft)
    decreases |ops|, 1
  {
    assert Infix(atoms, ops)[1..] == Tail(atoms, ops);
    taken, atomsLeft, opsLeft := LoopConsumes(previous, Leaf(atoms[0]), [], atoms, ops);
  }

  /** One turn of the loop on operators and atoms. */
  lemma {:induction false} LoopOnTail(previous: Option<BinOp>, lhs: Tree, atoms: seq<nat>, ops: seq<BinOp>)
    requires |atoms| == |ops| + 1 && ops != []
    ensures var op := ops[0];
      var rhs := BinopExpr(Some(op), Infix(atoms[1..], ops[1..]));
      BinopLoop(previous, lhs, Tail(atoms, ops)) ==
        if BindsTighter(previous, op) then
          (if rhs.Err? then rhs else BinopLoop(previous, Node(lhs, op, rhs.tree), rhs.rest))
        else if RelativeAssociativity(previous.value, op) == Incompatible then Err(CannotBeChained(op, previous.value))
        else Ok(lhs, Tail(atoms, ops))
  {
    hide BinopExpr, Infix, RelativeAssociativity;
    var tokens := Tail(atoms, ops);
    assert tokens[0] == Spelling(ops[0]);
    assert tokens[1..] == Infix(atoms[1..], ops[1..]);
  }

  lemma {:induction false} LoopConsumes(previous: Option<BinOp>, lhs: Tree, before: seq<BinOp>,
      atoms: seq<nat>, ops: seq<BinOp>)
    returns (taken: seq<BinOp>, atomsLeft: seq<nat>, opsLeft: seq<BinOp>)
    requires |atoms| == |ops| + 1
    requires AllTighter(previous, before)
    ensures Consumes(previous, before, ops, BinopLoop(previous, lhs, Tail(atoms, ops)), taken, atomsLeft, opsLeft)
    decreases |ops|, 0
  {
    hide BinopExpr, BinopLoop, Infix, Tail, Ambiguous, AllTighter, BindsTighter, RelativeAssociativity, Consumes;
    taken, atomsLeft, opsLeft := [], atoms, ops;
    if ops == [] || !BindsTighter(previous, ops[0]) {
      LoopEnds(previous, lhs, before, atoms, ops);
    } else {
      var op := ops[0];
      var inner, atoms', ops' := ExprConsumes(Some(op), atoms[1..], ops[1..]);
      var rhs := BinopExpr(Some(op), Infix(atoms[1..], ops[1..]));
      if rhs.Err? {
        OperandFails(previous, lhs, before, atoms, ops, inner, atoms', ops');
      } else {
        OperandTaken(previous, lhs, before, atoms, ops, inner, atoms', ops');
        var node := Node(lhs, op, rhs.tree);
        var more;
        more, atomsLeft, opsLeft := LoopConsumes(previous, node, before + [op] + inner, atoms', ops');
        taken := [op] + inner + more;
        ConsumedMore(previous, before, op, inner, ops', BinopLoop(previous, node, rhs.rest), more, atomsLeft, opsLeft);
      }
    }
  }

  /** The loop stops in front of an operator that does not bind tighter. */
  lemma {:induction false} LoopEnds(previous: Option<BinOp>, lhs: Tree, before: seq<BinOp>,
      atoms: seq<nat>, ops: seq<BinOp>)
    requires |atoms| == |ops| + 1 && AllTighter(previous, before) && (ops != [] ==> !BindsTighter(previous, ops[0]))
    ensures Consumes(previous, before, ops, BinopLoop(previous, lhs, Tail(atoms, ops)), [], atoms, ops)
  {
    if ops == [] {
    } else {
      hide BinopExpr, BinopLoop, Infix, Tail, Ambiguous, RelativeAssociativity;
      var op, after := ops[0], ops[1..];
      LoopOnTail(previous, lhs, atoms, ops);
      if RelativeAssociativity(previous.value, op) == Incompatible {
        assert WithPrevious(previous, before + ops) == [previous.value] + before + [op] + after;
        IncompatibleIsAmbiguous(previous.value, before, op, after);
      }
    }
  }

  /** The right operand is rejected. */
  lemma {:induction false} OperandFails(previous: Option<BinOp>, lhs: Tree, before: seq<BinOp>, atoms: seq<nat>,
      ops: seq<BinOp>, inner: seq<BinOp>, atomsLeft: seq<nat>, opsLeft: seq<BinOp>)
    requires |atoms| == |ops| + 1 && ops != [] && BindsTighter(previous, ops[0])
    requires var rhs := BinopExpr(Some(ops[0]), Infix(atoms[1..], ops[1..]));
      rhs.Err? && Consumes(Some(ops[0]), [], ops[1..], rhs, inner, atomsLeft, opsLeft)
    ensures Consumes(previous, before, ops, BinopLoop(previous, lhs, Tail(atoms, ops)), [], atoms, ops)
  {
    hide BinopExpr, BinopLoop, Infix, Tail, Ambiguous, BindsTighter, RelativeAssociativity, AllTighter;
    LoopOnTail(previous, lhs, atoms, ops);
    assert WithPrevious(Some(ops[0]), [] + ops[1..]) == ops;
    AmbiguousAfter(previous, before, ops);
  }

  /** The right operand takes the operators in inner. */
  lemma {:induction false} OperandTaken(previous: Option<BinOp>, lhs: Tree, before: seq<BinOp>, atoms: seq<nat>,
      ops: seq<BinOp>, inner: seq<BinOp>, atomsLeft: seq<nat>, opsLeft: seq<BinOp>)
    requires |atoms| == |ops| + 1 && ops != [] && BindsTighter(previous, ops[0]) && AllTighter(previous, before)
    requires var rhs := BinopExpr(Some(ops[0]), Infix(atoms[1..], ops[1..]));
      rhs.Ok? && Consumes(Some(ops[0]), [], ops[1..], rhs, inner, atomsLeft, opsLeft)
    ensures |atomsLeft| == |opsLeft| + 1 && |opsLeft| < |ops| && ops == [ops[0]] + (inner + opsLeft)
    ensures AllTighter(previous, inner) && AllTighter(previous, before + [ops[0]] + inner)
    ensures var rhs := BinopExpr(Some(ops[0]), Infix(atoms[1..], ops[1..]));
      BinopLoop(previous, lhs, Tail(atoms, ops)) ==
        BinopLoop(previous, Node(lhs, ops[0], rhs.tree), Tail(atomsLeft, opsLeft))
      && rhs.rest == Tail(atomsLeft, opsLeft)
  {
    hide BinopExpr, BinopLoop, Infix, Tail, BindsTighter, RelativeAssociativity, AllTighter;
    LoopOnTail(previous, lhs, atoms, ops);
    TighterTransitive(previous, ops[0], inner);
    AllTighterMore(previous, before, ops[0], inner);
  }

  lemma {:induction false} AllTighterMore(previous: Option<BinOp>, before: seq<BinOp>, op: BinOp, inner: seq<BinOp>)
    requires AllTighter(previous, before) && BindsTighter(previous, op) && AllTighter(previous, inner)
    ensures AllTighter(previous, before + [op] + inner)
  {
    hide BindsTighter;
  }

  lemma {:induction false} ConsumedMore(previous: Option<BinOp>, before: seq<BinOp>, op: BinOp, inner: seq<BinOp>,
      ops: seq<BinOp>, r: Result,
                     more: seq<BinOp>, atomsLeft: seq<nat>, opsLeft: seq<BinOp>)
    requires BindsTighter(previous, op) && AllTighter(previous, inner)
    requires Consumes(previous, before + [op] + inner, ops, r, more, atomsLeft, opsLeft)
    ensures Consumes(previous, before, [op] + (inner + ops), r, [op] + inner + more, atomsLeft, opsLeft)
  {
    assert before + [op] + inner + ops == before + ([op] + (inner + ops));
    if r.Ok? {
      assert [op] + (inner + ops) == [op] + inner + more + opsLeft;
    }
  }

  lemma {:induction false} AmbiguousAfter(previous: Option<BinOp>, before: seq<BinOp>, ops: seq<BinOp>)
    requires Ambiguous(ops)
    ensures Ambiguous(WithPrevious(previous, before + ops))
  {
    assert WithPrevious(previous, before + ops) == WithPrevious(previous, before) + ops;
    AmbiguousSuffix(WithPrevious(previous, before), ops);
  }

  lemma {:induction false} TighterTransitive(previous: Option<BinOp>, op: BinOp, ops: seq<BinOp>)
    requires BindsTighter(previous, op) && AllTighter(Some(op), ops)
    ensures AllTighter(previous, ops)
  {
  }

  function OpsOf(t: Tree): seq<BinOp> {
    match t
    case Leaf(_) => []
    case Node(l, op, r) => OpsOf(l) + [op] + OpsOf(r)
  }

  function AtomsOf(t: Tree): (atoms: seq<nat>)
    ensures |atoms| == |OpsOf(t)| + 1
  {
    match t
    case Leaf(id) => [id]
    case Node(l, op, r) => AtomsOf(l) + AtomsOf(r)
  }

  lemma {:induction false} InfixUnfold(a: seq<nat>, ops: seq<BinOp>)
    requires |a| == |ops| + 1 && ops != []
    ensures Infix(a, ops) == [Operand(a[0]), Spelling(ops[0])] + Infix(a[1..], ops[1..])
  {
  }

  lemma {:induction false} InfixOne(a: nat, op: BinOp, b: seq<nat>, more: seq<BinOp>)
    requires |b| == |more| + 1
    ensures Infix([a] + b, [op] + more) == Infix([a], []) + ([Spelling(op)] + Infix(b, more))
  {
    InfixUnfold([a] + b, [op] + more);
    assert ([a] + b)[1..] == b && ([op] + more)[1..] == more;
    assert Infix([a], []) == [Operand(a)];
  }

  lemma {:induction false} InfixJoin(a: seq<nat>, ops: seq<BinOp>, op: BinOp, b: seq<nat>, more: seq<BinOp>)
    requires |a| == |ops| + 1 && |b| == |more| + 1
    ensures Infix(a + b, ops + [op] + more) == Infix(a, ops) + ([Spelling(op)] + Infix(b, more))
    decreases |ops|
  {
    hide Infix;
    var whole := ops + [op] + more;
    var end := [Spelling(op)] + Infix(b, more);
    if ops == [] {
      assert a == [a[0]] && whole == [op] + more;
      InfixOne(a[0], op, b, more);
    } else {
      var first := [Operand(a[0]), Spelling(ops[0])];
      InfixJoin(a[1..], ops[1..], op, b, more);
      assert (a + b)[1..] == a[1..] + b && whole[1..] == ops[1..] + [op] + more;
      var inner := Infix(a[1..], ops[1..]);
      assert whole[0] == ops[0] && (a + b)[0] == a[0];
      InfixUnfold(a + b, whole);
      InfixUnfold(a, ops);
      assert first + (inner + end) == (first + inner) + end;
    }
  }

  lemma {:induction false} FlattenIsInfix(t: Tree)
    ensures Flatten(t) == Infix(AtomsOf(t), OpsOf(t))
  {
    if t.Node? {
      FlattenIsInfix(t.left);
      FlattenIsInfix(t.right);
      InfixJoin(AtomsOf(t.left), OpsOf(t.left), t.op, AtomsOf(t.right), OpsOf(t.right));
    }
  }

  lemma {:induction false} InfixInjective(a: seq<nat>, ops: seq<BinOp>, b: seq<nat>, more: seq<BinOp>)
    requires |a| == |ops| + 1 && |b| == |more| + 1
    requires Infix(a, ops) == Infix(b, more)
    ensures a == b && ops == more
    decreases |ops|
  {
    var s, t := Infix(a, ops), Infix(b, more);
    assert s[0] == Operand(a[0]) && t[0] == Operand(b[0]);
    assert s[1..] == Tail(a, ops) && t[1..] == Tail(b, more);
    if ops != [] && more != [] {
      SpellingIsInverse(Spelling(ops[0]), more[0]);
      assert s[1..][0] == Spelling(ops[0]) && t[1..][0] == Spelling(more[0]);
      assert s[1..][1..] == Infix(a[1..], ops[1..]) && t[1..][1..] == Infix(b[1..], more[1..]);
      InfixInjective(a[1..], ops[1..], b[1..], more[1..]);
      assert ops == [ops[0]] + ops[1..] && more == [more[0]] + more[1..];
    }
    assert a == [a[0]] + a[1..] && b == [b[0]] + b[1..];
  }

  /** The operators of a well-formed tree bind at least as tightly as its root;
      only a logical operator may be repeated at its own level. */
  ghost predicate RootDominates(root: BinOp, op: BinOp) {
    && Rank(PrecedenceOf(root)) <= Rank(PrecedenceOf(op))
    && (IsLogical(root) && IsLogical(op) ==> op == root)
  }

  lemma {:induction false} WellFormedDominated(t: Tree)
    requires WellFormed(t) && t.Node?
    ensures forall op :: op in OpsOf(t) ==> RootDominates(t.op, op)
  {
    if t.left.Node? { WellFormedDominated(t.left); }
    if t.right.Node? { WellFormedDominated(t.right); }
  }

  lemma {:induction false} WellFormedIsUnambiguous(t: Tree)
    requires WellFormed(t)
    ensures !Ambiguous(OpsOf(t))
  {
    if t.Node? {
      WellFormedIsUnambiguous(t.left);
      WellFormedIsUnambiguous(t.right);
      WellFormedDominated(t);
      var l, ops := OpsOf(t.left), OpsOf(t);
      forall i, j | 0 <= i < j < |ops|
        ensures !ChainedAt(ops, i, j)
      {
        if IsComparison(ops[i]) && IsComparison(ops[j]) {
          ComparisonsApart(t, i, j);
        }
      }
    }
  }

  lemma {:induction false} ComparisonsApart(t: Tree, i: nat, j: nat)
    requires WellFormed(t) && t.Node?
    requires !Ambiguous(OpsOf(t.left)) && !Ambiguous(OpsOf(t.right))
    requires i < j < |OpsOf(t)| && IsComparison(OpsOf(t)[i]) && IsComparison(OpsOf(t)[j])
    ensures !NoLogical(OpsOf(t)[i + 1..j])
  {
    ChildrenApart(t);
    JoinedApart(OpsOf(t.left), t.op, OpsOf(t.right), i, j);
  }

  /** Next to a comparison at the root there is no other comparison. */
  lemma {:induction false} ChildrenApart(t: Tree)
    requires WellFormed(t) && t.Node?
    ensures forall op :: op in OpsOf(t.left) || op in OpsOf(t.right) ==>
      IsLogical(t.op) || !(IsComparison(t.op) && IsComparison(op))
    ensures forall op :: op in OpsOf(t.left) || op in OpsOf(t.right) ==>
      IsLogical(t.op) || IsComparison(t.op) || !IsComparison(op)
  {
    if t.left.Node? { WellFormedDominated(t.left); }
    if t.right.Node? { WellFormedDominated(t.right); }
  }

  lemma {:induction false} JoinedApart(l: seq<BinOp>, op: BinOp, r: seq<BinOp>, i: nat, j: nat)
    requires !ChainedComparisons(l) && !ChainedComparisons(r)
    requires !IsLogical(op) ==> forall o :: o in l || o in r ==> !IsComparison(op) || !IsComparison(o)
    requires !IsLogical(op) && !IsComparison(op) ==> forall o :: o in l || o in r ==> !IsComparison(o)
    requires i < j < |l + [op] + r| && IsComparison((l + [op] + r)[i]) && IsComparison((l + [op] + r)[j])
    ensures !NoLogical((l + [op] + r)[i + 1..j])
  {
    var ops := l + [op] + r;
    var n := |l|;
    hide NoLogical, ChainedComparisons;
    JoinedParts(l, op, r);
    if j < n {
      PartApart(ops, 0, l, i, j);
    } else if i > n {
      PartApart(ops, n + 1, r, i, j);
    } else if i < n < j {
      LogicalBetween(ops, i, n, j);
    }
  }

  lemma {:induction false} PartApart(ops: seq<BinOp>, start: nat, part: seq<BinOp>, i: nat, j: nat)
    requires start + |part| <= |ops| && ops[start..start + |part|] == part && !ChainedComparisons(part)
    requires start <= i < j < start + |part| && IsComparison(ops[i]) && IsComparison(ops[j])
    ensures !NoLogical(ops[i + 1..j])
  {
    hide IsComparison, NoLogical;
    var a, b := i - start, j - start;
    assert part[a] == ops[i] && part[b] == ops[j];
    SliceOfSlice(ops, start, start + |part|, a + 1, b);
    assert !ChainedAt(part, a, b);
  }

  lemma {:induction false} SliceOfSlice(ops: seq<BinOp>, start: nat, end: nat, a: nat, b: nat)
    requires start <= end <= |ops| && a <= b <= end - start
    ensures ops[start..end][a..b] == ops[start + a..start + b]
  {
    forall k | 0 <= k < b - a
      ensures ops[start..end][a..b][k] == ops[start + a..start + b][k]
    {
    }
  }

  lemma {:induction false} LogicalBetween(ops: seq<BinOp>, i: nat, n: nat, j: nat)
    requires i < n < j <= |ops| && IsLogical(ops[n])
    ensures !NoLogical(ops[i + 1..j])
  {
    assert ops[i + 1..j][n - i - 1] == ops[n];
  }

  lemma {:induction false} JoinedParts(l: seq<BinOp>, op: BinOp, r: seq<BinOp>)
    ensures var ops, n := l + [op] + r, |l|;
      && ops[..n] == l && ops[0..n] == l && ops[n] == op && ops[n + 1..] == r && ops[n + 1..n + 1 + |r|] == r
      && (forall k :: 0 <= k < n ==> ops[k] == l[k] && ops[k] in l)
      && (forall k :: n < k < |ops| ==> ops[k] == r[k - n - 1] && ops[k] in r)
  {
    var ops, n := l + [op] + r, |l|;
    forall k | n < k < |ops|
      ensures ops[k] == r[k - n - 1] && ops[k] in r
    {
      assert r[k - n - 1] in r;
    }
  }

  lemma {:induction false} TailEnds(atoms: seq<nat>, ops: seq<BinOp>)
    requires |atoms| == |ops| + 1
    ensures PeekBinop(Tail(atoms, ops)).None? <==> ops == []
  {
  }

  /** A sequence atom (op atom)* is rejected exactly when its operators contain
      both && and ||, or two comparisons with no logical operator between
      them; otherwise it is consumed completely. */
  lemma {:induction false} RejectsExactlyAmbiguous(atoms: seq<nat>, ops: seq<BinOp>)
    requires |atoms| == |ops| + 1
    ensures var r := BinopExpr(None, Infix(atoms, ops));
      (r.Err? <==> Ambiguous(ops)) && (r.Err? ==> r.error.CannotBeChained?)
    ensures !Ambiguous(ops) ==> BinopExpr(None, Infix(atoms, ops)).rest == []
  {
    var tokens := Infix(atoms, ops);
    var r := BinopExpr(None, tokens);
    var taken, atomsLeft, opsLeft := ExprConsumes(None, atoms, ops);
    BinopExprSound(None, tokens);
    assert [] + ops == ops;
    if r.Ok? {
      TailEnds(atomsLeft, opsLeft);
      assert Flatten(r.tree) + [] == Flatten(r.tree);
      assert Flatten(r.tree) == tokens;
      FlattenIsInfix(r.tree);
      InfixInjective(AtomsOf(r.tree), OpsOf(r.tree), atoms, ops);
      WellFormedIsUnambiguous(r.tree);
    }
  }
}

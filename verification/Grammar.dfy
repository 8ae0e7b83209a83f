/** The grammar of operator expressions, level by level, without precedences:
    what src/parser/precedence.rs and binop_expr in src/parser/expr.rs amount
    to. */
module Grammar {
  import opened Collections
  import opened Precedence
  import opened Operators

  // ------------------------------------------------------------------ levels

  /** atom (* atom)*, to the left. */
  predicate IsProduct(t: Tree) {
    match t
    case Leaf(_) => true
    case Node(l, op, r) => (op.Mul? || op.Div? || op.Mod?) && IsProduct(l) && r.Leaf?
  }

  /** product (+ product)*, to the left. */
  predicate IsSum(t: Tree) {
    IsProduct(t) || (t.Node? && (t.op.Add? || t.op.Sub?) && IsSum(t.left) && IsProduct(t.right))
  }

  /** sum, or sum == sum. */
  predicate IsComparing(t: Tree) {
    || IsSum(t)
    || (t.Node? && (t.op.Eq? || t.op.Ne? || t.op.Lt? || t.op.Le? || t.op.Gt? || t.op.Ge?)
        && IsSum(t.left) && IsSum(t.right))
  }

  /** comparison (&& comparison)*, to the left; the same with ||. */
  predicate IsChain(op: BinOp, t: Tree) {
    IsComparing(t) || (t.Node? && t.op == op && IsChain(op, t.left) && IsComparing(t.right))
  }

  /** && and || are never mixed. */
  predicate IsExpression(t: Tree) {
    IsChain(And, t) || IsChain(Or, t)
  }

  lemma {:induction false} ProductIs(t: Tree)
    ensures IsProduct(t) <==> WellFormed(t) && (t.Node? ==> t.op.Mul? || t.op.Div? || t.op.Mod?)
  {
    if t.Node? {
      ProductIs(t.left);
      ProductIs(t.right);
    }
  }

  lemma {:induction false} SumIs(t: Tree)
    ensures IsSum(t) <==>
      WellFormed(t) && (t.Node? ==> t.op.Mul? || t.op.Div? || t.op.Mod? || t.op.Add? || t.op.Sub?)
  {
    ProductIs(t);
    if t.Node? {
      SumIs(t.left);
      ProductIs(t.right);
    }
  }

  lemma {:induction false} ComparingIs(t: Tree)
    ensures IsComparing(t) <==> WellFormed(t) && (t.Node? ==> !t.op.And? && !t.op.Or?)
  {
    SumIs(t);
    if t.Node? {
      SumIs(t.left);
      SumIs(t.right);
    }
  }

  lemma {:induction false} ChainIs(op: BinOp, t: Tree)
    requires op.And? || op.Or?
    ensures IsChain(op, t) <==> WellFormed(t) && (t.Node? ==> t.op == op || (!t.op.And? && !t.op.Or?))
  {
    ComparingIs(t);
    if t.Node? {
      ChainIs(op, t.left);
      ComparingIs(t.right);
    }
  }

  /** Precedences and associativities describe this grammar. */
  lemma {:induction false} WellFormedIsGrammatical(t: Tree)
    ensures WellFormed(t) <==> IsExpression(t)
  {
    ChainIs(And, t);
    ChainIs(Or, t);
  }

  /** The parser returns a tree exactly when that is the reading of the tokens
      by the grammar, and no operator follows. */
  lemma {:induction false} ParserIsGrammatical(tokens: seq<Token>, t: Tree, rest: seq<Token>)
    ensures BinopExpr(None, tokens) == Ok(t, rest) <==>
      IsExpression(t) && tokens == Flatten(t) + rest && (rest == [] || forall op :: rest[0] != Spelling(op))
  {
    ParserIsExact(tokens, t, rest);
    WellFormedIsGrammatical(t);
    forall op | rest != []
      ensures BinOpOf(rest[0]) == Some(op) <==> rest[0] == Spelling(op)
    {
      SpellingIsInverse(rest[0], op);
    }
  }

  // ------------------------------------------------------------------- texts

  /** Display of a token, for the tokens of operators. */
  function TokenText(token: Token): string {
    match token
    case AmpAmp => "&&"
    case AngleLeftEq => "<="
    case AngleRightEq => ">="
    case BangEq => "!="
    case EqEq => "=="
    case Hyphen => "-"
    case PipePipe => "||"
    case Plus => "+"
    case Slash => "/"
    case Star => "*"
    case Percent => "%"
    case AngleLeft => "<"
    case AngleRight => ">"
    case _ => ""
  }

  /** Display of an operator. */
  function OperatorText(op: BinOp): string {
    match op
    case And => "&&"
    case Or => "||"
    case Eq => "=="
    case Ne => "!="
    case Lt => "<="
    case Le => "<"
    case Gt => ">="
    case Ge => "<"
    case Add => "+"
    case Sub => "-"
    case Mul => "*"
    case Div => "/"
    case Mod => "%"
  }

  /** An operator is displayed as it is read, unless it is an inequality. */
  lemma {:induction false} DisplayIsRead(op: BinOp)
    ensures OperatorText(op) == TokenText(Spelling(op)) <==> !op.Lt? && !op.Le? && !op.Gt? && !op.Ge?
  {
    assert |"<"| != |"<="| && "<"[0] != ">"[0];
  }

  /** The inequality signs are read for what they mean. */
  lemma {:induction false} InequalitiesAreRead(token: Token)
    ensures BinOpOf(token) == Some(Lt) <==> TokenText(token) == "<"
    ensures BinOpOf(token) == Some(Le) <==> TokenText(token) == "<="
    ensures BinOpOf(token) == Some(Gt) <==> TokenText(token) == ">"
    ensures BinOpOf(token) == Some(Ge) <==> TokenText(token) == ">="
  {
    var s := TokenText(token);
    OneSign(s, '<');
    OneSign(s, '>');
    TwoSigns(s, '<');
    TwoSigns(s, '>');
  }

  lemma {:induction false} OneSign(s: string, c: char)
    ensures s == [c] <==> |s| == 1 && s[0] == c
  {
  }

  lemma {:induction false} TwoSigns(s: string, c: char)
    ensures s == [c, '='] <==> |s| == 2 && s[0] == c && s[1] == '='
  {
  }
}

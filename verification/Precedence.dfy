/** Precedence and associativity of operators (src/parser/precedence.rs). */
module Precedence {
  datatype BinOp = And | Or | Eq | Ne | Lt | Le | Gt | Ge | Add | Sub | Mul | Div | Mod

  datatype Precedence = Logical | Comparison | AddSub | MulDiv

  datatype Associativity = Left | Right | Incompatible

  /** The position in the derived order of the source's enum. */
  function Rank(p: Precedence): nat {
    match p
    case Logical => 0
    case Comparison => 1
    case AddSub => 2
    case MulDiv => 3
  }

  function PrecedenceOf(op: BinOp): Precedence {
    match op
    case Or | And => Logical
    case Eq | Ne | Lt | Le | Gt | Ge => Comparison
    case Mul | Div | Mod => MulDiv
    case Add | Sub => AddSub
  }

  function AssociativityOf(op: BinOp): Associativity {
    match PrecedenceOf(op)
    case AddSub | MulDiv | Logical => Left
    case Comparison => Incompatible
  }

  function RelativeAssociativity(op: BinOp, other: BinOp): Associativity {
    if (op == Or && other == And) || (op == And && other == Or) then
      Incompatible
    else if Rank(PrecedenceOf(op)) < Rank(PrecedenceOf(other)) then
      Right
    else if Rank(PrecedenceOf(op)) > Rank(PrecedenceOf(other)) then
      Left
    else
      AssociativityOf(op)
  }
}

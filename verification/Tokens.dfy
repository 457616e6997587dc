/** Tokens shared by the lexer and the parser of the expression engine. */
module Tokens {

  // One constructor per key of the operator table; `Neg` is the key "u-" that
  // only the parser produces.  `Unknown` is operator text with no table entry
  // (a lone "=" or "&").
  datatype Operator =
    | Pipe | Or | And
    | Eq | Ne | StrictEq | StrictNe
    | Lt | Gt | Le | Ge
    | Add | Sub | Mul | Div | Mod | Pow
    | Not | Neg
    | Unknown(text: string)

  datatype Token =
    | Number(text: string)
    | Str(value: string)
    | Boolean(flag: bool)
    | Null
    | Ident(name: string)
    | Op(op: Operator)
    | LParen | RParen | Comma | Arrow | Eof

  predicate IsLiteral(t: Token) {
    t.Number? || t.Str? || t.Boolean? || t.Null?
  }

  function Precedence(op: Operator): int {
    match op
    case Pipe => 0
    case Or => 1
    case And => 2
    case Eq | Ne | StrictEq | StrictNe => 3
    case Lt | Gt | Le | Ge => 4
    case Add | Sub => 5
    case Mul | Div | Mod => 6
    case Pow => 7
    case Not | Neg => 8
    case Unknown(_) => -1
  }

  predicate RightAssociative(op: Operator) {
    op.Pow? || op.Not? || op.Neg?
  }

  predicate IsUnary(op: Operator) {
    op.Not? || op.Neg?
  }

  // The binary operators of the table other than the pipe.
  predicate IsBinary(op: Operator) {
    !IsUnary(op) && !op.Pipe? && !op.Unknown?
  }
}

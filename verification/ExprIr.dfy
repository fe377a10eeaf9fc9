/** The restricted expression tree of `expr_ir.py`, over the operators of the token stream. */
module ExprIr {

  /** Every operator and punctuation mark the token pattern knows. */
  datatype Punct =
    | LParen | RParen | LBracket | RBracket | LBrace | RBrace
    | Comma | Semicolon | Question | Colon | Dot | Arrow
    | Not | Tilde | Amp | Star | Plus | Minus | Slash | Percent
    | Lt | Gt | Le | Ge | EqEq | Ne | AndAnd | OrOr | Pipe | Caret | Shl | Shr
    | PlusPlus | MinusMinus | ShlAssign | ShrAssign | Assign

  datatype Value =
    | IntV(n: int)
    | RealV(r: real)
    | StrV(s: string)
    | BoolV(b: bool)
    | NullV

  datatype Expr =
    | Const(value: Value, stringLiteral: bool)
    | Ref(symbol: string)
    | Un(op: Punct, arg: Expr)
    | Bin(op: Punct, left: Expr, right: Expr)
    | Ite(cond: Expr, thn: Expr, alt: Expr)
    | Call(func: string, args: seq<Expr>)
    | Select(arr: Expr, index: Expr)
    | Unknown(reason: string)
}

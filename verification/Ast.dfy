/** Options, and the syntax trees that the parser builds and the coder walks. */
module Ast {
  datatype Option<+T> = None | Some(value: T)

  datatype UnOp = Pos | Neg | Flip | SizeOf | TypeOf | Not

  datatype BinOp =
    | Or
    | And
    | Eq | Ne | Le | Ge | Lt | Gt
    | Add | Sub
    | Mul | Div | Mod
    | BitAnd | BitOr | BitXor | ShiftL | ShiftR

  /** The hundreds digit of the operator's enumerator: its precedence level. */
  function Priority(op: BinOp): (p: nat)
    ensures 1 <= p <= 6
  {
    match op
    case Or => 1
    case And => 2
    case Eq | Ne | Le | Ge | Lt | Gt => 3
    case Add | Sub => 4
    case Mul | Div | Mod => 5
    case BitAnd | BitOr | BitXor | ShiftL | ShiftR => 6
  }

  /** A type reference with its generic arguments. */
  datatype TypeRef = TypeRef(name: string, args: seq<TypeRef>)

  datatype Expr =
    | IntLit(value: int)
    | FloatLit(text: string)
    | BoolLit(b: bool)
    | StrLit(s: string)
    | Sym(name: string)
    | Unary(unop: UnOp, operand: Expr)
    | Binary(binop: BinOp, left: Expr, right: Expr)
    | Trinary(cond: Expr, onTrue: Expr, onFalse: Expr)
    | Index(obj: Expr, key: Expr)
    | Field(obj: Expr, member: string)
    | Call(func: Expr, args: seq<Expr>)
    | Array(elems: seq<Expr>)

  /** A null child pointer of a node is `None`. */
  datatype Stmt =
    | SymbolDef(variable: bool, name: string, ty: Option<TypeRef>, value: Expr)
    | Assign(left: Expr, right: Expr)
    | Invoke(call: Expr)
    | Return(result: Option<Expr>)
    | If(cond: Expr, onTrue: Option<Stmt>, onFalse: Option<Stmt>)
    | Loop(init: Option<Stmt>, guard: Option<Expr>, step: Option<Stmt>, body: Option<Stmt>)
    | Break
    | Continue
    | Block(stmts: seq<Stmt>)
}

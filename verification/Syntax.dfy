// Programs as the grammar (yacc.y) delivers them to the semantic actions.
module Syntax {

  datatype BinaryOp =
    | Or | And
    | Gt | Lt | Geq | Leq | Equal | NotEqual
    | Divide | Minus | Times | Plus

  datatype Expr =
    | Num(n: int)
    | Var(name: string)
    | Binary(op: BinaryOp, left: Expr, right: Expr)
    | Not(operand: Expr)
    | AddressOf(name: string)
    | Deref(operand: Expr)
    | Call(name: string, args: Args)

  datatype Args = NoArgs | Arg(first: Expr, rest: Args)

  // `LetZero` is "let a, b, c;": the grammar is right recursive, so its
  // actions run from the last name to the first.
  datatype Decl =
    | Let(name: string, init: Expr)
    | LetZero(names: seq<string>)

  datatype Stmt =
    | Block(body: Stmts)
    | Declare(decl: Decl)
    | Assign(name: string, value: Expr)
    | Store(target: Expr, value: Expr)
    | Return(value: Expr)
    | Print(value: Expr)
    | Discard(value: Expr)
    | If(branch: IfStmt)
    | While(cond: Expr, body: Stmts)

  // The nonterminal IfStatement.
  datatype IfStmt =
    | IfThen(cond: Expr, thn: Stmts)
    | IfElse(cond: Expr, thn: Stmts, els: Stmts)
    | IfElseIf(cond: Expr, thn: Stmts, rest: IfStmt)

  datatype Stmts = Nil | Cons(head: Stmt, tail: Stmts)

  datatype Function = Function(name: string, parameters: seq<string>, body: Stmts)

  datatype Program = Program(globals: seq<Decl>, functions: seq<Function>, main: Stmts)

  function Length(args: Args): nat {
    match args
    case NoArgs => 0
    case Arg(_, rest) => 1 + Length(rest)
  }
}

/**
 * The abstract syntax tree the interpreter walks (Pengo/src/ast/Expression.h and
 * Pengo/src/ast/Statement.h).  Block statements and call expressions are not in those
 * header snapshots but are visited by Pengo/src/Interpreter.cpp, so they are included.
 */
module Ast {
  import opened Tokens

  datatype Expression =
    | Binary(left: Expression, op: Token, right: Expression)
    | Literal(value: Token)
    | Var(name: Token)
    | Call(callee: Expression, args: seq<Expression>)

  datatype Statement =
    | ExpressionStatement(exp: Expression)
    | PrintStatement(exp: Expression)
    | VarDeclareStatement(name: Token, exp: Expression)
    | BlockStatement(statements: seq<Statement>)

  /** The tokens of an expression without calls, read left to right. */
  function ExprTokens(e: Expression): seq<Token> {
    match e
    case Binary(l, op, r) => ExprTokens(l) + [op] + ExprTokens(r)
    case Literal(t) => [t]
    case Var(t) => [t]
    case Call(_, _) => []
  }
}

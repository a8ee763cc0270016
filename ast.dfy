/**
 * The syntax tree.  Every node class of the nodes/ directory is one
 * constructor; `Null` is an empty `std::unique_ptr<AstNode>`, which the
 * parser produces where a production finds nothing.
 */
module Ast {
  import opened Outcomes
  import opened Tokens
  import opened Values

  datatype Node =
    | Null
    | NumberNode(number: Number)
    | StringNode(text: string)
    | IdentifierNode(identifier: string)
    | BoolNode(b: bool)
    | UnaryNode(token: TokenKind, operand: Node)
    | BinaryExpression(left: Node, op: TokenKind, right: Node)
    | VarDeclaration(variableType: TokenKind, identifier: string, expression: Node)
    | VarAssignment(identifier: string, expression: Node)
    | FunctionCall(identifier: string, arguments: seq<Node>)
    | IfStmt(expression: Node, blockStmt: Node)
    | PrintStmt(expression: Node)
    | BlockStmt(stmts: seq<Node>)

  /** What a visitor that goes through an empty node pointer does: it dereferences null. */
  const NullDereference: Abrupt := Crash("null AST pointer dereferenced")
}

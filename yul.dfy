/**
 * The fragment of the Yul syntax tree that the two dead-store passes look at.
 * Statements are identified by a natural number standing for the address of the
 * statement node: both passes keep their bookkeeping as sets of such identities.
 */
module Yul {

  datatype Option<+T> = None | Some(value: T)

  type Name = string

  /** Identity of a statement node. */
  type StmtId = nat

  datatype Expression =
    | Identifier(name: Name)
    | Literal(text: string)
    | FunctionCall(functionName: Name, arguments: seq<Expression>)

  /**
   * A Yul statement as far as these passes distinguish it.  An expression statement
   * always holds a function call in Yul, so it carries the call's parts directly.
   * `Other` stands for the compound statements (if, switch, for, nested block,
   * function definition, break, continue) whose traversal belongs to the generic walker.
   */
  datatype Statement =
    | ExpressionStatement(functionName: Name, arguments: seq<Expression>)
    | VariableDeclaration(variables: seq<Name>, initialValue: Option<Expression>)
    | Assignment(variableNames: seq<Name>, value: Expression)
    | Leave
    | Other
}

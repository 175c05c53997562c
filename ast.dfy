/** The abstract syntax tree built by the parser and rewritten by the transformer. */
module Ast {
  import opened Syntax

  /** The closed set of node kinds. `init` is `None` where the source stores `null`.
      The `sourceType: "script"` tag of a Program, a constant, is not represented.
      An AssignmentExpression never carries a `right` operand in this grammar. */
  datatype Node =
    | Program(body: seq<Node>)
    | VariableDeclaration(declarations: seq<Node>, kind: string)
    | VariableDeclarator(id: Node, init: Option<Node>)
    | Identifier(name: string)
    | Literal(value: nat, row: string)
    | BinaryExpression(operator: string)
    | AssignmentExpression(operator: string)

  /** The `type` tag of a node, as the source spells it. */
  function TypeName(n: Node): (t: string)
    ensures |t| > 0
  {
    match n
    case Program(_) => "Program"
    case VariableDeclaration(_, _) => "VariableDeclaration"
    case VariableDeclarator(_, _) => "VariableDeclarator"
    case Identifier(_) => "Identifier"
    case Literal(_, _) => "Literal"
    case BinaryExpression(_) => "BinaryExpression"
    case AssignmentExpression(_) => "AssignmentExpression"
  }
}

/** Failure outcomes shared by the three stages of the simplelang compiler.
    The C program reports an error and calls exit(1); here every error is a
    value that the caller receives instead. */
module Diagnostics {

  datatype Option<T> = None | Some(value: T)

  /** The messages the parser passes to error(). */
  datatype Syntax =
    | TooManyChildren
    | UnexpectedToken
    | ExpectedVariableName
    | ExpectedDeclarationSemicolon
    | ExpectedAssign
    | ExpectedAssignmentSemicolon
    | ExpectedOperand
    | InvalidExpression
    | ExpectedLBrace
    | ExpectedRBrace

  /** The text of each parser message. */
  function SyntaxText(s: Syntax): (m: string)
    ensures |m| > 0
  {
    match s
    case TooManyChildren => "Exceeded maximum number of child nodes"
    case UnexpectedToken => "Unexpected token in statement"
    case ExpectedVariableName => "Expected variable name after 'int'"
    case ExpectedDeclarationSemicolon => "Expected ';' after variable declaration"
    case ExpectedAssign => "Expected '=' in assignment"
    case ExpectedAssignmentSemicolon => "Expected ';' after assignment"
    case ExpectedOperand => "Expected identifier or number after operator"
    case InvalidExpression => "Invalid expression"
    case ExpectedLBrace => "Expected '{' after 'if'"
    case ExpectedRBrace => "Expected '}' at the end of if block"
  }

  /** The fatal conditions of the pipeline. */
  datatype Error =
    | SyntaxError(reason: Syntax)      // parser: error(message)
    | UndefinedVariable(name: string)  // generator: getSymbolAddress found no entry
    | UnsupportedOperator(op: string)  // generator: operator text other than "+" / "-"
    | UnknownNodeType                  // generator: default case of the node switch

  datatype Result<T> = Ok(value: T) | Fail(error: Error)

  /** The line the C program writes before terminating. */
  function Message(e: Error): (m: string)
    ensures |m| > 0
  {
    match e
    case SyntaxError(reason) => "Syntax Error: " + SyntaxText(reason)
    case UndefinedVariable(name) => "Error: Undefined variable '" + name + "'"
    case UnsupportedOperator(op) => "Error: Unsupported operator '" + op + "'"
    case UnknownNodeType => "Error: Unknown node type"
  }
}

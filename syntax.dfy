// The syntax tree the decompiler builds (src/MajiroLib/Script/Analysis/Source/Nodes/**).
// The node classes only carry fields, so each becomes a datatype constructor, and the visitor's
// double dispatch becomes a `match`.

module Syntax {
  import opened Wrappers
  import opened Flags
  import opened Instructions

  /** `BinaryOperation`; its `None` member, the plain `=` of an assignment, is `NoOperation` here. */
  datatype BinaryOperation =
    | NoOperation | Addition | Subtraction | Multiplication | Division | Modulo
    | ShiftLeft | ShiftRight | BitwiseAnd | BitwiseOr | BitwiseXor | LogicalAnd | LogicalOr
    | CompareLessEqual | CompareLessThan | CompareGreaterEqual | CompareGreaterThan
    | CompareEqual | CompareNotEqual

  datatype UnaryOperation = LogicalNot | BitwiseNot | UnaryMinus | UnaryPlus

  /** `Call`: a call to a function or a syscall, by name hash. */
  datatype Call = Call(hash: bv32, isSyscall: bool, arguments: seq<Expression>)

  datatype Expression =
    | Binary(left: Expression, right: Expression, binaryOperation: BinaryOperation, valueType: MjoType)
    | Unary(operand: Expression, unaryOperation: UnaryOperation, valueType: MjoType)
    | Cast(operand: Expression, targetType: MjoType)
    | Identifier(hash: bv32, flags: MjoFlags)
    | ArrayAccess(hash: bv32, flags: MjoFlags, indices: seq<Expression>)
    | LiteralInt(intValue: Int32)
    /** The bits of the single-precision value. */
    | LiteralFloat(floatBits: bv32)
    /** The string's Shift-JIS bytes; None when the instruction's string is null. */
    | LiteralString(text: Option<seq<bv8>>)
    | CallExpression(call: Call)

  datatype Statement =
    | Assignment(value: Expression, hash: bv32, flags: MjoFlags, valueType: MjoType, operation: BinaryOperation)
    | ArrayAssignment(value: Expression, indices: seq<Expression>, hash: bv32, flags: MjoFlags,
                      valueType: MjoType, operation: BinaryOperation)
    | Block(statements: seq<Statement>)
    /** `DestructorStatement`, a block statement of its own. */
    | Destructor(statements: seq<Statement>)
    | CallStatement(call: Call)
    | Return(returnValue: Option<Expression>)
    /** `IfStatement`; both branches are block statements, the else branch may be null. */
    | If(condition: Expression, thenBranch: seq<Statement>, elseBranch: ElseBranch)
    | Text(textBytes: Option<seq<bv8>>)
    | Ctrl(controlCode: Option<seq<bv8>>, operands: seq<Expression>)
    | Proc

  /** The else branch of an `IfStatement`: null, or a block. */
  datatype ElseBranch = NoElse | ElseBlock(statements: seq<Statement>)

  /** `FunctionNode`: a function's body, named by its hash. */
  datatype FunctionNode = FunctionNode(hash: bv32, statements: seq<Statement>)
}

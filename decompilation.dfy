// What the decompiler of src/MajiroLib/Script/Analysis/Source/DecompilerPass.cs computes, as
// functions: which opcode does what to the evaluation stack, how a statement and a block are
// read from the function's instruction list, and what the evaluation stack holds after each.
// The `Decompiler` class (decompiler.dfy) runs the same steps on its mutable fields and is
// proved to agree with these functions.
//
// Reference equality of instructions and blocks becomes equality of positions and block ids:
// `Instructions.IndexOf(block.FirstInstruction)` is the position where the block's first
// instruction was listed. The walks may loop on a back edge, so they take a fuel bound and
// run out of it as `OutOfFuel`.

module Decompilation {
  import opened Wrappers
  import opened Flags
  import opened Instructions
  import opened Graph
  import opened Syntax
  import StackTransitionPass
  import Sorts
  import Dominators
  import opened Relisting

  const FailedStatement: string := "Failed to decompile statement"
  /** `ArgumentNullException` of a dictionary lookup with a null key. */
  const NullKey: string := "Value cannot be null. (Parameter 'key')"
  /** The text of `Debug.Fail` in the default case; the instruction's own text is not modelled. */
  const UnrecognizedInstruction: string := "Unrecognized instruction: "

  // ---------------------------------------------------------------------------------------
  // The opcode switch of `DecompileStatement`

  /** What a case of the switch does with its instruction. */
  datatype Action =
    /** `ProcessBinaryExpression(instruction, op, type)`. */
    | BinaryOp(op: BinaryOperation, valueType: MjoType)
    /** `ProcessUnaryExpression(instruction, op, type)`. */
    | UnaryOp(uop: UnaryOperation, valueType: MjoType)
    /** `ProcessCast(instruction, type)`. */
    | Convert(targetType: MjoType)
    | LoadInt | LoadString | LoadVariable | LoadFloat | LoadElement
    /** `call` and `syscall`: a call whose value stays on the stack. */
    | CallValue(isSyscall: bool)
    /** `alloca`, `argcheck` and `line`: nothing happens. */
    | Skip
    /**
     * An assignment of the `st`, `stp`, `stelem` or `stelemp` families: the value type, the
     * compound operator, whether the target is an array element, and whether the opcode leaves
     * the value on the stack for a `pop` that must follow (the forms without `p`).
     */
    | Store(storeType: MjoType, operation: BinaryOperation, isArray: bool, popped: bool)
    /** `callp` and `syscallp`: a call statement. */
    | CallVoid(isSyscall: bool)
    | ReturnOp | DestructorOp | BranchFalse | TextOp | ProcOp | CtrlOp
    /** The default case: `Debug.Fail`. */
    | Unrecognized
  {
    /** The cases after which the `while` loop goes on to the next instruction. */
    predicate Continues() {
      BinaryOp? || UnaryOp? || Convert? || LoadInt? || LoadString? || LoadVariable? || LoadFloat? ||
      LoadElement? || CallValue? || Skip? || Unrecognized?
    }
  }

  /** The case of the switch that handles the opcode value. */
  function ActionOf(value: int): Action {
    match value
    // binary
    case 0x100 => BinaryOp(Multiplication, Int)
    case 0x101 => BinaryOp(Multiplication, Float)
    case 0x108 => BinaryOp(Division, Int)
    case 0x109 => BinaryOp(Division, Float)
    case 0x110 => BinaryOp(Modulo, Int)
    case 0x118 => BinaryOp(Addition, Int)
    case 0x119 => BinaryOp(Addition, Float)
    case 0x11a => BinaryOp(Addition, String)
    case 0x120 => BinaryOp(Subtraction, Int)
    case 0x121 => BinaryOp(Subtraction, Float)
    case 0x128 => BinaryOp(ShiftRight, Int)
    case 0x130 => BinaryOp(ShiftLeft, Int)
    case 0x138 => BinaryOp(CompareLessEqual, Int)
    case 0x139 => BinaryOp(CompareLessEqual, Float)
    case 0x13a => BinaryOp(CompareLessEqual, String)
    case 0x140 => BinaryOp(CompareLessThan, Int)
    case 0x141 => BinaryOp(CompareLessThan, Float)
    case 0x142 => BinaryOp(CompareLessThan, String)
    case 0x148 => BinaryOp(CompareGreaterEqual, Int)
    case 0x149 => BinaryOp(CompareGreaterEqual, Float)
    case 0x14a => BinaryOp(CompareGreaterEqual, String)
    case 0x150 => BinaryOp(CompareGreaterThan, Int)
    case 0x151 => BinaryOp(CompareGreaterThan, Float)
    case 0x152 => BinaryOp(CompareGreaterThan, String)
    case 0x158 => BinaryOp(CompareEqual, Int)
    case 0x159 => BinaryOp(CompareEqual, Float)
    case 0x15a => BinaryOp(CompareEqual, String)
    case 0x160 => BinaryOp(CompareNotEqual, Int)
    case 0x161 => BinaryOp(CompareNotEqual, Float)
    case 0x162 => BinaryOp(CompareNotEqual, String)
    case 0x168 => BinaryOp(BitwiseXor, Int)
    case 0x170 => BinaryOp(LogicalAnd, Int)
    case 0x178 => BinaryOp(LogicalOr, Int)
    case 0x180 => BinaryOp(BitwiseAnd, Int)
    case 0x188 => BinaryOp(BitwiseOr, Int)
    // unary
    case 0x190 => UnaryOp(LogicalNot, Int)
    case 0x198 => UnaryOp(BitwiseNot, Int)
    case 0x1a0 => UnaryOp(UnaryMinus, Int)
    case 0x1a1 => UnaryOp(UnaryMinus, Float)
    case 0x1a8 => UnaryOp(UnaryPlus, Int)
    case 0x1a9 => UnaryOp(UnaryPlus, Float)
    case 0x83e => Convert(Int)
    case 0x83f => Convert(Float)
    // loads
    case 0x800 => LoadInt
    case 0x801 => LoadString
    case 0x802 => LoadVariable
    case 0x803 => LoadFloat
    case 0x837 => LoadElement
    // st.*
    case 0x1b0 => Store(Int, NoOperation, false, true)
    case 0x1b1 => Store(Float, NoOperation, false, true)
    case 0x1b2 => Store(String, NoOperation, false, true)
    case 0x1b3 => Store(IntArray, NoOperation, false, true)
    case 0x1b4 => Store(FloatArray, NoOperation, false, true)
    case 0x1b5 => Store(StringArray, NoOperation, false, true)
    case 0x1b8 => Store(Int, Multiplication, false, true)
    case 0x1b9 => Store(Float, Multiplication, false, true)
    case 0x1c0 => Store(Int, Division, false, true)
    case 0x1c1 => Store(Float, Division, false, true)
    case 0x1c8 => Store(Int, Modulo, false, true)
    case 0x1d0 => Store(Int, Addition, false, true)
    case 0x1d1 => Store(Float, Addition, false, true)
    case 0x1d2 => Store(String, Addition, false, true)
    case 0x1d8 => Store(Int, Subtraction, false, true)
    case 0x1d9 => Store(Float, Subtraction, false, true)
    case 0x1e0 => Store(Int, ShiftLeft, false, true)
    case 0x1e8 => Store(Int, ShiftRight, false, true)
    case 0x1f0 => Store(Int, BitwiseAnd, false, true)
    case 0x1f8 => Store(Int, BitwiseXor, false, true)
    case 0x200 => Store(Int, BitwiseOr, false, true)
    // stp.*
    case 0x210 => Store(Int, NoOperation, false, false)
    case 0x211 => Store(Float, NoOperation, false, false)
    case 0x212 => Store(String, NoOperation, false, false)
    case 0x213 => Store(IntArray, NoOperation, false, false)
    case 0x214 => Store(FloatArray, NoOperation, false, false)
    case 0x215 => Store(StringArray, NoOperation, false, false)
    case 0x218 => Store(Int, Multiplication, false, false)
    case 0x219 => Store(Float, Multiplication, false, false)
    case 0x220 => Store(Int, Division, false, false)
    case 0x221 => Store(Float, Division, false, false)
    case 0x228 => Store(Int, Modulo, false, false)
    case 0x230 => Store(Int, Addition, false, false)
    case 0x231 => Store(Float, Addition, false, false)
    case 0x232 => Store(String, Addition, false, false)
    case 0x238 => Store(Int, Subtraction, false, false)
    case 0x239 => Store(Float, Subtraction, false, false)
    case 0x240 => Store(Int, ShiftLeft, false, false)
    case 0x248 => Store(Int, ShiftRight, false, false)
    case 0x250 => Store(Int, BitwiseAnd, false, false)
    case 0x258 => Store(Int, BitwiseXor, false, false)
    case 0x260 => Store(Int, BitwiseOr, false, false)
    // stelem.*
    case 0x270 => Store(Int, NoOperation, true, true)
    case 0x271 => Store(Float, NoOperation, true, true)
    case 0x272 => Store(String, NoOperation, true, true)
    case 0x278 => Store(Int, Multiplication, true, true)
    case 0x279 => Store(Float, Multiplication, true, true)
    case 0x280 => Store(Int, Division, true, true)
    case 0x281 => Store(Float, Division, true, true)
    case 0x288 => Store(Int, Modulo, true, true)
    case 0x290 => Store(Int, Addition, true, true)
    case 0x291 => Store(Float, Addition, true, true)
    case 0x292 => Store(String, Addition, true, true)
    case 0x298 => Store(Int, Subtraction, true, true)
    case 0x299 => Store(Float, Subtraction, true, true)
    case 0x2a0 => Store(Int, ShiftLeft, true, true)
    case 0x2a8 => Store(Int, ShiftRight, true, true)
    case 0x2b0 => Store(Int, BitwiseAnd, true, true)
    case 0x2b8 => Store(Int, BitwiseXor, true, true)
    case 0x2c0 => Store(Int, BitwiseOr, true, true)
    // stelemp.*
    case 0x2d0 => Store(Int, NoOperation, true, false)
    case 0x2d1 => Store(Float, NoOperation, true, false)
    case 0x2d2 => Store(String, NoOperation, true, false)
    case 0x2d8 => Store(Int, Multiplication, true, false)
    case 0x2d9 => Store(Float, Multiplication, true, false)
    case 0x2e0 => Store(Int, Division, true, false)
    case 0x2e1 => Store(Float, Division, true, false)
    case 0x2e8 => Store(Int, Modulo, true, false)
    case 0x2f0 => Store(Int, Addition, true, false)
    case 0x2f1 => Store(Float, Addition, true, false)
    case 0x2f2 => Store(String, Addition, true, false)
    case 0x2f8 => Store(Int, Subtraction, true, false)
    case 0x2f9 => Store(Float, Subtraction, true, false)
    case 0x300 => Store(Int, ShiftLeft, true, false)
    case 0x308 => Store(Int, ShiftRight, true, false)
    case 0x310 => Store(Int, BitwiseAnd, true, false)
    case 0x318 => Store(Int, BitwiseXor, true, false)
    case 0x320 => Store(Int, BitwiseOr, true, false)
    // calls
    case 0x80f => CallValue(false)
    case 0x810 => CallVoid(false)
    case 0x834 => CallValue(true)
    case 0x835 => CallVoid(true)
    // statements
    case 0x82b => ReturnOp
    case 0x829 => Skip
    case 0x836 => Skip
    case 0x83a => Skip
    case 0x847 => DestructorOp
    case 0x82e => BranchFalse
    case 0x840 => TextOp
    case 0x841 => ProcOp
    case 0x842 => CtrlOp
    case _ => Unrecognized
  }

  // ---------------------------------------------------------------------------------------
  // The evaluation stack

  /** The nodes an expression was built from, in the order they were pushed. */
  function Children(e: Expression): seq<Expression> {
    match e
    case Binary(left, right, _, _) => [left, right]
    case Unary(operand, _, _) => [operand]
    case Cast(operand, _) => [operand]
    case ArrayAccess(_, _, indices) => indices
    case CallExpression(call) => call.arguments
    case _ => []
  }

  /** `after` is `below` with one node on top, built from the nodes `taken`. */
  predicate Built(after: seq<Expression>, below: seq<Expression>, taken: seq<Expression>) {
    |after| == |below| + 1 && after[..|below|] == below && Children(after[|below|]) == taken
  }

  /** `PopArguments(count)`: the stack without its top `count` nodes, and those nodes bottom first. */
  function PopArguments(stack: seq<Expression>, count: nat): (r: Result<(seq<Expression>, seq<Expression>)>)
    ensures r.Ok? <==> |stack| >= count
    ensures r.Ok? ==> r.value.0 + r.value.1 == stack && |r.value.1| == count
  {
    if |stack| < count then Err(AssertFailed("EvaluationStack.Count >= count"))
    else Ok((stack[..|stack| - count], stack[|stack| - count..]))
  }

  /** `ProcessBinaryExpression`: the top two nodes become the operands of one binary node. */
  function BinaryPushed(op: BinaryOperation, t: MjoType, stack: seq<Expression>): (r: Result<seq<Expression>>)
    ensures r.Ok? <==> |stack| >= 2
    ensures r.Ok? ==> Built(r.value, stack[..|stack| - 2], stack[|stack| - 2..])
  {
    if |stack| < 2 then Err(AssertFailed("EvaluationStack.Count >= 2"))
    else Ok(stack[..|stack| - 2] + [Binary(stack[|stack| - 2], stack[|stack| - 1], op, t)])
  }

  /** `ProcessUnaryExpression`: the top node becomes the operand of a unary node. */
  function UnaryPushed(op: UnaryOperation, t: MjoType, stack: seq<Expression>): (r: Result<seq<Expression>>)
    ensures r.Ok? <==> |stack| >= 1
    ensures r.Ok? ==> Built(r.value, stack[..|stack| - 1], stack[|stack| - 1..])
  {
    if |stack| < 1 then Err(AssertFailed("EvaluationStack.Count >= 1"))
    else Ok(stack[..|stack| - 1] + [Unary(stack[|stack| - 1], op, t)])
  }

  /** `ProcessCast`: the top node becomes the operand of a cast. */
  function CastPushed(t: MjoType, stack: seq<Expression>): (r: Result<seq<Expression>>)
    ensures r.Ok? <==> |stack| >= 1
    ensures r.Ok? ==> Built(r.value, stack[..|stack| - 1], stack[|stack| - 1..])
  {
    if |stack| < 1 then Err(AssertFailed("EvaluationStack.Count >= 1"))
    else Ok(stack[..|stack| - 1] + [Cast(stack[|stack| - 1], t)])
  }

  /** `ldelem`: as many indices as the flags give dimensions become an array access. */
  function ElementPushed(ins: Instruction, stack: seq<Expression>): (r: Result<seq<Expression>>)
    ensures r.Ok? <==> |stack| >= Dimension(ins.flags) > 0
    ensures r.Ok? ==> var d := Dimension(ins.flags); Built(r.value, stack[..|stack| - d], stack[|stack| - d..])
  {
    var d := Dimension(ins.flags);
    if |stack| < d then Err(AssertFailed("EvaluationStack.Count >= dimension"))
    else if !(d > 0 && d <= 3) then Err(AssertFailed("dimension > 0 && dimension <= 3"))
    else match PopArguments(stack, d)
      case Err(e) => Err(e)
      case Ok((rest, indices)) => Ok(rest + [ArrayAccess(ins.hash, ins.flags, indices)])
  }

  /** `call` and `syscall`: the arguments become a call whose value stays on the stack. */
  function CallPushed(ins: Instruction, isSyscall: bool, stack: seq<Expression>): (r: Result<seq<Expression>>)
    ensures r.Ok? <==> |stack| >= ins.argumentCount
    ensures r.Ok? ==> var n := ins.argumentCount; Built(r.value, stack[..|stack| - n], stack[|stack| - n..])
  {
    match PopArguments(stack, ins.argumentCount)
    case Err(e) => Err(e)
    case Ok((rest, arguments)) => Ok(rest + [CallExpression(Call(ins.hash, isSyscall, arguments))])
  }

  /** How many nodes an expression case takes off the stack. */
  function Arity(a: Action, ins: Instruction): nat {
    match a
    case BinaryOp(_, _) => 2
    case UnaryOp(_, _) => 1
    case Convert(_) => 1
    case LoadElement => Dimension(ins.flags)
    case CallValue(_) => ins.argumentCount
    case _ => 0
  }

  /**
   * The cases that stay in the `while` loop. Each but `Skip` pushes one node built from the
   * nodes it took, which were the top of the stack in the order they were pushed; nothing
   * below them moves.
   */
  function Pushed(a: Action, ins: Instruction, stack: seq<Expression>): Result<seq<Expression>>
    requires a.Continues()
  {
    match a
    case BinaryOp(op, t) => BinaryPushed(op, t, stack)
    case UnaryOp(op, t) => UnaryPushed(op, t, stack)
    case Convert(t) => CastPushed(t, stack)
    case LoadInt => Ok(stack + [LiteralInt(ins.intValue)])
    case LoadString => Ok(stack + [LiteralString(ins.str)])
    case LoadVariable => Ok(stack + [Identifier(ins.hash, ins.flags)])
    case LoadFloat => Ok(stack + [LiteralFloat(ins.floatValue)])
    case LoadElement => ElementPushed(ins, stack)
    case CallValue(isSyscall) => CallPushed(ins, isSyscall, stack)
    case Skip => Ok(stack)
    case Unrecognized => Err(AssertFailed(UnrecognizedInstruction))
  }

  /** A load pushes a leaf: one node built from nothing, on top of the whole stack. */
  lemma PushedLeaf(stack: seq<Expression>, e: Expression)
    requires Children(e) == []
    ensures Built(stack + [e], stack[..|stack| - 0], stack[|stack| - 0..])
  {
    assert stack[..|stack| - 0] == stack && stack[|stack| - 0..] == [];
    assert (stack + [e])[..|stack|] == stack;
  }

  /**
   * Every case that stays in the loop but `Skip` and the default pushes exactly one node,
   * built from the `Arity` nodes on top of the stack, in the order they were pushed; it
   * fails exactly when there are too few, or `ldelem`'s dimension is 0.
   */
  lemma PushedBuilds(a: Action, ins: Instruction, stack: seq<Expression>)
    requires a.Continues()
    ensures a.Skip? ==> Pushed(a, ins, stack) == Ok(stack)
    ensures Pushed(a, ins, stack).Ok? <==>
      !a.Unrecognized? && |stack| >= Arity(a, ins) && (a.LoadElement? ==> Dimension(ins.flags) > 0)
    ensures Pushed(a, ins, stack).Ok? && !a.Skip? ==>
      var k := Arity(a, ins); Built(Pushed(a, ins, stack).value, stack[..|stack| - k], stack[|stack| - k..])
  {
    match a
    case LoadInt => PushedLeaf(stack, LiteralInt(ins.intValue));
    case LoadString => PushedLeaf(stack, LiteralString(ins.str));
    case LoadVariable => PushedLeaf(stack, Identifier(ins.hash, ins.flags));
    case LoadFloat => PushedLeaf(stack, LiteralFloat(ins.floatValue));
    case _ =>
  }

  // ---------------------------------------------------------------------------------------
  // The statements a case returns

  /** `ProcessAssignmentP`: the one node on the stack is the value assigned, and the stack is cleared. */
  function AssignmentOf(ins: Instruction, t: MjoType, op: BinaryOperation, stack: seq<Expression>): (r: Result<Statement>)
    ensures r.Ok? <==> |stack| == 1 && Type(ins.flags) == t
    ensures r.Ok? ==> (r.value.Assignment? && [r.value.value] == stack && r.value.valueType == Type(ins.flags)
                       && r.value.hash == ins.hash && r.value.flags == ins.flags && r.value.operation == op)
  {
    if |stack| != 1 then Err(AssertFailed("EvaluationStack.Count == 1"))
    else if Type(ins.flags) != t then Err(AssertFailed("instruction.Flags.Type() == type"))
    else Ok(Assignment(stack[0], ins.hash, ins.flags, t, op))
  }

  /**
   * `ProcessArrayAssignmentP` as written: the value is the bottom node, but the indices are
   * the first `dimension` nodes, which start with that value and leave out the last index,
   * and the stack is not cleared.
   */
  function ArrayAssignmentAsWritten(ins: Instruction, t: MjoType, op: BinaryOperation, stack: seq<Expression>)
    : (r: Result<Statement>)
    ensures r.Ok? <==> |stack| == Dimension(ins.flags) + 1 && Dimension(ins.flags) > 0 && Type(ins.flags) == t
  {
    var d := Dimension(ins.flags);
    if |stack| != d + 1 then Err(AssertFailed("EvaluationStack.Count == dimension + 1"))
    else if !(d > 0 && d <= 3) then Err(AssertFailed("dimension > 0 && dimension <= 3"))
    else if Type(ins.flags) != t then Err(AssertFailed("instruction.Flags.Type() == type"))
    else Ok(ArrayAssignment(stack[0], stack[..d], ins.hash, ins.flags, t, op))
  }

  /**
   * `ProcessArrayAssignmentP` as evidently intended: the bottom node is the value, the nodes
   * above it are the indices in order, and the stack is cleared as for a plain assignment.
   */
  function ArrayAssignmentOf(ins: Instruction, t: MjoType, op: BinaryOperation, stack: seq<Expression>): (r: Result<Statement>)
    ensures r.Ok? <==> |stack| == Dimension(ins.flags) + 1 && Dimension(ins.flags) > 0 && Type(ins.flags) == t
    ensures r.Ok? ==> (r.value.ArrayAssignment? && [r.value.value] + r.value.indices == stack
                       && |r.value.indices| == Dimension(ins.flags) && r.value.valueType == Type(ins.flags)
                       && r.value.hash == ins.hash && r.value.flags == ins.flags && r.value.operation == op)
  {
    var d := Dimension(ins.flags);
    if |stack| != d + 1 then Err(AssertFailed("EvaluationStack.Count == dimension + 1"))
    else if !(d > 0 && d <= 3) then Err(AssertFailed("dimension > 0 && dimension <= 3"))
    else if Type(ins.flags) != t then Err(AssertFailed("instruction.Flags.Type() == type"))
    else Ok(ArrayAssignment(stack[0], stack[1..], ins.hash, ins.flags, t, op))
  }

  /** `callp` and `syscallp`: the whole stack is the argument list. */
  function CallStatementOf(ins: Instruction, isSyscall: bool, stack: seq<Expression>): (r: Result<Statement>)
    ensures r.Ok? <==> |stack| == ins.argumentCount
    ensures r.Ok? ==> (r.value.CallStatement? && r.value.call.arguments == stack
                       && r.value.call.hash == ins.hash && r.value.call.isSyscall == isSyscall)
  {
    if |stack| != ins.argumentCount then Err(AssertFailed("EvaluationStack.Count == instruction.ArgumentCount"))
    else match PopArguments(stack, ins.argumentCount)
      case Err(e) => Err(e)
      case Ok((_, arguments)) => Ok(CallStatement(Call(ins.hash, isSyscall, arguments)))
  }

  /** `ret`: the value returned is the one node on the stack, if there is one. */
  function ReturnOf(stack: seq<Expression>): (r: Result<Statement>)
    ensures r.Ok? <==> |stack| <= 1
    ensures r.Ok? ==> r.value.Return? && (r.value.returnValue.Some? <==> |stack| == 1)
    ensures r.Ok? && |stack| == 1 ==> r.value.returnValue == Some(stack[0])
  {
    if |stack| > 1 then Err(AssertFailed("EvaluationStack.Count <= 1"))
    else Ok(Return(if |stack| > 0 then Some(stack[0]) else None))
  }

  /** The number of operands `ctrl` pops for a control code, compared as its bytes. */
  function CtrlOperandCount(code: Option<seq<bv8>>): Result<nat> {
    if code == Some([0x73]) || code == Some([0x74]) || code == Some([0x78]) || code == Some([0x64]) then Ok(1)  // s t x d
    else if code == Some([0x63]) || code == Some([0x6c]) || code == Some([0x6f]) then Ok(2)                 // c l o
    else if code == Some([0x66]) then Ok(5)                                                                 // f
    else if code == Some([0x67]) then Ok(6)                                                                 // g
    else if code == Some([0x6e]) || code == Some([0x4e]) || code == Some([0x70]) || code == Some([0x77]) then Ok(0)  // n N p w
    else Err(Thrown(StackTransitionPass.UnrecognizedControlCode))
  }

  /**
   * `ctrl` as written: the stack must be empty, and then the operands are popped from it, so
   * every control code that takes an operand fails.
   */
  function CtrlAsWritten(ins: Instruction, stack: seq<Expression>): (r: Result<Statement>) {
    if |stack| != 0 then Err(AssertFailed("EvaluationStack.Count == 0"))
    else match CtrlOperandCount(ins.str)
      case Err(e) => Err(e)
      case Ok(k) =>
        match PopArguments(stack, k)
        case Err(e) => Err(e)
        case Ok((_, operands)) => Ok(Ctrl(ins.str, operands))
  }

  /**
   * `ctrl` as evidently intended: the stack holds exactly the control code's operands, as it
   * holds exactly the arguments of `callp`, and they are popped.
   */
  function CtrlOf(ins: Instruction, stack: seq<Expression>): (r: Result<Statement>)
    ensures r.Ok? <==> CtrlOperandCount(ins.str).Ok? && |stack| == CtrlOperandCount(ins.str).value
    ensures r.Ok? ==> r.value.Ctrl? && r.value.controlCode == ins.str && r.value.operands == stack
  {
    match CtrlOperandCount(ins.str)
    case Err(e) => Err(e)
    case Ok(k) =>
      if |stack| != k then Err(AssertFailed("EvaluationStack.Count == operands"))
      else match PopArguments(stack, k)
        case Err(e) => Err(e)
        case Ok((_, operands)) => Ok(Ctrl(ins.str, operands))
  }

  // ---------------------------------------------------------------------------------------
  // Statements and blocks

  /**
   * What the decompiler of one function reads: its instruction list, its blocks, the start of
   * each block in that list (`StartIndices`), and `IsBselClr`, which the model takes as given.
   * The opcode switch is carried along as `actionOf`; the decompiler always runs with
   * `ActionOf`, and what is proved about statements and blocks holds for any switch.
   */
  datatype Context = Context(
    instructions: seq<Instruction>,
    arena: seq<BasicBlock>,
    starts: map<BlockId, nat>,
    isBselClr: Instruction -> bool,
    actionOf: int -> Action)

  /** A statement, the instruction pointer after it, and the evaluation stack it leaves. */
  datatype Step = Step(statement: Statement, ip: nat, stack: seq<Expression>)

  /** The statements of a block, the instruction pointer where it stopped, and the stack it leaves. */
  datatype Span = Span(statements: seq<Statement>, ip: nat, stack: seq<Expression>)

  /** `GetBlockStartIndex(block)`: a null block or one without a start throws. */
  function StartOf(c: Context, b: Option<BlockId>): (r: Result<nat>)
    ensures r.Ok? <==> b.Some? && b.value in c.starts
    ensures r.Ok? ==> r.value == c.starts[b.value]
  {
    if b.None? then Err(Thrown(NullKey))
    else if b.value !in c.starts then Err(Thrown(KeyNotFound))
    else Ok(c.starts[b.value])
  }

  /**
   * The test that ends a block at a merge point:
   * `instructionPointer == GetBlockStartIndex(block) && !merged && block.Predecessors.Count > 1`.
   */
  function StopsAt(c: Context, ins: Instruction, ip: nat, merged: bool): Result<bool> {
    match StartOf(c, ins.block)
    case Err(e) => Err(e)
    case Ok(start) =>
      if ip != start || merged then Ok(false)
      else if ins.block.value >= |c.arena| then Err(Thrown(IndexOutOfRange))
      else Ok(|c.arena[ins.block.value].predecessors| > 1)
  }

  /**
   * `DecompileStatement(ref ip, ref merged)` from ip: expression cases build nodes on the stack
   * until a case returns a statement. Whether it set `merged` is whether the statement is an if.
   */
  function StatementFrom(c: Context, fuel: nat, ip: nat, stack: seq<Expression>): (r: Result<Step>)
    decreases fuel, 0
  {
    if fuel == 0 then Err(OutOfFuel)
    else if ip >= |c.instructions| then Err(Thrown(FailedStatement))
    else
      var ins := c.instructions[ip];
      var a := c.actionOf(ins.opcode.value);
      if a.Continues() then
        match Pushed(a, ins, stack)
        case Err(e) => Err(e)
        case Ok(next) => StatementFrom(c, fuel - 1, ip + 1, next)
      else StatementOf(c, fuel - 1, a, ins, ip + 1, stack)
  }

  /**
   * A store: the popping forms must be followed by a `pop`, which is skipped; the assignment
   * takes the whole stack.
   */
  function StoreOf(instructions: seq<Instruction>, t: MjoType, op: BinaryOperation, isArray: bool, popped: bool,
                   ins: Instruction, ip: nat, stack: seq<Expression>): (r: Result<Step>)
    ensures r.Ok? ==> r.value.stack == [] && r.value.ip == if popped then ip + 1 else ip
    ensures r.Ok? && popped ==> ip < |instructions| && IsPop(instructions[ip])
  {
    if popped && ip >= |instructions| then Err(Thrown(IndexOutOfRange))
    else if popped && !IsPop(instructions[ip]) then Err(AssertFailed("Instructions[pointer++].IsPop"))
    else
      var s := if isArray then ArrayAssignmentOf(ins, t, op, stack) else AssignmentOf(ins, t, op, stack);
      if s.Err? then Err(s.error) else Ok(Step(s.value, if popped then ip + 1 else ip, []))
  }

  /**
   * A store as written: as `StoreOf`, except that an array assignment takes its value and
   * indices as `ArrayAssignmentAsWritten` does and leaves them all on the stack.
   */
  function StoreAsWritten(instructions: seq<Instruction>, t: MjoType, op: BinaryOperation, isArray: bool, popped: bool,
                          ins: Instruction, ip: nat, stack: seq<Expression>): Result<Step>
  {
    if popped && ip >= |instructions| then Err(Thrown(IndexOutOfRange))
    else if popped && !IsPop(instructions[ip]) then Err(AssertFailed("Instructions[pointer++].IsPop"))
    else
      var s := if isArray then ArrayAssignmentAsWritten(ins, t, op, stack) else AssignmentOf(ins, t, op, stack);
      if s.Err? then Err(s.error) else Ok(Step(s.value, if popped then ip + 1 else ip, if isArray then stack else []))
  }

  /** The cases that return a statement, with ip already past their instruction. */
  function StatementOf(c: Context, fuel: nat, a: Action, ins: Instruction, ip: nat, stack: seq<Expression>)
    : (r: Result<Step>)
    decreases fuel, 2
  {
    match a
    case Store(t, op, isArray, popped) => StoreOf(c.instructions, t, op, isArray, popped, ins, ip, stack)
    case DestructorOp => DestructorAt(c, fuel, ins, ip, stack)
    case BranchFalse => IfAt(c, fuel, ins, ip, stack)
    case _ => PlainOf(a, ins, ip, stack)
  }

  /**
   * The statements made from one instruction and the stack alone: calls, `ctrl` and `ret` take
   * the stack, `line`-free `text` and `proc` need it empty; any other opcode is unrecognised.
   */
  function PlainOf(a: Action, ins: Instruction, ip: nat, stack: seq<Expression>): (r: Result<Step>)
    ensures r.Ok? ==> r.value.ip == ip && (r.value.stack == [] || r.value.stack == stack)
    ensures r.Ok? ==> a.CallVoid? || a.ReturnOp? || a.TextOp? || a.ProcOp? || a.CtrlOp?
  {
    match a
    case CallVoid(isSyscall) =>
      var s := CallStatementOf(ins, isSyscall, stack);
      if s.Err? then Err(s.error) else Ok(Step(s.value, ip, []))
    case ReturnOp =>
      var s := ReturnOf(stack);
      if s.Err? then Err(s.error) else Ok(Step(s.value, ip, stack))
    case TextOp =>
      if |stack| != 0 then Err(AssertFailed("EvaluationStack.Count == 0")) else Ok(Step(Text(ins.str), ip, stack))
    case ProcOp =>
      if |stack| != 0 then Err(AssertFailed("EvaluationStack.Count == 0")) else Ok(Step(Proc, ip, stack))
    case CtrlOp =>
      var s := CtrlOf(ins, stack);
      if s.Err? then Err(s.error) else Ok(Step(s.value, ip, []))
    case _ => Err(AssertFailed(UnrecognizedInstruction))
  }

  /**
   * `bsel.5`: a `br` over the destructor body must follow, then the instruction `IsBselClr`
   * accepts; the body is the block after them, and it must end where that `br` jumps to.
   */
  function DestructorAt(c: Context, fuel: nat, ins: Instruction, ip: nat, stack: seq<Expression>): (r: Result<Step>)
    decreases fuel, 1
  {
    if ip >= |c.instructions| then Err(Thrown(IndexOutOfRange))
    else
      var branch := c.instructions[ip];
      if !IsUnconditionalJump(branch) then Err(AssertFailed("branch.IsUnconditionalJump"))
      else match StartOf(c, ins.jumpTarget)
        case Err(e) => Err(e)
        case Ok(target) =>
          if target != ip + 1 then Err(AssertFailed("GetBlockStartIndex(instruction.JumpTarget) == instructionPointer"))
          else if ip + 1 >= |c.instructions| then Err(Thrown(IndexOutOfRange))
          else if !c.isBselClr(c.instructions[ip + 1]) then Err(AssertFailed("clear.IsBselClr"))
          else match BlockFrom(c, fuel, ip + 2, stack, false, [])
            case Err(e) => Err(e)
            case Ok(body) =>
              match StartOf(c, branch.jumpTarget)
              case Err(e) => Err(e)
              case Ok(end) =>
                if body.ip != end then Err(AssertFailed("instructionPointer == GetBlockStartIndex(branch.JumpTarget)"))
                else Ok(Step(Destructor(body.statements), body.ip, body.stack))
  }

  /**
   * `brfalse`: the condition is the top node; the then branch is the block that follows, the
   * else branch the block at the jump target unless the then branch ended right there, in
   * which case there is none. Both branches must end at the same place.
   */
  function IfAt(c: Context, fuel: nat, ins: Instruction, ip: nat, stack: seq<Expression>): (r: Result<Step>)
    decreases fuel, 1
  {
    match PopArguments(stack, 1)
    case Err(e) => Err(e)
    case Ok((rest, popped)) =>
      if ip >= |c.instructions| then Err(Thrown(IndexOutOfRange))
      else match BlockFrom(c, fuel, ip, rest, false, [])
        case Err(e) => Err(e)
        case Ok(thenSpan) =>
          match StartOf(c, ins.jumpTarget)
          case Err(e) => Err(e)
          case Ok(elseIp) =>
            if thenSpan.ip == elseIp then Ok(Step(If(popped[0], thenSpan.statements, NoElse), thenSpan.ip, thenSpan.stack))
            else match BlockFrom(c, fuel, elseIp, thenSpan.stack, false, [])
              case Err(e) => Err(e)
              case Ok(elseSpan) =>
                if thenSpan.ip != elseSpan.ip then Err(AssertFailed("thenIp == elseIp"))
                else Ok(Step(If(popped[0], thenSpan.statements, ElseBlock(elseSpan.statements)), elseSpan.ip, elseSpan.stack))
  }

  /**
   * `DecompileBlock(ref ip)` from ip, with the statements `done` so far: `line` is skipped, a
   * `br` ends the block at its target, a merge point ends it where it is (unless the statement
   * before was an if), and a return ends it after the return.
   */
  function BlockFrom(c: Context, fuel: nat, ip: nat, stack: seq<Expression>, merged: bool, done: seq<Statement>)
    : (r: Result<Span>)
    decreases fuel, 0
  {
    if fuel == 0 then Err(OutOfFuel)
    else if ip >= |c.instructions| then Err(Thrown(IndexOutOfRange))
    else
      var ins := c.instructions[ip];
      if IsLine(ins) then BlockFrom(c, fuel - 1, ip + 1, stack, merged, done)
      else if IsUnconditionalJump(ins) then
        match StartOf(c, ins.jumpTarget)
        case Err(e) => Err(e)
        case Ok(target) => Ok(Span(done, target, stack))
      else match StopsAt(c, ins, ip, merged)
        case Err(e) => Err(e)
        case Ok(stop) =>
          if stop then Ok(Span(done, ip, stack))
          else match StatementFrom(c, fuel - 1, ip, stack)
            case Err(e) => Err(e)
            case Ok(step) =>
              if step.statement.Return? then Ok(Span(done + [step.statement], step.ip, step.stack))
              else BlockFrom(c, fuel - 1, step.ip, step.stack, step.statement.If?, done + [step.statement])
  }

  // ---------------------------------------------------------------------------------------
  // What the statements and blocks keep

  /** The statements that take their operands from the evaluation stack, or require it empty. */
  predicate ConsumesStack(s: Statement) {
    s.Assignment? || s.ArrayAssignment? || s.CallStatement? || s.Ctrl? || s.Text? || s.Proc?
  }

  /**
   * No expression outlives its statement: after an assignment, a call statement, `ctrl`,
   * `text` or `proc` the evaluation stack is empty, and a return leaves at most its value.
   */
  predicate LeavesStack(step: Step) {
    (ConsumesStack(step.statement) ==> step.stack == []) && (step.statement.Return? ==> |step.stack| <= 1)
  }

  lemma {:induction false} StatementStack(c: Context, fuel: nat, ip: nat, stack: seq<Expression>)
    requires StatementFrom(c, fuel, ip, stack).Ok?
    ensures LeavesStack(StatementFrom(c, fuel, ip, stack).value)
    decreases fuel
  {
    var ins := c.instructions[ip];
    var a := c.actionOf(ins.opcode.value);
    if a.Continues() {
      var next := Pushed(a, ins, stack).value;
      assert StatementFrom(c, fuel, ip, stack) == StatementFrom(c, fuel - 1, ip + 1, next);
      StatementStack(c, fuel - 1, ip + 1, next);
    } else {
      assert StatementFrom(c, fuel, ip, stack) == StatementOf(c, fuel - 1, a, ins, ip + 1, stack);
      StatementOfStack(c, fuel - 1, a, ins, ip + 1, stack);
    }
  }

  lemma StatementOfStack(c: Context, fuel: nat, a: Action, ins: Instruction, ip: nat, stack: seq<Expression>)
    requires StatementOf(c, fuel, a, ins, ip, stack).Ok?
    ensures LeavesStack(StatementOf(c, fuel, a, ins, ip, stack).value)
  {
    match a
    case Store(t, op, isArray, popped) => StoreLeaves(c.instructions, t, op, isArray, popped, ins, ip, stack);
    case DestructorOp => DestructorLeaves(c, fuel, ins, ip, stack);
    case BranchFalse => IfLeaves(c, fuel, ins, ip, stack);
    case _ => PlainLeaves(a, ins, ip, stack);
  }

  lemma StoreLeaves(instructions: seq<Instruction>, t: MjoType, op: BinaryOperation, isArray: bool, popped: bool,
                    ins: Instruction, ip: nat, stack: seq<Expression>)
    requires StoreOf(instructions, t, op, isArray, popped, ins, ip, stack).Ok?
    ensures LeavesStack(StoreOf(instructions, t, op, isArray, popped, ins, ip, stack).value)
  {
  }

  lemma DestructorLeaves(c: Context, fuel: nat, ins: Instruction, ip: nat, stack: seq<Expression>)
    requires DestructorAt(c, fuel, ins, ip, stack).Ok?
    ensures LeavesStack(DestructorAt(c, fuel, ins, ip, stack).value)
  {
  }

  lemma IfLeaves(c: Context, fuel: nat, ins: Instruction, ip: nat, stack: seq<Expression>)
    requires IfAt(c, fuel, ins, ip, stack).Ok?
    ensures LeavesStack(IfAt(c, fuel, ins, ip, stack).value)
  {
  }

  lemma PlainLeaves(a: Action, ins: Instruction, ip: nat, stack: seq<Expression>)
    requires PlainOf(a, ins, ip, stack).Ok?
    ensures LeavesStack(PlainOf(a, ins, ip, stack).value)
  {
  }

  /** No statement but the last of a block is a return: a return ends the block. */
  lemma {:induction false} ReturnEndsBlock(c: Context, fuel: nat, ip: nat, stack: seq<Expression>, merged: bool,
                                           done: seq<Statement>)
    requires BlockFrom(c, fuel, ip, stack, merged, done).Ok?
    requires forall k | 0 <= k < |done| :: !done[k].Return?
    ensures var ss := BlockFrom(c, fuel, ip, stack, merged, done).value.statements;
      |done| <= |ss| && ss[..|done|] == done && forall k | 0 <= k < |ss| - 1 :: !ss[k].Return?
    decreases fuel
  {
    var ins := c.instructions[ip];
    if IsLine(ins) {
      ReturnEndsBlock(c, fuel - 1, ip + 1, stack, merged, done);
    } else if !IsUnconditionalJump(ins) && !StopsAt(c, ins, ip, merged).value {
      var step := StatementFrom(c, fuel - 1, ip, stack).value;
      if !step.statement.Return? {
        var done' := done + [step.statement];
        ReturnEndsBlock(c, fuel - 1, step.ip, step.stack, step.statement.If?, done');
        var ss := BlockFrom(c, fuel, ip, stack, merged, done).value.statements;
        assert ss[..|done'|][..|done|] == ss[..|done|];
      }
    }
  }

  /**
   * An if takes the top node as its condition; its branches end at the same place, and it has
   * an else branch exactly when the then branch does not end at the jump target.
   */
  lemma IfJoins(c: Context, fuel: nat, ins: Instruction, ip: nat, stack: seq<Expression>)
    requires IfAt(c, fuel, ins, ip, stack).Ok?
    ensures |stack| >= 1 && StartOf(c, ins.jumpTarget).Ok?
    ensures BlockFrom(c, fuel, ip, stack[..|stack| - 1], false, []).Ok?
    ensures var step := IfAt(c, fuel, ins, ip, stack).value;
      var thenSpan := BlockFrom(c, fuel, ip, stack[..|stack| - 1], false, []).value;
      step.statement.If? && step.statement.condition == stack[|stack| - 1] &&
      step.statement.thenBranch == thenSpan.statements && step.ip == thenSpan.ip &&
      (step.statement.elseBranch.NoElse? <==> thenSpan.ip == StartOf(c, ins.jumpTarget).value)
  {
  }

  /**
   * A destructor statement follows `bsel.5`, a `br` and the clearing instruction; its body is
   * the block after them, which ends where that `br` jumps to.
   */
  lemma DestructorFramed(c: Context, fuel: nat, ins: Instruction, ip: nat, stack: seq<Expression>)
    requires DestructorAt(c, fuel, ins, ip, stack).Ok?
    ensures ip + 1 < |c.instructions| && IsUnconditionalJump(c.instructions[ip]) && c.isBselClr(c.instructions[ip + 1])
    ensures StartOf(c, ins.jumpTarget) == Ok(ip + 1)
    ensures var step := DestructorAt(c, fuel, ins, ip, stack).value;
      step.statement.Destructor? && BlockFrom(c, fuel, ip + 2, stack, false, []).Ok? &&
      step.statement.statements == BlockFrom(c, fuel, ip + 2, stack, false, []).value.statements &&
      StartOf(c, c.instructions[ip].jumpTarget) == Ok(step.ip)
  {
  }

  // ---------------------------------------------------------------------------------------
  // The opcode switch against the opcode table

  /** `ctrl` pops as many operands as the stack simulator gives the control code masks. */
  lemma CtrlCountsAgree(code: Option<seq<bv8>>)
    ensures CtrlOperandCount(code).Ok? <==> StackTransitionPass.ControlCodeMasks(code).Ok?
    ensures CtrlOperandCount(code).Ok? ==> CtrlOperandCount(code).value == |StackTransitionPass.ControlCodeMasks(code).value|
    ensures CtrlOperandCount(code).Err? ==> CtrlOperandCount(code).error == StackTransitionPass.ControlCodeMasks(code).error
  {
  }

  // ---------------------------------------------------------------------------------------
  // The findings

  /**
   * As written, an array assignment's indices begin with the assigned value and lack the last
   * index.
   */
  lemma ArrayAssignmentAsWrittenShape(ins: Instruction, t: MjoType, op: BinaryOperation, stack: seq<Expression>)
    requires ArrayAssignmentAsWritten(ins, t, op, stack).Ok?
    ensures var s := ArrayAssignmentAsWritten(ins, t, op, stack).value;
      s.ArrayAssignment? && s.indices == stack[..|stack| - 1] && s.indices[0] == s.value && |stack| >= 2
  {
  }

  /** `stelemp.i` on `a[1] = 7` with the stack [7, 1]: the index 1 is lost, and 7 indexes the array. */
  lemma ArrayIndexLost()
    ensures Dimension(0x0800) == 1 && Type(0x0800) == Int
    ensures var ins := NewInstruction(Opcodes.Opcode(0x2d0, "stelemp.i", None, "fho", "i[i#d].", []), None).(flags := 0x0800);
      var stack := [LiteralInt(7), LiteralInt(1)];
      ArrayAssignmentAsWritten(ins, Int, NoOperation, stack) == Ok(ArrayAssignment(LiteralInt(7), [LiteralInt(7)], 0, 0x0800, Int, NoOperation)) &&
      ArrayAssignmentOf(ins, Int, NoOperation, stack) == Ok(ArrayAssignment(LiteralInt(7), [LiteralInt(1)], 0, 0x0800, Int, NoOperation))
  {
    var stack := [LiteralInt(7), LiteralInt(1)];
    assert stack[..1] == [LiteralInt(7)] && stack[1..] == [LiteralInt(1)];
  }

  /**
   * As written, an array assignment leaves its value and its indices, at least two nodes, on
   * the stack, so whatever the next statement pushes, a plain assignment or a return after it
   * fails its assertion. As intended (`StoreOf`) the stack is empty after it.
   */
  lemma ArrayStackKept(instructions: seq<Instruction>, t: MjoType, op: BinaryOperation, popped: bool,
                       ins: Instruction, ip: nat, stack: seq<Expression>,
                       next: Instruction, t': MjoType, op': BinaryOperation, pushed: seq<Expression>)
    requires StoreAsWritten(instructions, t, op, true, popped, ins, ip, stack).Ok?
    ensures var left := StoreAsWritten(instructions, t, op, true, popped, ins, ip, stack).value.stack;
      left == stack && |left| == Dimension(ins.flags) + 1 && |left| >= 2 &&
      AssignmentOf(next, t', op', left + pushed).Err? && ReturnOf(left + pushed).Err?
  {
  }

  /** As written, `ctrl` only gets through for the control codes that take no operand. */
  lemma CtrlAsWrittenBare(ins: Instruction, stack: seq<Expression>)
    requires CtrlAsWritten(ins, stack).Ok?
    ensures CtrlOperandCount(ins.str) == Ok(0) && stack == []
  {
  }

  /** `ctrl("s")` with its operand on the stack fails as written and is read as intended. */
  lemma CtrlOperandRejected()
    ensures var ins := NewInstruction(Opcodes.Opcode(0x842, "ctrl", None, "s", "", []), None).(str := Some([0x73]));
      CtrlAsWritten(ins, [LiteralInt(1)]) == Err(AssertFailed("EvaluationStack.Count == 0")) &&
      CtrlOf(ins, [LiteralInt(1)]) == Ok(Ctrl(Some([0x73]), [LiteralInt(1)]))
  {
  }

  // ---------------------------------------------------------------------------------------
  // The whole function

  /**
   * `BuildBlockList` from the k-th listed block: a block listed twice throws at `DBlocks.Add`,
   * an empty one at `FirstInstruction`; otherwise the block starts where its first instruction
   * was listed.
   */
  function StartsFrom(arena: seq<BasicBlock>, order: seq<BlockId>, k: nat, starts: map<BlockId, nat>)
    : (r: Result<map<BlockId, nat>>)
    requires InArena(order, |arena|) && k <= |order|
    decreases |order| - k
  {
    if k == |order| then Ok(starts)
    else if order[k] in starts then Err(Thrown(DuplicateKey))
    else if |arena[order[k]].instructions| == 0 then Err(Thrown(NoElements))
    else StartsFrom(arena, order, k + 1, starts[order[k] := |BlockInstructions(arena, order[..k])|])
  }

  /** `BuildBlockList`. */
  function StartIndices(f: Function): Result<map<BlockId, nat>>
    requires ListsOwnBlocks(f)
  {
    StartsFrom(f.arena, f.blocks.value, 0, map[])
  }

  /** The blocks from k on are new, distinct and not empty. */
  predicate FreshFrom(arena: seq<BasicBlock>, order: seq<BlockId>, k: nat, starts: map<BlockId, nat>)
    requires InArena(order, |arena|) && k <= |order|
  {
    forall j | k <= j < |order| ::
      order[j] !in starts && |arena[order[j]].instructions| > 0 && forall i | k <= i < j :: order[i] != order[j]
  }

  lemma {:induction false} StartsFromFacts(arena: seq<BasicBlock>, order: seq<BlockId>, k: nat, starts: map<BlockId, nat>)
    requires InArena(order, |arena|) && k <= |order|
    ensures StartsFrom(arena, order, k, starts).Ok? <==> FreshFrom(arena, order, k, starts)
    ensures StartsFrom(arena, order, k, starts).Ok? ==>
      var r := StartsFrom(arena, order, k, starts).value;
      (forall b | b in starts :: b in r && r[b] == starts[b]) &&
      (forall b | b in r :: b in starts || b in order[k..]) &&
      forall j | k <= j < |order| :: order[j] in r && r[order[j]] == |BlockInstructions(arena, order[..j])|
    decreases |order| - k
  {
    if k < |order| && order[k] !in starts && |arena[order[k]].instructions| > 0 {
      var starts' := starts[order[k] := |BlockInstructions(arena, order[..k])|];
      StartsFromFacts(arena, order, k + 1, starts');
      if FreshFrom(arena, order, k + 1, starts') {
        assert FreshFrom(arena, order, k, starts);
      }
      if FreshFrom(arena, order, k, starts) {
        assert FreshFrom(arena, order, k + 1, starts');
      }
      if StartsFrom(arena, order, k, starts).Ok? {
        var r := StartsFrom(arena, order, k, starts).value;
        forall b | b in r ensures b in starts || b in order[k..] {
          if b !in starts' { assert b in order[k + 1..]; assert order[k + 1..] == order[k..][1..]; }
          else if b !in starts { assert b == order[k] == order[k..][0]; }
        }
      }
    }
  }

  /** Fresh from the start means listed once each and not empty. */
  lemma FreshFromStart(arena: seq<BasicBlock>, order: seq<BlockId>)
    requires InArena(order, |arena|)
    ensures FreshFrom(arena, order, 0, map[]) <==> Distinct(order) && Inhabited(arena, order)
  {
  }

  /**
   * Over a list of blocks: the starts are built exactly when each block is listed once and none
   * is empty, and then each listed block starts at the position of its first instruction.
   */
  lemma StartsAtFirst(arena: seq<BasicBlock>, order: seq<BlockId>)
    requires InArena(order, |arena|)
    ensures StartsFrom(arena, order, 0, map[]).Ok? <==> Distinct(order) && Inhabited(arena, order)
    ensures StartsFrom(arena, order, 0, map[]).Ok? ==>
      var starts := StartsFrom(arena, order, 0, map[]).value;
      (forall b :: b in starts <==> b in order) &&
      forall j | 0 <= j < |order| :: starts[order[j]] < |BlockInstructions(arena, order)| &&
        BlockInstructions(arena, order)[starts[order[j]]] == arena[order[j]].instructions[0]
  {
    StartsFromFacts(arena, order, 0, map[]);
    FreshFromStart(arena, order);
    if StartsFrom(arena, order, 0, map[]).Ok? {
      StartsAtPositions(arena, order, StartsFrom(arena, order, 0, map[]).value);
    }
  }

  lemma StartsAtPositions(arena: seq<BasicBlock>, order: seq<BlockId>, starts: map<BlockId, nat>)
    requires InArena(order, |arena|)
    requires forall b | b in starts :: b in order[0..]
    requires forall j | 0 <= j < |order| :: order[j] in starts && starts[order[j]] == |BlockInstructions(arena, order[..j])|
    requires Inhabited(arena, order)
    ensures forall b :: b in starts <==> b in order
    ensures forall j | 0 <= j < |order| ::
      starts[order[j]] < |BlockInstructions(arena, order)| &&
      BlockInstructions(arena, order)[starts[order[j]]] == arena[order[j]].instructions[0]
  {
    assert order[0..] == order;
    forall j | 0 <= j < |order|
      ensures starts[order[j]] < |BlockInstructions(arena, order)|
      ensures BlockInstructions(arena, order)[starts[order[j]]] == arena[order[j]].instructions[0]
    {
      BlockInstructionsAt(arena, order, j, 0);
    }
  }

  /**
   * `BuildBlockList` gets through exactly when the blocks are listed once each and none is
   * empty; each listed block then starts at the position of its first instruction in the
   * function's instruction list, and no other block has a start.
   */
  lemma StartIndicesFirst(f: Function)
    requires ListsOwnBlocks(f)
    ensures StartIndices(f).Ok? <==> Distinct(f.blocks.value) && Inhabited(f.arena, f.blocks.value)
    ensures StartIndices(f).Ok? ==> forall b :: b in StartIndices(f).value <==> b in f.blocks.value
    ensures StartIndices(f).Ok? ==> forall j | 0 <= j < |f.blocks.value| ::
      var start := StartIndices(f).value[f.blocks.value[j]];
      start < |Body(f)| && Body(f)[start] == f.arena[f.blocks.value[j]].instructions[0]
  {
    StartsAtFirst(f.arena, f.blocks.value);
  }

  /** What `CalculateDominators` leaves: the blocks in reverse post-order, their idoms by position, their dominator sets. */
  datatype DominatorTree = DominatorTree(rpo: seq<BlockId>, idoms: seq<int>, sets: seq<set<BlockId>>)

  /**
   * `CalculateDominators`: a copy of the block list sorted in post-order along successor edges
   * and reversed must start with the entry block; then the idoms are iterated to their fixed
   * point and the sets built from them.
   */
  function DominatorsOf(f: Function, fuel: nat): (r: Result<DominatorTree>)
    requires ListsOwnBlocks(f)
  {
    var order := f.blocks.value;
    if !Distinct(order) then Err(Thrown(DuplicateKey))
    else
      var walk := Sorts.PostOrder(order, StackTransitionPass.Successors(f.arena));
      if walk.error.Some? then Err(walk.error.value)
      else
        DominatorsFromOrder(f, Sorts.Reversed(walk.out), fuel)
  }

  /**
   * The dominators of `f` once its blocks are in reverse post-order `rpo`: the order must start
   * with the entry block; the idoms are iterated to their fixed point and the sets built from them.
   */
  function DominatorsFromOrder(f: Function, rpo: seq<BlockId>, fuel: nat): (r: Result<DominatorTree>)
    ensures r.Ok? ==> r.value.rpo == rpo && |rpo| >= 1 && f.entryBlock == Some(rpo[0])
    ensures r.Ok? ==> |r.value.idoms| == |r.value.sets| == |rpo|
  {
    if |rpo| == 0 then Err(Thrown(IndexOutOfRange))
    else if f.entryBlock != Some(rpo[0]) then Err(AssertFailed("rpo[0] == Function.EntryBlock"))
    else match Dominators.Idoms(f.arena, rpo, fuel)
      case Err(e) => Err(e)
      case Ok(idoms) =>
        match Dominators.DominatorSets(rpo, idoms)
        case Err(e) => Err(e)
        case Ok(sets) => Ok(DominatorTree(rpo, idoms, sets))
  }

  /** The context the decompiler of a function works in, once its block starts are known. */
  function ContextOf(f: Function, starts: map<BlockId, nat>, isBselClr: Instruction -> bool): Context
    requires ListsOwnBlocks(f)
  {
    Context(Body(f), f.arena, starts, isBselClr, ActionOf)
  }

  /**
   * `new Decompiler(function).Decompile()`: the instruction list, the block starts and the
   * dominators are computed, each of which may throw, and then the block from the first
   * instruction is the function's body.
   */
  function DecompileFunction(f: Function, isBselClr: Instruction -> bool, fuel: nat): (r: Result<FunctionNode>)
    ensures r.Ok? ==> r.value.hash == f.nameHash
  {
    match ListError(f)
    case Some(e) => Err(e)
    case None =>
      match StartIndices(f)
      case Err(e) => Err(e)
      case Ok(starts) =>
        match DominatorsOf(f, fuel)
        case Err(e) => Err(e)
        case Ok(_) =>
          match BlockFrom(ContextOf(f, starts, isBselClr), fuel, 0, [], false, [])
          case Err(e) => Err(e)
          case Ok(span) => Ok(FunctionNode(f.nameHash, span.statements))
  }

  /**
   * `new Decompiler(function).Decompile()` as written: the constructor first takes
   * `function.Instructions`, the function's index range of the script's list
   * (`FunctionInstructions`), and throws when that range does not exist. Past it the model
   * goes on as `DecompileFunction` does.
   */
  function DecompileFunctionAsWritten(f: Function, script: seq<Instruction>, isBselClr: Instruction -> bool, fuel: nat)
    : Result<FunctionNode>
  {
    match FunctionInstructions(f, script)
    case Err(e) => Err(e)
    case Ok(_) => DecompileFunction(f, isBselClr, fuel)
  }

  /**
   * A function as the graph pass and the parser build it has no first instruction index, so
   * as written decompiling it throws before any block is read, whatever the script holds.
   */
  lemma DecompileAsWrittenFails(f: Function, script: seq<Instruction>, isBselClr: Instruction -> bool, fuel: nat)
    requires f.firstInstructionIndex == -1
    ensures DecompileFunctionAsWritten(f, script, isBselClr, fuel) ==
      Err(Thrown("Specified argument was out of the range of valid values"))
  {
  }

  /** The function trees of `ToSource`'s loop, each decompiled in turn. */
  function Decompiled(fs: seq<Function>, isBselClr: Instruction -> bool, fuel: nat): (r: seq<Result<FunctionNode>>)
    ensures |r| == |fs|
    decreases |fs|
  {
    if |fs| == 0 then [] else [DecompileFunction(fs[0], isBselClr, fuel)] + Decompiled(fs[1..], isBselClr, fuel)
  }

  /** The `j`th tree is that of the `j`th function. */
  lemma {:induction false} DecompiledAt(fs: seq<Function>, isBselClr: Instruction -> bool, fuel: nat, j: nat)
    requires j < |fs|
    ensures Decompiled(fs, isBselClr, fuel)[j] == DecompileFunction(fs[j], isBselClr, fuel)
    decreases |fs|
  {
    if j > 0 {
      DecompiledAt(fs[1..], isBselClr, fuel, j - 1);
    }
  }

  /** `ToSource`'s loop over the script's functions: the first exception ends it. */
  function DecompileAll(fs: seq<Function>, isBselClr: Instruction -> bool, fuel: nat): Result<seq<FunctionNode>> {
    Collect(Decompiled(fs, isBselClr, fuel), 0)
  }

  /** Every function is decompiled, in order, and each tree is named by its function's hash. */
  lemma DecompiledInOrder(fs: seq<Function>, isBselClr: Instruction -> bool, fuel: nat)
    ensures DecompileAll(fs, isBselClr, fuel).Ok? <==> forall j | 0 <= j < |fs| :: DecompileFunction(fs[j], isBselClr, fuel).Ok?
    ensures DecompileAll(fs, isBselClr, fuel).Ok? ==>
      (|DecompileAll(fs, isBselClr, fuel).value| == |fs| &&
       forall j | 0 <= j < |fs| :: DecompileAll(fs, isBselClr, fuel).value[j] == DecompileFunction(fs[j], isBselClr, fuel).value &&
                                   DecompileAll(fs, isBselClr, fuel).value[j].hash == fs[j].nameHash)
  {
    forall j | 0 <= j < |fs| ensures Decompiled(fs, isBselClr, fuel)[j] == DecompileFunction(fs[j], isBselClr, fuel) {
      DecompiledAt(fs, isBselClr, fuel, j);
    }
  }
}

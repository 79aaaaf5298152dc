// The decompiler of src/MajiroLib/Script/Analysis/Source/DecompilerPass.cs as the source runs it:
// a `Decompiler` object per function whose evaluation stack and block start table are fields
// the methods update, an instruction pointer passed along (`ref int` in C#) and returned, and
// the `idoms` array of the dominator pass. Each method is proved to agree with the functions
// of the `Decompilation` module, where the properties of the results are proved.

module DecompilerPass {
  import opened Wrappers
  import opened Flags
  import opened Instructions
  import opened Graph
  import opened Syntax
  import opened Scripts
  import opened Decompilation
  import Relisting
  import Sorts
  import Dominators
  import StackTransitionPass

  const ToSourceFrom: string := "Unable to convert script to source representation from current state: "

  /** A method that returns nothing but may throw has done what `spec` says to the stack. */
  predicate Pushes(r: Result<()>, stack: seq<Expression>, spec: Result<seq<Expression>>) {
    match spec
    case Ok(s) => r.Ok? && stack == s
    case Err(e) => r == Err(e)
  }

  /** A statement, the instruction pointer and the stack after it, as one result. */
  function StatementOutcome(r: Result<Statement>, ip: nat, stack: seq<Expression>): Result<Step> {
    if r.Ok? then Ok(Step(r.value, ip, stack)) else Err(r.error)
  }

  /** The statements of a block, the instruction pointer and the stack after it, as one result. */
  function BlockOutcome(r: Result<seq<Statement>>, ip: nat, stack: seq<Expression>): Result<Span> {
    if r.Ok? then Ok(Span(r.value, ip, stack)) else Err(r.error)
  }

  class Decompiler {
    const func: Function
    /** `function.Instructions.ToList()`: the instructions of the listed blocks, in order. */
    const instructions: seq<Instruction>
    const isBselClr: Instruction -> bool
    /** The opcode switch of `DecompileStatement`, which is `ActionOf`. */
    const actionOf: int -> Action
    var evaluationStack: seq<Expression>
    /** `StartIndices`: where each block's first instruction sits in `instructions`. */
    var startIndices: map<BlockId, nat>

    /** The instruction list can be built: every listed block is in the function. */
    predicate Valid() {
      Relisting.ListsOwnBlocks(func) && instructions == Relisting.Body(func)
    }

    /** What the decompiling functions read from the object. */
    function Current(): Context
      reads this`startIndices
    {
      Context(instructions, func.arena, startIndices, isBselClr, actionOf)
    }

    constructor(func: Function, isBselClr: Instruction -> bool)
      requires Relisting.ListsOwnBlocks(func)
      ensures Valid() && this.func == func && this.isBselClr == isBselClr && actionOf == ActionOf
      ensures evaluationStack == [] && startIndices == map[]
    {
      this.func := func;
      this.instructions := Relisting.Body(func);
      this.isBselClr := isBselClr;
      this.actionOf := ActionOf;
      evaluationStack := [];
      startIndices := map[];
    }

    // -------------------------------------------------------------------------------------
    // BuildBlockList, CalculateDominators

    /**
     * `BuildBlockList`: each listed block gets the position of its first instruction, which is
     * where the blocks before it end; a block listed twice or an empty block throws.
     */
    method BuildBlockList() returns (r: Result<()>)
      requires Valid()
      modifies this`startIndices
      ensures var spec := StartsFrom(func.arena, func.blocks.value, 0, old(startIndices));
        r.Ok? <==> spec.Ok?
      ensures var spec := StartsFrom(func.arena, func.blocks.value, 0, old(startIndices));
        if r.Ok? then startIndices == spec.value else r.error == spec.error
    {
      var order := func.blocks.value;
      var k := 0;
      var position := 0;
      while k < |order|
        invariant k <= |order| && position == |BlockInstructions(func.arena, order[..k])|
        invariant StartsFrom(func.arena, order, k, startIndices) == StartsFrom(func.arena, order, 0, old(startIndices))
      {
        var b := order[k];
        if b in startIndices {
          return Err(Thrown(DuplicateKey));
        }
        if |func.arena[b].instructions| == 0 {
          return Err(Thrown(NoElements));
        }
        startIndices := startIndices[b := position];
        assert order[..k + 1][..k] == order[..k];
        position := position + |func.arena[b].instructions|;
        k := k + 1;
      }
      return Ok(());
    }

    /**
     * `CalculateDominators`: a copy of the block list is sorted in post-order and reversed,
     * must start with the entry block, and then the idoms and the dominator sets are computed.
     */
    method CalculateDominators(fuel: nat) returns (r: Result<DominatorTree>)
      requires Valid()
      ensures r == DominatorsOf(func, fuel)
    {
      var rpo := new Sorts.NodeList(func.blocks.value);
      var sorted := rpo.PostOrderSort(StackTransitionPass.Successors(func.arena));
      if sorted.Err? {
        return Err(sorted.error);
      }
      rpo.Reverse();
      r := DominatorsFrom(rpo.items, fuel);
    }

    /** The part of `CalculateDominators` after the sort, on the reverse post-order `rpo`. */
    method DominatorsFrom(rpo: seq<BlockId>, fuel: nat) returns (r: Result<DominatorTree>)
      ensures r == DominatorsFromOrder(func, rpo, fuel)
    {
      if |rpo| == 0 {
        return Err(Thrown(IndexOutOfRange));
      }
      if func.entryBlock != Some(rpo[0]) {
        return Err(AssertFailed("rpo[0] == Function.EntryBlock"));
      }
      var idoms := Dominators.ComputeIdoms(func.arena, rpo, fuel);
      if idoms.Err? {
        return Err(idoms.error);
      }
      var sets := Dominators.PopulateSets(rpo, idoms.value);
      if sets.Err? {
        return Err(sets.error);
      }
      return Ok(DominatorTree(rpo, idoms.value, sets.value));
    }

    // -------------------------------------------------------------------------------------
    // The expression cases

    /** `PopArguments(count)`: the top `count` nodes, bottom first, taken off the stack. */
    method PopArguments(count: nat) returns (r: Result<seq<Expression>>)
      modifies this`evaluationStack
      ensures var spec := Decompilation.PopArguments(old(evaluationStack), count);
        if spec.Ok? then r == Ok(spec.value.1) && evaluationStack == spec.value.0 else r == Err(spec.error)
    {
      if |evaluationStack| < count {
        return Err(AssertFailed("EvaluationStack.Count >= count"));
      }
      var n := |evaluationStack| - count;
      r := Ok(evaluationStack[n..]);
      evaluationStack := evaluationStack[..n];
    }

    method ProcessBinaryExpression(operation: BinaryOperation, t: MjoType) returns (r: Result<()>)
      modifies this`evaluationStack
      ensures Pushes(r, evaluationStack, BinaryPushed(operation, t, old(evaluationStack)))
    {
      var n := |evaluationStack|;
      if n < 2 {
        return Err(AssertFailed("EvaluationStack.Count >= 2"));
      }
      var expr := Binary(evaluationStack[n - 2], evaluationStack[n - 1], operation, t);
      evaluationStack := evaluationStack[..n - 2] + [expr];
      return Ok(());
    }

    method ProcessUnaryExpression(operation: UnaryOperation, t: MjoType) returns (r: Result<()>)
      modifies this`evaluationStack
      ensures Pushes(r, evaluationStack, UnaryPushed(operation, t, old(evaluationStack)))
    {
      var n := |evaluationStack|;
      if n < 1 {
        return Err(AssertFailed("EvaluationStack.Count >= 1"));
      }
      evaluationStack := evaluationStack[n - 1 := Unary(evaluationStack[n - 1], operation, t)];
      return Ok(());
    }

    method ProcessCast(t: MjoType) returns (r: Result<()>)
      modifies this`evaluationStack
      ensures Pushes(r, evaluationStack, CastPushed(t, old(evaluationStack)))
    {
      var n := |evaluationStack|;
      if n < 1 {
        return Err(AssertFailed("EvaluationStack.Count >= 1"));
      }
      evaluationStack := evaluationStack[n - 1 := Cast(evaluationStack[n - 1], t)];
      return Ok(());
    }

    /** `ldelem`: the indices are popped and the array access pushed. */
    method ProcessElement(ins: Instruction) returns (r: Result<()>)
      modifies this`evaluationStack
      ensures Pushes(r, evaluationStack, ElementPushed(ins, old(evaluationStack)))
    {
      var dimension := Dimension(ins.flags);
      if |evaluationStack| < dimension {
        return Err(AssertFailed("EvaluationStack.Count >= dimension"));
      }
      if !(dimension > 0 && dimension <= 3) {
        return Err(AssertFailed("dimension > 0 && dimension <= 3"));
      }
      var indices := PopArguments(dimension);
      evaluationStack := evaluationStack + [ArrayAccess(ins.hash, ins.flags, indices.value)];
      return Ok(());
    }

    /** `call` and `syscall`: the arguments are popped and the call pushed. */
    method ProcessCall(ins: Instruction, isSyscall: bool) returns (r: Result<()>)
      modifies this`evaluationStack
      ensures Pushes(r, evaluationStack, CallPushed(ins, isSyscall, old(evaluationStack)))
    {
      var arguments := PopArguments(ins.argumentCount);
      if arguments.Err? {
        return Err(arguments.error);
      }
      evaluationStack := evaluationStack + [CallExpression(Call(ins.hash, isSyscall, arguments.value))];
      return Ok(());
    }

    /** The cases of the switch that `break` back into the `while` loop. */
    method Push(a: Action, ins: Instruction) returns (r: Result<()>)
      requires a.Continues()
      modifies this`evaluationStack
      ensures Pushes(r, evaluationStack, Decompilation.Pushed(a, ins, old(evaluationStack)))
    {
      match a
      case BinaryOp(op, t) => r := ProcessBinaryExpression(op, t);
      case UnaryOp(op, t) => r := ProcessUnaryExpression(op, t);
      case Convert(t) => r := ProcessCast(t);
      case LoadInt =>
        evaluationStack := evaluationStack + [LiteralInt(ins.intValue)];
        r := Ok(());
      case LoadString =>
        evaluationStack := evaluationStack + [LiteralString(ins.str)];
        r := Ok(());
      case LoadVariable =>
        evaluationStack := evaluationStack + [Identifier(ins.hash, ins.flags)];
        r := Ok(());
      case LoadFloat =>
        evaluationStack := evaluationStack + [LiteralFloat(ins.floatValue)];
        r := Ok(());
      case LoadElement => r := ProcessElement(ins);
      case CallValue(isSyscall) => r := ProcessCall(ins, isSyscall);
      case Skip => r := Ok(());
      case Unrecognized => r := Err(AssertFailed(UnrecognizedInstruction));
    }

    // -------------------------------------------------------------------------------------
    // The statement cases

    /** `ProcessAssignmentP`: the one node is the value, and the stack is cleared. */
    method ProcessAssignmentP(ins: Instruction, t: MjoType, operation: BinaryOperation) returns (r: Result<Statement>)
      modifies this`evaluationStack
      ensures r == AssignmentOf(ins, t, operation, old(evaluationStack))
      ensures r.Ok? ==> evaluationStack == []
    {
      if |evaluationStack| != 1 {
        return Err(AssertFailed("EvaluationStack.Count == 1"));
      }
      if Type(ins.flags) != t {
        return Err(AssertFailed("instruction.Flags.Type() == type"));
      }
      var value := evaluationStack[0];
      evaluationStack := [];
      return Ok(Assignment(value, ins.hash, ins.flags, t, operation));
    }

    /** `ProcessArrayAssignmentP`, as evidently intended: value at the bottom, indices above, stack cleared. */
    method ProcessArrayAssignmentP(ins: Instruction, t: MjoType, operation: BinaryOperation) returns (r: Result<Statement>)
      modifies this`evaluationStack
      ensures r == ArrayAssignmentOf(ins, t, operation, old(evaluationStack))
      ensures r.Ok? ==> evaluationStack == []
    {
      var dimension := Dimension(ins.flags);
      if |evaluationStack| != dimension + 1 {
        return Err(AssertFailed("EvaluationStack.Count == dimension + 1"));
      }
      if !(dimension > 0 && dimension <= 3) {
        return Err(AssertFailed("dimension > 0 && dimension <= 3"));
      }
      if Type(ins.flags) != t {
        return Err(AssertFailed("instruction.Flags.Type() == type"));
      }
      var value := evaluationStack[0];
      var indices := evaluationStack[1..];
      evaluationStack := [];
      return Ok(ArrayAssignment(value, indices, ins.hash, ins.flags, t, operation));
    }

    /** `callp` and `syscallp`: the whole stack is popped as the arguments. */
    method ProcessCallStatement(ins: Instruction, isSyscall: bool) returns (r: Result<Statement>)
      modifies this`evaluationStack
      ensures r == CallStatementOf(ins, isSyscall, old(evaluationStack))
      ensures r.Ok? ==> evaluationStack == []
    {
      if |evaluationStack| != ins.argumentCount {
        return Err(AssertFailed("EvaluationStack.Count == instruction.ArgumentCount"));
      }
      var arguments := PopArguments(ins.argumentCount);
      return Ok(CallStatement(Call(ins.hash, isSyscall, arguments.value)));
    }

    /** `ctrl`, as evidently intended: the stack holds exactly the control code's operands. */
    method ProcessCtrl(ins: Instruction) returns (r: Result<Statement>)
      modifies this`evaluationStack
      ensures r == CtrlOf(ins, old(evaluationStack))
      ensures r.Ok? ==> evaluationStack == []
    {
      var count := CtrlOperandCount(ins.str);
      if count.Err? {
        return Err(count.error);
      }
      if |evaluationStack| != count.value {
        return Err(AssertFailed("EvaluationStack.Count == operands"));
      }
      var operands := PopArguments(count.value);
      return Ok(Ctrl(ins.str, operands.value));
    }

    /** The cases that return a statement, with the pointer already past their instruction. */
    method StatementCase(fuel: nat, a: Action, ins: Instruction, ip: nat) returns (r: Result<Statement>, ip': nat)
      modifies this`evaluationStack
      ensures StatementOutcome(r, ip', evaluationStack) == StatementOf(Current(), fuel, a, ins, ip, old(evaluationStack))
      decreases fuel, 3
    {
      if a.DestructorOp? || a.BranchFalse? {
        r, ip' := NestedCase(fuel, a, ins, ip);
        return;
      }
      if a.Store? {
        r, ip' := StoreCase(a.storeType, a.operation, a.isArray, a.popped, ins, ip);
        return;
      }
      r, ip' := PlainCase(a, ins, ip);
    }

    /** The cases whose statement holds a block: `bsel.5` and `brfalse`. */
    method NestedCase(fuel: nat, a: Action, ins: Instruction, ip: nat) returns (r: Result<Statement>, ip': nat)
      requires a.DestructorOp? || a.BranchFalse?
      modifies this`evaluationStack
      ensures StatementOutcome(r, ip', evaluationStack) == StatementOf(Current(), fuel, a, ins, ip, old(evaluationStack))
      decreases fuel, 2
    {
      if a.DestructorOp? {
        r, ip' := DestructorCase(fuel, ins, ip);
        return;
      }
      r, ip' := IfCase(fuel, ins, ip);
    }

    /** The statements `PlainOf` describes, made from the instruction and the stack alone. */
    method PlainCase(a: Action, ins: Instruction, ip: nat) returns (r: Result<Statement>, ip': nat)
      modifies this`evaluationStack
      ensures StatementOutcome(r, ip', evaluationStack) == PlainOf(a, ins, ip, old(evaluationStack))
    {
      if a.CallVoid? {
        r, ip' := CallCase(a, ins, ip);
      } else if a.CtrlOp? {
        r, ip' := CtrlCase(a, ins, ip);
      } else if a.ReturnOp? {
        r, ip' := ReturnOf(evaluationStack), ip;
      } else if a.TextOp? || a.ProcOp? {
        if |evaluationStack| != 0 {
          return Err(AssertFailed("EvaluationStack.Count == 0")), ip;
        }
        r, ip' := Ok(if a.TextOp? then Text(ins.str) else Proc), ip;
      } else {
        r, ip' := Err(AssertFailed(UnrecognizedInstruction)), ip;
      }
    }

    /** A call statement, which takes the whole stack as its arguments. */
    method CallCase(a: Action, ins: Instruction, ip: nat) returns (r: Result<Statement>, ip': nat)
      requires a.CallVoid?
      modifies this`evaluationStack
      ensures StatementOutcome(r, ip', evaluationStack) == PlainOf(a, ins, ip, old(evaluationStack))
    {
      r := ProcessCallStatement(ins, a.isSyscall);
      ip' := ip;
    }

    /** A `ctrl`, which takes the whole stack as its operands. */
    method CtrlCase(a: Action, ins: Instruction, ip: nat) returns (r: Result<Statement>, ip': nat)
      requires a.CtrlOp?
      modifies this`evaluationStack
      ensures StatementOutcome(r, ip', evaluationStack) == PlainOf(a, ins, ip, old(evaluationStack))
    {
      r := ProcessCtrl(ins);
      ip' := ip;
    }

    /** The stores, `st*`, `stp*`, `stelem*` and `stelemp*`; the popping ones skip the `pop` after them. */
    method StoreCase(t: MjoType, op: BinaryOperation, isArray: bool, popped: bool, ins: Instruction, ip: nat)
      returns (r: Result<Statement>, ip': nat)
      modifies this`evaluationStack
      ensures StatementOutcome(r, ip', evaluationStack) == StoreOf(instructions, t, op, isArray, popped, ins, ip, old(evaluationStack))
    {
      ip' := ip;
      if popped {
        if ip >= |instructions| {
          return Err(Thrown(IndexOutOfRange)), ip;
        }
        if !IsPop(instructions[ip]) {
          return Err(AssertFailed("Instructions[pointer++].IsPop")), ip;
        }
        ip' := ip + 1;
      }
      if isArray {
        r := ProcessArrayAssignmentP(ins, t, op);
      } else {
        r := ProcessAssignmentP(ins, t, op);
      }
    }

    /** `bsel.5`: the `br` over the body, the clearing instruction, then the body up to the `br`'s target. */
    method DestructorCase(fuel: nat, ins: Instruction, ip: nat) returns (r: Result<Statement>, ip': nat)
      modifies this`evaluationStack
      ensures StatementOutcome(r, ip', evaluationStack) == DestructorAt(Current(), fuel, ins, ip, old(evaluationStack))
      decreases fuel, 1
    {
      ip' := ip;
      if ip >= |instructions| {
        return Err(Thrown(IndexOutOfRange)), ip;
      }
      var branch := instructions[ip];
      if !IsUnconditionalJump(branch) {
        return Err(AssertFailed("branch.IsUnconditionalJump")), ip;
      }
      var target := StartOf(Current(), ins.jumpTarget);
      if target.Err? {
        return Err(target.error), ip;
      }
      if target.value != ip + 1 {
        return Err(AssertFailed("GetBlockStartIndex(instruction.JumpTarget) == instructionPointer")), ip;
      }
      if ip + 1 >= |instructions| {
        return Err(Thrown(IndexOutOfRange)), ip;
      }
      if !isBselClr(instructions[ip + 1]) {
        return Err(AssertFailed("clear.IsBselClr")), ip;
      }
      var block, end := DecompileBlock(ip + 2, fuel);
      if block.Err? {
        return Err(block.error), ip;
      }
      var branchEnd := StartOf(Current(), branch.jumpTarget);
      if branchEnd.Err? {
        return Err(branchEnd.error), ip;
      }
      if end != branchEnd.value {
        return Err(AssertFailed("instructionPointer == GetBlockStartIndex(branch.JumpTarget)")), ip;
      }
      return Ok(Destructor(block.value)), end;
    }

    /** `brfalse`: the condition is popped, then the then branch and, unless it ends at the target, the else branch. */
    method IfCase(fuel: nat, ins: Instruction, ip: nat) returns (r: Result<Statement>, ip': nat)
      modifies this`evaluationStack
      ensures StatementOutcome(r, ip', evaluationStack) == IfAt(Current(), fuel, ins, ip, old(evaluationStack))
      decreases fuel, 1
    {
      ip' := ip;
      var popped := PopArguments(1);
      if popped.Err? {
        return Err(popped.error), ip;
      }
      var condition := popped.value[0];
      if ip >= |instructions| {
        return Err(Thrown(IndexOutOfRange)), ip;
      }
      var thenBranch, thenIp := DecompileBlock(ip, fuel);
      if thenBranch.Err? {
        return Err(thenBranch.error), ip;
      }
      var elseStart := StartOf(Current(), ins.jumpTarget);
      if elseStart.Err? {
        return Err(elseStart.error), ip;
      }
      if thenIp == elseStart.value {
        return Ok(If(condition, thenBranch.value, NoElse)), thenIp;
      }
      var elseBranch, elseIp := DecompileBlock(elseStart.value, fuel);
      if elseBranch.Err? {
        return Err(elseBranch.error), ip;
      }
      if thenIp != elseIp {
        return Err(AssertFailed("thenIp == elseIp")), ip;
      }
      return Ok(If(condition, thenBranch.value, ElseBlock(elseBranch.value))), elseIp;
    }

    // -------------------------------------------------------------------------------------
    // DecompileStatement, DecompileBlock, Decompile

    /**
     * `DecompileStatement(ref instructionPointer, ref merged)`: the `while` loop over the
     * instructions, which builds expressions on the stack until a case returns a statement.
     * `merged` is set exactly when that statement is an if.
     */
    method DecompileStatement(ip: nat, fuel: nat) returns (r: Result<Statement>, ip': nat)
      modifies this`evaluationStack
      ensures StatementOutcome(r, ip', evaluationStack) == StatementFrom(Current(), fuel, ip, old(evaluationStack))
      decreases fuel, 1
    {
      var pointer: nat, f: nat := ip, fuel;
      while pointer < |instructions|
        invariant f <= fuel
        invariant StatementFrom(Current(), f, pointer, evaluationStack) == StatementFrom(Current(), fuel, ip, old(evaluationStack))
        decreases f
      {
        if f == 0 {
          return Err(OutOfFuel), pointer;
        }
        var stop;
        stop, r, ip' := StatementTurn(pointer, f);
        if stop {
          return;
        }
        pointer, f := pointer + 1, f - 1;
      }
      if f == 0 {
        return Err(OutOfFuel), pointer;
      }
      return Err(Thrown(FailedStatement)), pointer;
    }

    /**
     * One turn of that loop, at an instruction: a case that ends the loop gives the statement,
     * any other pushes its expression and the loop goes on after it.
     */
    method StatementTurn(pointer: nat, f: nat) returns (stop: bool, r: Result<Statement>, ip': nat)
      requires pointer < |instructions| && f > 0
      modifies this`evaluationStack
      ensures stop ==> StatementOutcome(r, ip', evaluationStack) == StatementFrom(Current(), f, pointer, old(evaluationStack))
      ensures !stop ==> StatementFrom(Current(), f - 1, pointer + 1, evaluationStack) ==
                        StatementFrom(Current(), f, pointer, old(evaluationStack))
      decreases f, 0
    {
      var instruction := instructions[pointer];
      var a := actionOf(instruction.opcode.value);
      if !a.Continues() {
        r, ip' := StatementCase(f - 1, a, instruction, pointer + 1);
        return true, r, ip';
      }
      var pushed := Push(a, instruction);
      if pushed.Err? {
        return true, Err(pushed.error), pointer + 1;
      }
      return false, Err(OutOfFuel), pointer + 1;
    }

    /**
     * `DecompileBlock(ref instructionPointer)`: `line` is skipped, a `br` ends the block at its
     * target, a merge point ends it where it is unless the statement before was an if, and a
     * return ends it after the return.
     */
    method DecompileBlock(ip: nat, fuel: nat) returns (r: Result<seq<Statement>>, ip': nat)
      modifies this`evaluationStack
      ensures BlockOutcome(r, ip', evaluationStack) == BlockFrom(Current(), fuel, ip, old(evaluationStack), false, [])
      decreases fuel, 0
    {
      var statements: seq<Statement> := [];
      var merged := false;
      var pointer: nat, f: nat := ip, fuel;
      while true
        invariant f <= fuel
        invariant BlockFrom(Current(), f, pointer, evaluationStack, merged, statements) ==
                  BlockFrom(Current(), fuel, ip, old(evaluationStack), false, [])
        decreases f
      {
        if f == 0 {
          return Err(OutOfFuel), pointer;
        }
        if pointer >= |instructions| {
          return Err(Thrown(IndexOutOfRange)), pointer;
        }
        var instruction := instructions[pointer];
        if IsLine(instruction) {
          pointer, f := pointer + 1, f - 1;
          continue;
        }
        if IsUnconditionalJump(instruction) {
          var target := StartOf(Current(), instruction.jumpTarget);
          if target.Err? {
            return Err(target.error), pointer;
          }
          return Ok(statements), target.value;
        }
        var stop := StopsAt(Current(), instruction, pointer, merged);
        if stop.Err? {
          return Err(stop.error), pointer;
        }
        if stop.value {
          return Ok(statements), pointer;
        }
        var statement, next := DecompileStatement(pointer, f - 1);
        if statement.Err? {
          return Err(statement.error), pointer;
        }
        statements := statements + [statement.value];
        if statement.value.Return? {
          return Ok(statements), next;
        }
        merged := statement.value.If?;
        pointer, f := next, f - 1;
      }
    }

    /** `Decompile`: the block table, the dominators, then the block from the first instruction. */
    method Decompile(fuel: nat) returns (r: Result<FunctionNode>)
      requires Valid() && actionOf == ActionOf && evaluationStack == [] && startIndices == map[]
      modifies this
      ensures r == DecompileFunction(func, isBselClr, fuel)
    {
      var built := BuildBlockList();
      if built.Err? {
        return Err(built.error);
      }
      var dominators := CalculateDominators(fuel);
      if dominators.Err? {
        return Err(dominators.error);
      }
      assert Current() == ContextOf(func, startIndices, isBselClr);
      var block, _ := DecompileBlock(0, fuel);
      if block.Err? {
        return Err(block.error);
      }
      return Ok(FunctionNode(func.nameHash, block.value));
    }
  }

  // ---------------------------------------------------------------------------------------
  // ToSource

  /** One turn of `ToSource`'s loop: the function's blocks are listed, then it is decompiled. */
  method DecompileOne(fs: seq<Function>, k: nat, isBselClr: Instruction -> bool, fuel: nat) returns (r: Result<FunctionNode>)
    requires k < |fs|
    ensures r == Decompiled(fs, isBselClr, fuel)[k]
  {
    DecompiledAt(fs, isBselClr, fuel, k);
    var f := fs[k];
    var listError := Relisting.ListError(f);
    if listError.Some? {
      return Err(listError.value);
    }
    var decompiler := new Decompiler(f, isBselClr);
    r := decompiler.Decompile(fuel);
  }

  /** The loop of `ToSource`: a decompiler per function, the first exception ending it. */
  method DecompileFunctions(fs: seq<Function>, isBselClr: Instruction -> bool, fuel: nat) returns (r: Result<seq<FunctionNode>>)
    ensures r == DecompileAll(fs, isBselClr, fuel)
  {
    ghost var steps := Decompiled(fs, isBselClr, fuel);
    var nodes: seq<FunctionNode> := [];
    var k := 0;
    while k < |fs|
      invariant k <= |fs| && |nodes| == k
      invariant forall j | 0 <= j < k :: steps[j] == Ok(nodes[j])
    {
      var node := DecompileOne(fs, k, isBselClr, fuel);
      if node.Err? {
        Relisting.CollectFirstError(steps, k, 0);
        return Err(node.error);
      }
      nodes := nodes + [node.value];
      k := k + 1;
    }
    Relisting.CollectAll(steps, nodes);
    return Ok(nodes);
  }

  /**
   * `ToSource(MjoScript)`: a syntax tree is left as it is, and anything but an SSA graph
   * throws. An SSA graph goes into transition, each function is decompiled in turn, and the
   * script is a syntax tree once all are; the trees are returned instead of dumped.
   */
  method ToSource(script: MjoScript, isBselClr: Instruction -> bool, fuel: nat) returns (r: Result<seq<FunctionNode>>)
    modifies script`representation
    ensures old(script.representation) == SyntaxTree ==> r == Ok([]) && script.representation == SyntaxTree
    ensures old(script.representation) != SyntaxTree && old(script.representation) != SsaGraph ==>
      r == Err(Thrown(ToSourceFrom + RepresentationName(old(script.representation)))) &&
      script.representation == old(script.representation)
    ensures old(script.representation) == SsaGraph && script.functions.None? ==>
      r == Err(Thrown(NullReference)) && script.representation == InTransition
    ensures old(script.representation) == SsaGraph && script.functions.Some? ==>
      r == DecompileAll(script.functions.value, isBselClr, fuel) &&
      script.representation == if r.Ok? then SyntaxTree else InTransition
  {
    if script.representation == SyntaxTree {
      return Ok([]);
    }
    if script.representation != SsaGraph {
      return Err(Thrown(ToSourceFrom + RepresentationName(script.representation)));
    }
    script.representation := InTransition;
    if script.functions.None? {
      return Err(Thrown(NullReference));
    }
    r := DecompileFunctions(script.functions.value, isBselClr, fuel);
    if r.Ok? {
      script.representation := SyntaxTree;
    }
  }
}

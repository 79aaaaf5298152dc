// Basic blocks and functions of the graph representations
// (src/MajiroLib/Script/Analysis/ControlFlow/BasicBlock.cs, .../ControlFlow/Function.cs):
// the queries the passes rely on and the sanity checks each representation must pass.
// The blocks of a function live in an arena indexed by BlockId; the function's `Blocks`
// list is a sequence of those indices, so sorting it or walking it never copies a block.

module Graph {
  import opened Wrappers
  import opened Flags
  import opened Instructions

  datatype Representation = InstructionList | ControlFlowGraph | SsaGraph | SyntaxTree | InTransition

  /** The enum member's name, as string concatenation prints it. */
  function RepresentationName(r: Representation): (s: string)
    ensures |s| > 0
  {
    match r
    case InstructionList => "InstructionList"
    case ControlFlowGraph => "ControlFlowGraph"
    case SsaGraph => "SsaGraph"
    case SyntaxTree => "SyntaxTree"
    case InTransition => "InTransition"
  }

  datatype BasicBlock = BasicBlock(
    name: string,
    isEntryBlock: bool,
    isExitBlock: bool,
    predecessors: seq<BlockId>,
    successors: seq<BlockId>,
    instructions: seq<Instruction>,
    phiNodes: Option<seq<PhiInstruction>>,
    startState: Option<seq<StackValue>>,
    endState: Option<seq<StackValue>>)

  /** The constructor: a named block with no edges, no instructions and no stack states. */
  function NewBlock(name: string): (b: BasicBlock)
    ensures b.name == name && !b.isEntryBlock && !b.isExitBlock
    ensures b.predecessors == [] && b.successors == [] && b.instructions == []
    ensures b.phiNodes.None? && b.startState.None? && b.endState.None?
  {
    BasicBlock(name, false, false, [], [], [], None, None, None)
  }

  predicate IsUnreachable(b: BasicBlock) {
    !b.isEntryBlock && |b.predecessors| == 0
  }

  /** `Instructions.First()`, which throws on an empty block. */
  function FirstInstruction(b: BasicBlock): (r: Result<Instruction>)
    ensures r.Ok? <==> |b.instructions| > 0
    ensures r.Ok? ==> r.value == b.instructions[0]
  {
    if |b.instructions| == 0 then Err(Thrown("Sequence contains no elements")) else Ok(b.instructions[0])
  }

  /** `Instructions.Last()`, which throws on an empty block. */
  function LastInstruction(b: BasicBlock): (r: Result<Instruction>)
    ensures r.Ok? <==> |b.instructions| > 0
    ensures r.Ok? ==> r.value == b.instructions[|b.instructions| - 1]
  {
    if |b.instructions| == 0 then Err(Thrown("Sequence contains no elements"))
    else Ok(b.instructions[|b.instructions| - 1])
  }

  /** `StartOffset`: the offset of the first instruction, which may itself be null. */
  function StartOffset(b: BasicBlock): (r: Result<Option<UInt32>>)
    ensures r.Ok? <==> |b.instructions| > 0
    ensures r.Ok? ==> r.value == b.instructions[0].offset
  {
    match FirstInstruction(b)
    case Ok(i) => Ok(i.offset)
    case Err(e) => Err(e)
  }

  /**
   * `IsDestructorEntryBlock`: exactly one predecessor, and it ends in opcode 0x847. The `&&`
   * short-circuits, so a block with another number of predecessors is never an error.
   */
  function IsDestructorEntryBlock(arena: seq<BasicBlock>, b: BasicBlock): (r: Result<bool>)
    ensures |b.predecessors| != 1 ==> r == Ok(false)
    ensures |b.predecessors| == 1 && b.predecessors[0] < |arena| && |arena[b.predecessors[0]].instructions| > 0 ==>
      r == Ok(LastInstruction(arena[b.predecessors[0]]).value.opcode.value == 0x847)
  {
    if |b.predecessors| != 1 then Ok(false)
    else if b.predecessors[0] >= |arena| then Err(Thrown("Index was out of range"))
    else
      match LastInstruction(arena[b.predecessors[0]])
      case Ok(last) => Ok(last.opcode.value == 0x847)
      case Err(e) => Err(e)
  }

  /** Every id names a block of an arena of that size. */
  predicate InArena(ids: seq<BlockId>, size: nat) {
    forall k | 0 <= k < |ids| :: ids[k] < size
  }

  /** `BasicBlock.SanityCheck`: the stack fields are all null in a CFG and all set in SSA form. */
  function BlockSanityCheck(b: BasicBlock, rep: Representation): (r: Result<()>)
    ensures rep == InstructionList ==> r.Err?
    ensures rep == ControlFlowGraph ==> (r.Ok? <==> b.startState.None? && b.endState.None? && b.phiNodes.None?)
    ensures rep == SsaGraph ==> (r.Ok? <==> b.startState.Some? && b.endState.Some? && b.phiNodes.Some?)
    ensures rep != InstructionList && rep != ControlFlowGraph && rep != SsaGraph ==> r.Ok?
  {
    match rep
    case InstructionList => Err(AssertFailed("Blocks shouldn't exist in instruction list representation"))
    case ControlFlowGraph =>
      if b.startState.Some? || b.endState.Some? || b.phiNodes.Some? then Err(AssertFailed("CFG block with stack state"))
      else Ok(())
    case SsaGraph =>
      if b.startState.None? || b.endState.None? || b.phiNodes.None? then Err(AssertFailed("SSA block without stack state"))
      else Ok(())
    case _ => Ok(())
  }

  // ---------------------------------------------------------------------------------------
  // Functions

  datatype Function = Function(
    nameHash: bv32,
    firstInstructionIndex: int,
    lastInstructionIndex: int,
    entryBlock: Option<BlockId>,
    exitBlocks: Option<seq<BlockId>>,
    /** Every block of the function, by BlockId. */
    arena: seq<BasicBlock>,
    /** The `Blocks` list, in its current order. */
    blocks: Option<seq<BlockId>>,
    parameterTypes: Option<seq<MjoType>>,
    localTypes: Option<seq<MjoType>>)

  /** The constructor: a name hash, both instruction indices at -1, nothing else set. */
  function NewFunction(nameHash: bv32): (f: Function)
    ensures f.nameHash == nameHash && f.firstInstructionIndex == -1 && f.lastInstructionIndex == -1
    ensures f.entryBlock.None? && f.exitBlocks.None? && f.arena == [] && f.blocks.None?
    ensures f.parameterTypes.None? && f.localTypes.None?
  {
    Function(nameHash, -1, -1, None, None, [], None, None, None)
  }

  /** `InstructionCount`: the length of the index range once both ends are set, else -1. */
  function InstructionCount(f: Function): (n: int)
    ensures f.firstInstructionIndex != -1 && f.lastInstructionIndex != -1 ==>
      f.firstInstructionIndex + n - 1 == f.lastInstructionIndex
    ensures f.firstInstructionIndex == -1 || f.lastInstructionIndex == -1 ==> n == -1
  {
    if f.firstInstructionIndex != -1 && f.lastInstructionIndex != -1
    then f.lastInstructionIndex - f.firstInstructionIndex + 1 else -1
  }

  /**
   * `Instructions`: the script's instructions at first..last. `Enumerable.Range` throws on a
   * negative count or a start below zero, and the indexer throws past the end of the list.
   */
  function FunctionInstructions(f: Function, script: seq<Instruction>): (r: Result<seq<Instruction>>)
    ensures r.Ok? <==> 0 <= f.firstInstructionIndex && 0 <= InstructionCount(f)
                       && f.firstInstructionIndex + InstructionCount(f) <= |script|
    ensures r.Ok? ==> |r.value| == InstructionCount(f)
    ensures r.Ok? ==> forall k | 0 <= k < |r.value| :: r.value[k] == script[f.firstInstructionIndex + k]
  {
    var n := InstructionCount(f);
    if f.firstInstructionIndex < 0 || n < 0 then Err(Thrown("Specified argument was out of the range of valid values"))
    else if f.firstInstructionIndex + n > |script| then Err(Thrown("Index was out of range"))
    else Ok(script[f.firstInstructionIndex .. f.firstInstructionIndex + n])
  }

  /**
   * `Instructions` of a function in the graph forms: the instructions of the listed blocks, one
   * block after the other. (The revision of ControlFlow/Function.cs in this repository reads
   * an index range of the script instead; see FunctionInstructions.)
   */
  function BlockInstructions(arena: seq<BasicBlock>, order: seq<BlockId>): seq<Instruction>
    requires forall k | 0 <= k < |order| :: order[k] < |arena|
  {
    if |order| == 0 then [] else BlockInstructions(arena, order[..|order| - 1]) + arena[order[|order| - 1]].instructions
  }

  /** Whether block id starts at the given offset; evaluating it on an empty block throws. */
  function StartsAt(arena: seq<BasicBlock>, id: BlockId, offset: UInt32): Result<bool> {
    if id >= |arena| then Err(Thrown("Index was out of range"))
    else match StartOffset(arena[id])
      case Ok(o) => Ok(o == Some(offset))
      case Err(e) => Err(e)
  }

  /** `List.Find` over the block order from position k, with a predicate that may throw. */
  function FindBlock(arena: seq<BasicBlock>, order: seq<BlockId>, offset: UInt32, k: nat): (r: Result<Option<BlockId>>)
    requires k <= |order|
    decreases |order| - k
  {
    if k == |order| then Ok(None)
    else match StartsAt(arena, order[k], offset)
      case Err(e) => Err(e)
      case Ok(hit) => if hit then Ok(Some(order[k])) else FindBlock(arena, order, offset, k + 1)
  }

  /** Every block of the order from position k is in the arena and has an instruction. */
  predicate Inhabited(arena: seq<BasicBlock>, order: seq<BlockId>) {
    forall k | 0 <= k < |order| :: order[k] < |arena| && |arena[order[k]].instructions| > 0
  }

  /** Over inhabited blocks, `Find` yields the first block of the order that starts at offset. */
  lemma {:induction false} FindBlockFirst(arena: seq<BasicBlock>, order: seq<BlockId>, offset: UInt32, k: nat)
    requires k <= |order|
    ensures Inhabited(arena, order) ==> FindBlock(arena, order, offset, k).Ok?
    ensures Inhabited(arena, order) ==> (FindBlock(arena, order, offset, k).value.Some? <==>
      exists j | k <= j < |order| :: arena[order[j]].instructions[0].offset == Some(offset))
    ensures Inhabited(arena, order) && FindBlock(arena, order, offset, k).value.Some? ==>
      exists j | k <= j < |order| :: order[j] == FindBlock(arena, order, offset, k).value.value
        && arena[order[j]].instructions[0].offset == Some(offset)
        && forall m | k <= m < j :: arena[order[m]].instructions[0].offset != Some(offset)
    decreases |order| - k
  {
    if k < |order| && Inhabited(arena, order) {
      FindBlockFirst(arena, order, offset, k + 1);
      if FindBlock(arena, order, offset, k).value.Some? && arena[order[k]].instructions[0].offset != Some(offset) {
        var j :| k + 1 <= j < |order| && order[j] == FindBlock(arena, order, offset, k).value.value
          && arena[order[j]].instructions[0].offset == Some(offset)
          && forall m | k + 1 <= m < j :: arena[order[m]].instructions[0].offset != Some(offset);
        assert forall m | k <= m < j :: arena[order[m]].instructions[0].offset != Some(offset);
      }
    }
  }

  /** `BasicBlockFromOffset` of the current revision: the first block of `Blocks` starting at offset, or an error. */
  function BasicBlockFromOffset(f: Function, offset: UInt32): (r: Result<BlockId>)
    ensures f.blocks.Some? && Inhabited(f.arena, f.blocks.value) ==>
      (r.Ok? <==> exists j | 0 <= j < |f.blocks.value| :: f.arena[f.blocks.value[j]].instructions[0].offset == Some(offset))
    ensures r.Ok? ==>
      r.value < |f.arena| && |f.arena[r.value].instructions| > 0 && f.arena[r.value].instructions[0].offset == Some(offset)
  {
    if f.blocks.None? then Err(Thrown(NullReference))
    else
      var order := f.blocks.value;
      var found := FindBlock(f.arena, order, offset, 0);
      FindBlockFirst(f.arena, order, offset, 0);
      match found
      case Err(e) => Err(e)
      case Ok(None) => Err(Thrown("No block found at offset"))
      case Ok(Some(id)) =>
        FindBlockHit(f.arena, order, offset, 0);
        Ok(id)
  }

  /** A block `Find` returns does start at the offset. */
  lemma {:induction false} FindBlockHit(arena: seq<BasicBlock>, order: seq<BlockId>, offset: UInt32, k: nat)
    requires k <= |order|
    ensures FindBlock(arena, order, offset, k).Ok? && FindBlock(arena, order, offset, k).value.Some? ==>
      var id := FindBlock(arena, order, offset, k).value.value;
      id < |arena| && |arena[id].instructions| > 0 && arena[id].instructions[0].offset == Some(offset)
    decreases |order| - k
  {
    if k < |order| { FindBlockHit(arena, order, offset, k + 1); }
  }

  /** `Function.SanityCheck`: the type lists are set in both graph forms, and every block is checked. */
  function FunctionSanityCheck(f: Function, rep: Representation): (r: Result<()>)
    ensures rep == InstructionList ==> r.Err?
    ensures r.Ok? && (rep == ControlFlowGraph || rep == SsaGraph) ==> f.parameterTypes.Some? && f.localTypes.Some?
    ensures r.Ok? ==> f.blocks.Some?
    ensures r.Ok? ==> forall k | 0 <= k < |f.blocks.value| ::
      f.blocks.value[k] < |f.arena| && BlockSanityCheck(f.arena[f.blocks.value[k]], rep).Ok?
  {
    if rep == InstructionList then Err(AssertFailed("Functions shouldn't exist in instruction list representation"))
    else if (rep == ControlFlowGraph || rep == SsaGraph) && f.parameterTypes.None? then Err(AssertFailed("ParameterTypes != null"))
    else if (rep == ControlFlowGraph || rep == SsaGraph) && f.localTypes.None? then Err(AssertFailed("LocalTypes != null"))
    else if f.blocks.None? then Err(Thrown(NullReference))
    else BlocksSanityCheck(f.arena, f.blocks.value, rep, 0)
  }

  function BlocksSanityCheck(arena: seq<BasicBlock>, order: seq<BlockId>, rep: Representation, k: nat): (r: Result<()>)
    requires k <= |order|
    ensures r.Ok? <==> forall m | k <= m < |order| :: order[m] < |arena| && BlockSanityCheck(arena[order[m]], rep).Ok?
    decreases |order| - k
  {
    if k == |order| then Ok(())
    else if order[k] >= |arena| then Err(Thrown("Index was out of range"))
    else match BlockSanityCheck(arena[order[k]], rep)
      case Err(e) => Err(e)
      case Ok(_) => BlocksSanityCheck(arena, order, rep, k + 1)
  }
}

// One bytecode instruction (src/MajiroLib/Script/Instruction.cs) with the union of the fields
// the codec and the analysis passes read and write. Fields that C# declares nullable, or that
// a pass sets to null when it changes the script's representation, are options. Blocks are
// referred to by their index in the owning function's block arena.

module Instructions {
  import opened Wrappers
  import opened Flags
  import Opcodes

  /** A C# uint. */
  type UInt32 = x: int | 0 <= x < 0x1_0000_0000
  /** A C# int. */
  type Int32 = x: int | -0x8000_0000 <= x < 0x8000_0000
  /** A C# short. */
  type Int16 = x: int | -0x8000 <= x < 0x8000

  /** A basic block, as its index in the block arena of its function. */
  type BlockId = nat

  datatype StackValueCategory = Argument | Local | Temp

  /**
   * Where a stack value was created. C# compares the `StackValue` structs field by field, and
   * every value gets a fresh consumer list, so two values are the same exactly when they were
   * created by the same push or the same phi.
   */
  datatype Origin =
    /** The position-th value pushed by the index-th instruction of block. */
    | Pushed(block: BlockId, index: nat, position: nat)
    /** The phi node a block's merge created for one stack slot. */
    | Phi(block: BlockId, slot: nat)

  datatype StackValue = StackValue(category: StackValueCategory, valueType: MjoType, origin: Origin)

  datatype Instruction = Instruction(
    opcode: Opcodes.Opcode,
    offset: Option<UInt32>,
    size: Option<UInt32>,
    flags: MjoFlags,
    hash: bv32,
    varOffset: Int16,
    jumpOffset: Option<Int32>,
    typeList: seq<MjoType>,
    /** The string operand as its Shift-JIS bytes; None while it is null. */
    str: Option<seq<bv8>>,
    /** The resource key of an externalised string ("%{key}" in assembly text). */
    externalKey: Option<string>,
    intValue: Int32,
    /** The 'r' operand, kept as the bits of the IEEE single. */
    floatValue: bv32,
    argumentCount: Opcodes.UInt16,
    lineNumber: Opcodes.UInt16,
    /** The case displacements of a switch (`SwitchCases` in the older revision). */
    switchOffsets: Option<seq<Int32>>,
    block: Option<BlockId>,
    jumpTarget: Option<BlockId>,
    switchTargets: Option<seq<BlockId>>,
    beforeValues: Option<seq<StackValue>>,
    poppedValues: Option<seq<StackValue>>,
    pushedValues: Option<seq<StackValue>>)

  /** The constructor: opcode and offset set, every other field at its C# default. */
  function NewInstruction(opcode: Opcodes.Opcode, offset: Option<UInt32>): (r: Instruction)
    ensures r.opcode == opcode && r.offset == offset && r.size.None? && r.jumpOffset.None?
    ensures r.flags == 0 && r.hash == 0 && r.varOffset == 0 && r.intValue == 0 && r.floatValue == 0
    ensures r.argumentCount == 0 && r.lineNumber == 0 && r.typeList == []
    ensures r.str.None? && r.externalKey.None? && r.switchOffsets.None?
    ensures r.block.None? && r.jumpTarget.None? && r.switchTargets.None?
    ensures r.beforeValues.None? && r.poppedValues.None? && r.pushedValues.None?
  {
    Instruction(opcode, offset, None, 0, 0, 0, None, [], None, None, 0, 0, 0, 0, None, None, None, None,
                None, None, None)
  }

  /**
   * A phi node (src/MajiroLib/Script/Analysis/StackTransition/PhiInstruction.cs): the block
   * whose merge created it and the stack slot it merges. Its opcode is always `PhiOpcode()`.
   */
  datatype PhiInstruction = PhiInstruction(block: BlockId, stackBaseOffset: nat)

  /** The opcode of the phi instructions the stack simulator synthesises; it is not in the table. */
  function PhiOpcode(): Opcodes.Opcode {
    Opcodes.Opcode(0xFFFF, "phi", None, "p", "", [])
  }

  // ---------------------------------------------------------------------------------------
  // Opcode predicates

  predicate IsJump(i: Instruction) { Opcodes.IsJump(i.opcode) }
  predicate IsUnconditionalJump(i: Instruction) { i.opcode.value == 0x82c }
  predicate IsSwitch(i: Instruction) { i.opcode.value == 0x850 }
  predicate IsReturn(i: Instruction) { i.opcode.value == 0x82b }
  predicate IsArgCheck(i: Instruction) { i.opcode.value == 0x836 }
  predicate IsAlloca(i: Instruction) { i.opcode.value == 0x829 }
  predicate IsSysCall(i: Instruction) { i.opcode.value == 0x834 || i.opcode.value == 0x835 }
  predicate IsCall(i: Instruction) { i.opcode.value == 0x80f || i.opcode.value == 0x810 }
  predicate IsPhi(i: Instruction) { i.opcode.mnemonic == "phi" }
  /** `line`; the revision of Instruction.cs the decompiler uses is not part of this model. */
  predicate IsLine(i: Instruction) { i.opcode.value == 0x83a }
  /** `pop`; likewise taken from the table row of that mnemonic. */
  predicate IsPop(i: Instruction) { i.opcode.value == 0x82f }

  /** The instruction's opcode is the table's entry for its value, as the disassembler produces it. */
  predicate Decoded(i: Instruction) {
    i.opcode.value in Opcodes.ByValue() && Opcodes.ByValue()[i.opcode.value] == i.opcode
  }

  /** `brtrue` and `brfalse` are jumps, and only `br` is unconditional. */
  lemma ConditionalBranches(i: Instruction)
    requires Decoded(i) && (i.opcode.value == 0x82d || i.opcode.value == 0x82e)
    ensures IsJump(i) && !IsUnconditionalJump(i)
  {
    Opcodes.BrTrueIsJump();
    Opcodes.BrFalseIsJump();
  }

  /** A switch taken from the table is never a jump, so the passes treat it on its own. */
  lemma SwitchIsNoJump(i: Instruction)
    requires Decoded(i) && IsSwitch(i)
    ensures !IsJump(i)
  {
    Opcodes.SwitchIsNotJump();
  }

  /** Calls and system calls are told apart by value; no instruction is both. */
  lemma CallKindsDisjoint(i: Instruction)
    ensures !(IsCall(i) && IsSysCall(i))
    ensures IsCall(i) <==> i.opcode.value in {0x80f, 0x810}
    ensures IsSysCall(i) <==> i.opcode.value in {0x834, 0x835}
  {
  }

  /** Whether an instruction is a phi depends on its mnemonic alone: the value plays no part. */
  lemma PhiByMnemonic(i: Instruction, v: Opcodes.UInt16)
    ensures IsPhi(i) <==> IsPhi(i.(opcode := i.opcode.(value := v)))
    ensures IsPhi(NewInstruction(PhiOpcode(), None))
  {
  }
}

// A loaded script (src/MajiroLib/Script/MjoScript.cs) together with the fields the passes
// read and write as they move it between representations. Each field the passes set to null
// is an option; the instruction list, which ControlFlowPass sets to null, becomes empty.

module Scripts {
  import opened Wrappers
  import opened Instructions
  import opened Graph

  /** One entry of the function index: a name hash and the offset of the function's first instruction. */
  datatype FunctionEntry = FunctionEntry(nameHash: bv32, offset: UInt32)

  /** `List.FindIndex` with the predicate `instruction.Offset == offset`. */
  function IndexFromOffset(instructions: seq<Instruction>, offset: UInt32): (r: int)
    ensures r == -1 <==> forall k | 0 <= k < |instructions| :: instructions[k].offset != Some(offset)
    ensures r != -1 ==> 0 <= r < |instructions| && instructions[r].offset == Some(offset)
    ensures r != -1 ==> forall k | 0 <= k < r :: instructions[k].offset != Some(offset)
  {
    if |instructions| == 0 then -1
    else if instructions[0].offset == Some(offset) then 0
    else
      var rest := IndexFromOffset(instructions[1..], offset);
      if rest == -1 then -1 else rest + 1
  }

  /** Offsets that strictly increase along the list, as the disassembler and the flattening produce them. */
  predicate Ascending(instructions: seq<Instruction>) {
    (forall k | 0 <= k < |instructions| :: instructions[k].offset.Some?) &&
    forall j, k | 0 <= j < k < |instructions| :: instructions[j].offset.value < instructions[k].offset.value
  }

  /** With ascending offsets the lookup inverts indexing: the index of instruction k's offset is k. */
  lemma IndexOfOwnOffset(instructions: seq<Instruction>, k: nat)
    requires Ascending(instructions) && k < |instructions|
    ensures IndexFromOffset(instructions, instructions[k].offset.value) == k
  {
  }

  class MjoScript {
    var representation: Representation
    var entryPointOffset: Option<UInt32>
    var functionIndex: Option<seq<FunctionEntry>>
    var instructions: seq<Instruction>
    var functions: Option<seq<Function>>
    /** `EntryPointFunction`, as the position of that function in `functions`. */
    var entryPointFunction: Option<nat>
    var enableReadMark: bool
    /** `Instructions == null`, as the control flow pass leaves it; the list is then empty. */
    var instructionsNull: bool

    /** The constructor stores its arguments as they are; a new script is an instruction list. */
    constructor(entryPointOffset: UInt32, index: seq<FunctionEntry>, instructions: seq<Instruction>)
      ensures this.entryPointOffset == Some(entryPointOffset)
      ensures this.functionIndex == Some(index) && this.instructions == instructions
      ensures representation == InstructionList && functions.None? && entryPointFunction.None?
      ensures !enableReadMark && !instructionsNull
    {
      representation := InstructionList;
      this.entryPointOffset := Some(entryPointOffset);
      functionIndex := Some(index);
      this.instructions := instructions;
      functions := None;
      entryPointFunction := None;
      enableReadMark := false;
      instructionsNull := false;
    }

    /**
     * The parameterless constructor the assembler's parser uses: no index, no functions, no
     * entry point, an empty instruction list.
     */
    constructor Empty()
      ensures entryPointOffset.None? && functionIndex.None? && instructions == []
      ensures functions.None? && entryPointFunction.None? && !enableReadMark && !instructionsNull
      ensures representation == InstructionList
    {
      representation := InstructionList;
      entryPointOffset := None;
      functionIndex := None;
      instructions := [];
      functions := None;
      entryPointFunction := None;
      enableReadMark := false;
      instructionsNull := false;
    }

    /** `InstructionIndexFromOffset`: the first instruction at the offset, or -1. It reads the list and changes nothing. */
    function InstructionIndexFromOffset(offset: UInt32): (r: int)
      reads this`instructions
      ensures r == -1 <==> forall k | 0 <= k < |instructions| :: instructions[k].offset != Some(offset)
      ensures r != -1 ==> 0 <= r < |instructions| && instructions[r].offset == Some(offset)
      ensures r != -1 ==> forall k | 0 <= k < r :: instructions[k].offset != Some(offset)
    {
      IndexFromOffset(instructions, offset)
    }

    /** `Function.IsEntryPoint`: the function at position k is the script's entry point function. */
    predicate IsEntryPoint(k: nat)
      reads this`entryPointFunction
    {
      entryPointFunction == Some(k)
    }
  }
}

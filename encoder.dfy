// The per-instruction half of the assembler (src/MajiroLib/Script/Assembler.cs):
// `AssembleInstruction`, which writes an instruction's opcode and operands, and
// `GetInstructionSize`, which predicts how many bytes that takes. Both are specified by
// functions over the encoding letters; the methods run the source's loops. The lemmas relate
// the two to each other and to the decoder of module Bytecode.

module Encoder {
  import opened Wrappers
  import opened Bytes
  import opened Instructions
  import opened Bytecode
  import Opcodes

  /** The `(ushort)` cast of a length. */
  function UShort(n: nat): nat {
    n % 0x1_0000
  }

  /** The `Write(int)` of each case displacement in turn. */
  function WriteInt32s(vs: seq<Int32>): (r: seq<bv8>)
    ensures |r| == 4 * |vs|
  {
    if |vs| == 0 then [] else WriteInt32(vs[0]) + WriteInt32s(vs[1..])
  }

  /** 't': the `(ushort)` count, then one byte per type. */
  function EncodeTypeList(ins: Instruction): (r: seq<bv8>)
    ensures |r| == 2 + |ins.typeList|
  {
    WriteUInt16(UShort(|ins.typeList|)) + ins.typeList
  }

  /** 's': the `(ushort)` size counting the terminator, the bytes, then a zero; a null string throws. */
  function EncodeString(ins: Instruction): (r: Result<seq<bv8>>)
    ensures r.Ok? <==> ins.str.Some?
    ensures r.Ok? ==> |r.value| == 2 + |ins.str.value| + 1
  {
    if ins.str.None? then Err(Thrown("Value cannot be null. (Parameter 's')"))
    else Ok(WriteUInt16(UShort(|ins.str.value| + 1)) + ins.str.value + [0])
  }

  /** 'c': the `(ushort)` count, then each displacement; a null table throws. */
  function EncodeSwitchCases(ins: Instruction): (r: Result<seq<bv8>>)
    ensures r.Ok? <==> ins.switchOffsets.Some?
    ensures r.Ok? ==> |r.value| == 2 + 4 * |ins.switchOffsets.value|
  {
    if ins.switchOffsets.None? then Err(Thrown(NullReference))
    else Ok(WriteUInt16(UShort(|ins.switchOffsets.value|)) + WriteInt32s(ins.switchOffsets.value))
  }

  /** The fixed-width operands; a jump without a displacement throws. */
  function EncodeFixed(ins: Instruction, letter: char): (r: Result<seq<bv8>>)
    requires FixedWidth(letter)
    ensures r.Ok? <==> letter != 'j' || ins.jumpOffset.Some?
    ensures r.Ok? ==> |r.value| == Width(letter)
  {
    match letter
    case 'f' => Ok(WriteUInt16(ins.flags as nat))
    case 'h' => Ok(WriteUInt32(ins.hash as nat))
    case 'o' => Ok(WriteInt16(ins.varOffset))
    case '0' => Ok(WriteInt32(0))
    case 'i' => Ok(WriteInt32(ins.intValue))
    case 'r' => Ok(WriteUInt32(ins.floatValue as nat))
    case 'a' => Ok(WriteUInt16(ins.argumentCount))
    case 'j' =>
      if ins.jumpOffset.None? then Err(Thrown(NullableWithoutValue))
      else Ok(WriteInt32(ins.jumpOffset.value))
    case 'l' => Ok(WriteUInt16(ins.lineNumber))
  }

  /** The case of the operand switch for one encoding letter. Any letter outside the alphabet throws. */
  function EncodeOperand(ins: Instruction, letter: char): (r: Result<seq<bv8>>)
    ensures !Specifier(letter) ==> r.Err?
    ensures letter == 's' ==> (r.Ok? <==> ins.str.Some?)
    ensures letter == 'j' ==> (r.Ok? <==> ins.jumpOffset.Some?)
    ensures letter == 'c' ==> (r.Ok? <==> ins.switchOffsets.Some?)
  {
    if letter == 't' then Ok(EncodeTypeList(ins))
    else if letter == 's' then EncodeString(ins)
    else if letter == 'c' then EncodeSwitchCases(ins)
    else if FixedWidth(letter) then EncodeFixed(ins, letter)
    else Err(Thrown(UnrecognizedEncoding + [letter]))
  }

  /** The operand loop from letter k on: the letters' bytes in order, or the first exception. */
  function EncodeOperands(ins: Instruction, encoding: string, k: nat): (r: Result<seq<bv8>>)
    requires k <= |encoding|
    decreases |encoding| - k
  {
    if k == |encoding| then Ok([])
    else match EncodeOperand(ins, encoding[k])
      case Err(e) => Err(e)
      case Ok(w) =>
        match EncodeOperands(ins, encoding, k + 1)
        case Err(e) => Err(e)
        case Ok(ws) => Ok(w + ws)
  }

  /** What `AssembleInstruction` writes: the 16-bit opcode value, then the operands. */
  function Encode(ins: Instruction): (r: Result<seq<bv8>>)
    ensures r.Ok? ==> |r.value| >= 2 && Unsigned(r.value[..2]) == ins.opcode.value
  {
    match EncodeOperands(ins, ins.opcode.encoding, 0)
    case Err(e) => Err(e)
    case Ok(ws) =>
      var w := WriteUInt16(ins.opcode.value);
      assert (w + ws)[..2] == w;
      Ok(w + ws)
  }

  lemma {:induction false} EncodeOk(ins: Instruction, body: seq<bv8>)
    requires EncodeOperands(ins, ins.opcode.encoding, 0) == Ok(body)
    ensures Encode(ins) == Ok(WriteUInt16(ins.opcode.value) + body)
  {
  }

  /** `readMarkCount` after the instruction: raised to its line number when it has an 'l' operand. */
  function ReadMarks(ins: Instruction, readMarkCount: int): (m: int)
    ensures m >= readMarkCount
    ensures 'l' in ins.opcode.encoding ==> m >= ins.lineNumber
    ensures m == readMarkCount || ('l' in ins.opcode.encoding && m == ins.lineNumber)
  {
    if 'l' in ins.opcode.encoding && ins.lineNumber > readMarkCount then ins.lineNumber else readMarkCount
  }

  /**
   * `AssembleInstruction`: the bytes it hands the writer, opcode first, and the new
   * `readMarkCount`. An exception leaves the writer's stream unusable, so only the error is
   * returned then.
   */
  method AssembleInstruction(ins: Instruction, readMarkCount: int) returns (r: Result<seq<bv8>>, marks: int)
    ensures r == Encode(ins)
    ensures r.Ok? ==> marks == ReadMarks(ins, readMarkCount)
  {
    var header := WriteUInt16(ins.opcode.value);
    marks := readMarkCount;
    var encoding := ins.opcode.encoding;
    var operands: seq<bv8> := [];
    PrependEmpty(EncodeOperands(ins, encoding, 0));
    for k := 0 to |encoding|
      invariant EncodeOperands(ins, encoding, 0) == Prepend(operands, EncodeOperands(ins, encoding, k))
      invariant marks == MarksUpTo(encoding, k, ins.lineNumber, readMarkCount)
    {
      EncodeOperandsStep(ins, encoding, k);
      var w := EncodeOperand(ins, encoding[k]);
      if w.Err? {
        return Err(w.error), marks;
      }
      marks := Raise(marks, encoding[k], ins.lineNumber);
      PrependAssoc(operands, w.value, EncodeOperands(ins, encoding, k + 1));
      operands := operands + w.value;
    }
    MarksOfEncoding(encoding, |encoding|, ins.lineNumber, readMarkCount);
    assert encoding[..|encoding|] == encoding;
    assert operands + [] == operands;
    EncodeOk(ins, operands);
    return Ok(header + operands), marks;
  }

  /** `readMarkCount` after the first k letters: each 'l' raises it to the line number. */
  function MarksUpTo(encoding: string, k: nat, lineNumber: int, readMarkCount: int): int
    requires k <= |encoding|
  {
    if k == 0 then readMarkCount else Raise(MarksUpTo(encoding, k - 1, lineNumber, readMarkCount), encoding[k - 1], lineNumber)
  }

  /** `Math.Max(readMarkCount, instruction.LineNumber)` in the 'l' case; other letters leave it alone. */
  function Raise(readMarkCount: int, letter: char, lineNumber: int): int {
    if letter == 'l' && lineNumber > readMarkCount then lineNumber else readMarkCount
  }

  lemma {:induction false} MarksOfEncoding(encoding: string, k: nat, lineNumber: int, readMarkCount: int)
    requires k <= |encoding|
    ensures MarksUpTo(encoding, k, lineNumber, readMarkCount)
            == if 'l' in encoding[..k] && lineNumber > readMarkCount then lineNumber else readMarkCount
  {
    if k > 0 {
      MarksOfEncoding(encoding, k - 1, lineNumber, readMarkCount);
      assert encoding[..k] == encoding[..k - 1] + [encoding[k - 1]];
    }
  }

  /** One step of the operand loop: the bytes of letter k, then the rest. */
  lemma {:induction false} EncodeOperandsStep(ins: Instruction, encoding: string, k: nat)
    requires k < |encoding|
    ensures EncodeOperand(ins, encoding[k]).Err? ==>
      EncodeOperands(ins, encoding, k) == Err(EncodeOperand(ins, encoding[k]).error)
    ensures EncodeOperand(ins, encoding[k]).Ok? ==>
      EncodeOperands(ins, encoding, k) == Prepend(EncodeOperand(ins, encoding[k]).value, EncodeOperands(ins, encoding, k + 1))
  {
  }

  // ---------------------------------------------------------------------------------------
  // Instruction sizes

  /** 's': an externalised string has no size yet; otherwise the count, the bytes and the terminator. */
  function StringSize(ins: Instruction): (r: Result<nat>)
    ensures r.Ok? <==> ins.externalKey.None? && ins.str.Some?
    ensures r.Ok? ==> r.value == 2 + |ins.str.value| + 1
  {
    if ins.externalKey.Some? then
      Err(Thrown(ExternalizedString))
    else if ins.str.None? then Err(AssertFailed("instruction.String != null"))
    else Ok(2 + |ins.str.value| + 1)
  }

  /** 'c': `SwitchOffsets?.Length ?? SwitchTargets.Length` cases; the targets count while the displacements are unset. */
  function SwitchSize(ins: Instruction): (r: Result<nat>)
    ensures r.Ok? <==> ins.switchOffsets.Some? || ins.switchTargets.Some?
    ensures ins.switchOffsets.Some? ==> r == Ok(2 + 4 * |ins.switchOffsets.value|)
    ensures ins.switchOffsets.None? && ins.switchTargets.Some? ==> r == Ok(2 + 4 * |ins.switchTargets.value|)
  {
    if ins.switchOffsets.Some? then Ok(2 + 4 * |ins.switchOffsets.value|)
    else if ins.switchTargets.Some? then Ok(2 + 4 * |ins.switchTargets.value|)
    else Err(Thrown(NullReference))
  }

  const ExternalizedString: string :=
    "Unable to determine size of an instruction with an externalized string. Internalize all strings before encoding the script!"

  /** What one letter adds to `GetInstructionSize`, before the 32-bit wrap-around. */
  function OperandSize(ins: Instruction, letter: char): (r: Result<nat>)
    ensures !Specifier(letter) ==> r.Err?
    ensures FixedWidth(letter) ==> r == Ok(Width(letter))
  {
    if letter == 't' then Ok(2 + |ins.typeList|)
    else if letter == 's' then StringSize(ins)
    else if letter == 'c' then SwitchSize(ins)
    // f, o, a and l take two bytes; h, 0, i, r and j take four.
    else if FixedWidth(letter) then Ok(Width(letter))
    else Err(Thrown("Unknown encoding specifier: " + [letter]))
  }

  /** The sizes of the letters from k on, added up, or the first exception. */
  function OperandsSize(ins: Instruction, encoding: string, k: nat): (r: Result<nat>)
    requires k <= |encoding|
    decreases |encoding| - k
  {
    if k == |encoding| then Ok(0)
    else match OperandSize(ins, encoding[k])
      case Err(e) => Err(e)
      case Ok(w) => Plus(w, OperandsSize(ins, encoding, k + 1))
  }

  /** `GetInstructionSize`: two bytes of opcode plus the operands, in a `uint` that wraps around. */
  function InstructionSize(ins: Instruction): (r: Result<UInt32>)
    ensures r.Ok? <==> OperandsSize(ins, ins.opcode.encoding, 0).Ok?
    ensures r.Ok? ==> r.value == Wrap32(2 + OperandsSize(ins, ins.opcode.encoding, 0).value)
  {
    match OperandsSize(ins, ins.opcode.encoding, 0)
    case Err(e) => Err(e)
    case Ok(total) => Ok(Wrap32(2 + total))
  }

  /** The size depends on the operands only: giving an instruction an offset and a size does not change it. */
  lemma PlacementKeepsSize(ins: Instruction, offset: Option<UInt32>, size: Option<UInt32>)
    ensures InstructionSize(ins.(offset := offset, size := size)) == InstructionSize(ins)
  {
    OperandsSizeSame(ins, ins.(offset := offset, size := size), ins.opcode.encoding, 0);
  }

  /** Two instructions with the same sized operands have the same operand sizes. */
  lemma {:induction false} OperandsSizeSame(a: Instruction, b: Instruction, encoding: string, k: nat)
    requires k <= |encoding|
    requires a.typeList == b.typeList && a.str == b.str && a.externalKey == b.externalKey
    requires a.switchOffsets == b.switchOffsets && a.switchTargets == b.switchTargets
    ensures OperandsSize(a, encoding, k) == OperandsSize(b, encoding, k)
    decreases |encoding| - k
  {
    if k < |encoding| {
      assert OperandSize(a, encoding[k]) == OperandSize(b, encoding[k]);
      OperandsSizeSame(a, b, encoding, k + 1);
    }
  }

  /** A running total put in front of the sizes of the rest of the loop. */
  function Plus(total: nat, rest: Result<nat>): Result<nat> {
    match rest
    case Err(e) => Err(e)
    case Ok(w) => Ok(total + w)
  }

  lemma {:induction false} OperandsSizeStep(ins: Instruction, encoding: string, k: nat, total: nat)
    requires k < |encoding|
    ensures OperandSize(ins, encoding[k]).Err? ==>
      Plus(total, OperandsSize(ins, encoding, k)) == Err(OperandSize(ins, encoding[k]).error)
    ensures OperandSize(ins, encoding[k]).Ok? ==>
      Plus(total, OperandsSize(ins, encoding, k))
      == Plus(total + OperandSize(ins, encoding[k]).value, OperandsSize(ins, encoding, k + 1))
  {
  }

  /** Adding to a wrapped total wraps like adding to the exact one. */
  /** A value taken into a C# `uint`, which keeps its low 32 bits. */
  function Wrap32(x: nat): UInt32 {
    x % 0x1_0000_0000
  }

  lemma {:induction false} WrapAdd(a: nat, w: nat)
    ensures Wrap32(Wrap32(a) + w) == Wrap32(a + w)
  {
  }

  /** The source's loop: each letter's size is added to a `uint` that starts at 2. */
  method GetInstructionSize(ins: Instruction) returns (r: Result<UInt32>)
    ensures r == InstructionSize(ins)
  {
    var size: UInt32 := 2;
    assert Wrap32(2) == 2;
    ghost var total: nat := 0;
    var encoding := ins.opcode.encoding;
    for k := 0 to |encoding|
      invariant size == Wrap32(2 + total)
      invariant Plus(0, OperandsSize(ins, encoding, 0)) == Plus(total, OperandsSize(ins, encoding, k))
    {
      OperandsSizeStep(ins, encoding, k, total);
      var w := OperandSize(ins, encoding[k]);
      if w.Err? {
        return Err(w.error);
      }
      WrapAdd(2 + total, w.value);
      size := Wrap32(size + w.value);
      total := total + w.value;
    }
    return Ok(size);
  }

  // ---------------------------------------------------------------------------------------
  // The size matches the encoding

  /** Each letter's predicted size is the number of bytes it writes, once strings are internal. */
  lemma {:induction false} OperandSizeOfEncoding(ins: Instruction, letter: char)
    requires ins.externalKey.None? && EncodeOperand(ins, letter).Ok?
    ensures OperandSize(ins, letter) == Ok(|EncodeOperand(ins, letter).value|)
  {
  }

  lemma {:induction false} OperandsSizeOfEncoding(ins: Instruction, encoding: string, k: nat)
    requires k <= |encoding|
    requires ins.externalKey.None? && EncodeOperands(ins, encoding, k).Ok?
    ensures OperandsSize(ins, encoding, k) == Ok(|EncodeOperands(ins, encoding, k).value|)
    decreases |encoding| - k
  {
    if k < |encoding| {
      EncodeOperandsStep(ins, encoding, k);
      OperandSizeOfEncoding(ins, encoding[k]);
      OperandsSizeOfEncoding(ins, encoding, k + 1);
    }
  }

  /**
   * What `GetInstructionSize` predicts is what `AssembleInstruction` writes, modulo 2^32: the
   * assembler's offsets and jump displacements therefore agree with the bytes it emits.
   */
  lemma {:induction false} SizeOfEncoding(ins: Instruction)
    requires ins.externalKey.None? && Encode(ins).Ok?
    ensures InstructionSize(ins) == Ok(Wrap32(|Encode(ins).value|))
  {
    OperandsSizeOfEncoding(ins, ins.opcode.encoding, 0);
  }
}

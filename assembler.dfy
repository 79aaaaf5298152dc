// Writing a compiled script (src/MajiroLib/Script/Assembler.cs, AssembleScript and
// AssembleByteCode): the instructions encoded back to back at the offsets they claim, the
// header with the function index, and the blob encrypted with the CRC-32 keystream. The
// lemmas show that the disassembler reads the file back: the header fields as written, and
// each instruction with its opcode, its operands, its offset and its size.

module Assembler {
  import opened Wrappers
  import opened Bytes
  import opened Instructions
  import opened Bytecode
  import opened Encoder
  import opened Codec
  import opened Scripts
  import opened Disassembler
  import Crc
  import opened Graph
  import opened ScriptWriter
  import opened Relisting
  import opened ControlFlowPass

  const OffsetMismatch: string := "instruction offset differs from the running offset"

  // ---------------------------------------------------------------------------------------
  // The byte code

  /**
   * `AssembleByteCode` from instruction k on, with `currentOffset` at current: each
   * instruction must sit at the running offset (a `Debug.Assert`), is sized, and is written;
   * the running offset is a `uint` and wraps around.
   */
  function AssembleFrom(instructions: seq<Instruction>, k: nat, current: UInt32): (r: Result<seq<bv8>>)
    requires k <= |instructions|
    decreases |instructions| - k, 1
  {
    if k == |instructions| then Ok([]) else AssembleAt(instructions, k, current)
  }

  /** One turn of the loop: instruction k at the running offset, sized, written, then the rest. */
  function AssembleAt(instructions: seq<Instruction>, k: nat, current: UInt32): (r: Result<seq<bv8>>)
    requires k < |instructions|
    decreases |instructions| - k, 0
  {
    var ins := instructions[k];
    if ins.offset != Some(current) then Err(AssertFailed(OffsetMismatch))
    else match InstructionSize(ins)
      case Err(e) => Err(e)
      case Ok(size) =>
        match Encode(ins)
        case Err(e) => Err(e)
        case Ok(bytes) => Prepend(bytes, AssembleFrom(instructions, k + 1, Wrap32(current + size)))
  }

  /** `readMarkCount` after instruction k on, starting from readMarkCount. */
  function MarksFrom(instructions: seq<Instruction>, k: nat, readMarkCount: int): int
    requires k <= |instructions|
    decreases |instructions| - k
  {
    if k == |instructions| then readMarkCount
    else MarksFrom(instructions, k + 1, ReadMarks(instructions[k], readMarkCount))
  }

  /** The instruction has a line-number operand. */
  predicate HasLine(ins: Instruction) {
    'l' in ins.opcode.encoding
  }

  /**
   * The read-mark count is the largest line number of the instructions with an 'l' operand,
   * or the starting count when that is larger: it bounds each of them and is one of them.
   */
  lemma {:induction false} MarksAreMaximum(instructions: seq<Instruction>, k: nat, readMarkCount: int)
    requires k <= |instructions|
    ensures MarksFrom(instructions, k, readMarkCount) >= readMarkCount
    ensures forall j | k <= j < |instructions| && HasLine(instructions[j]) ::
      MarksFrom(instructions, k, readMarkCount) >= instructions[j].lineNumber
    ensures MarksFrom(instructions, k, readMarkCount) == readMarkCount ||
      exists j | k <= j < |instructions| :: HasLine(instructions[j]) &&
        MarksFrom(instructions, k, readMarkCount) == instructions[j].lineNumber
    decreases |instructions| - k
  {
    if k < |instructions| {
      var m := ReadMarks(instructions[k], readMarkCount);
      MarksAreMaximum(instructions, k + 1, m);
      if MarksFrom(instructions, k, readMarkCount) != readMarkCount && m != readMarkCount {
        if MarksFrom(instructions, k + 1, m) == m {
          assert HasLine(instructions[k]) && m == instructions[k].lineNumber;
        }
      }
    }
  }

  /** The count stays within the `ushort` line numbers, so it fits the header's `int`. */
  lemma {:induction false} MarksBound(instructions: seq<Instruction>, k: nat, readMarkCount: int)
    requires k <= |instructions| && 0 <= readMarkCount < 0x1_0000
    ensures 0 <= MarksFrom(instructions, k, readMarkCount) < 0x1_0000
  {
    MarksAreMaximum(instructions, k, readMarkCount);
  }

  /** The loop stops at an instruction that is not at the running offset. */
  lemma {:induction false} Misplaced(instructions: seq<Instruction>, k: nat, current: UInt32)
    requires k < |instructions|
    ensures instructions[k].offset != Some(current) ==>
      AssembleFrom(instructions, k, current) == Err(AssertFailed(OffsetMismatch))
  {
  }

  /** The loop stops at an instruction that cannot be sized. */
  lemma {:induction false} Unsized(instructions: seq<Instruction>, k: nat, current: UInt32, size: Result<UInt32>)
    requires k < |instructions| && instructions[k].offset == Some(current)
    requires size == InstructionSize(instructions[k])
    ensures size.Err? ==> AssembleFrom(instructions, k, current) == Err(size.error)
  {
  }

  /** Past the offset check and the sizing: the instruction's bytes, or its encoding error. */
  lemma {:induction false} Placed(instructions: seq<Instruction>, k: nat, current: UInt32, size: UInt32, bytes: Result<seq<bv8>>)
    requires k < |instructions| && instructions[k].offset == Some(current)
    requires InstructionSize(instructions[k]) == Ok(size) && bytes == Encode(instructions[k])
    ensures bytes.Err? ==> AssembleFrom(instructions, k, current) == Err(bytes.error)
    ensures bytes.Ok? ==> AssembleFrom(instructions, k, current)
                          == Prepend(bytes.value, AssembleFrom(instructions, k + 1, Wrap32(current + size)))
  {
  }

  /** Past the last instruction nothing more is written. */
  lemma {:induction false} AssembledAll(instructions: seq<Instruction>, current: UInt32, written: seq<bv8>)
    ensures Prepend(written, AssembleFrom(instructions, |instructions|, current)) == Ok(written)
  {
    assert written + [] == written;
  }

  /**
   * The source's loop: the offset check, `currentOffset += GetInstructionSize(instruction)`,
   * then `AssembleInstruction`, which appends the bytes and raises the read-mark count.
   */
  method AssembleByteCode(instructions: seq<Instruction>) returns (r: Result<seq<bv8>>, readMarkCount: int)
    ensures r == AssembleFrom(instructions, 0, 0)
    ensures r.Ok? ==> readMarkCount == MarksOf(instructions)
  {
    readMarkCount := 0;
    var currentOffset: UInt32 := 0;
    var written: seq<bv8> := [];
    PrependEmpty(AssembleFrom(instructions, 0, 0));
    for k := 0 to |instructions|
      invariant AssembleFrom(instructions, 0, 0) == Prepend(written, AssembleFrom(instructions, k, currentOffset))
      invariant MarksFrom(instructions, 0, 0) == MarksFrom(instructions, k, readMarkCount)
    {
      var ins := instructions[k];
      if ins.offset != Some(currentOffset) {
        Misplaced(instructions, k, currentOffset);
        return Err(AssertFailed(OffsetMismatch)), readMarkCount;
      }
      var size := GetInstructionSize(ins);
      if size.Err? {
        Unsized(instructions, k, currentOffset, size);
        return Err(size.error), readMarkCount;
      }
      var bytes, marks := AssembleInstruction(ins, readMarkCount);
      Placed(instructions, k, currentOffset, size.value, bytes);
      if bytes.Err? {
        return Err(bytes.error), readMarkCount;
      }
      PrependAssoc(written, bytes.value, AssembleFrom(instructions, k + 1, Wrap32(currentOffset + size.value)));
      currentOffset := Wrap32(currentOffset + size.value);
      written := written + bytes.value;
      readMarkCount := marks;
    }
    AssembledAll(instructions, currentOffset, written);
    return Ok(written), readMarkCount;
  }

  // ---------------------------------------------------------------------------------------
  // Reading the byte code back

  /**
   * What the disassembler makes of the bytes written for ins at its offset: a new instruction
   * there, with ins's opcode, the operands its encoding names, and the size `GetInstructionSize`
   * gives.
   */
  function Reread(ins: Instruction): (r: Instruction)
    ensures r.opcode == ins.opcode && r.offset == ins.offset
  {
    if ins.offset.Some? && InstructionSize(ins).Ok? then Codec.Decoded(ins, ins.offset.value, InstructionSize(ins).value)
    else ins
  }

  /** Reread of each instruction from k on. */
  function RereadFrom(instructions: seq<Instruction>, k: nat): (r: seq<Instruction>)
    requires k <= |instructions|
    ensures |r| == |instructions| - k
    decreases |instructions| - k
  {
    if k == |instructions| then [] else [Reread(instructions[k])] + RereadFrom(instructions, k + 1)
  }

  /**
   * What the round trip needs of the instructions: their string operands are internal (as
   * `InternalizeStrings` leaves them), their lengths fit the `ushort` counts, and the table
   * the disassembler uses knows their opcodes.
   */
  predicate Encodable(table: Table, instructions: seq<Instruction>) {
    forall j | 0 <= j < |instructions| :: EncodableOne(table, instructions[j])
  }

  /** The stream from p on is the byte code of instruction k on, assembled from offset p. */
  predicate AssemblesAt(instructions: seq<Instruction>, k: nat, data: seq<bv8>, p: nat) {
    k <= |instructions| && p <= |data| < 0x8000_0000 && AssembleFrom(instructions, k, p) == Ok(data[p..])
  }

  lemma {:induction false} WrapSmall(x: nat)
    requires x < 0x1_0000_0000
    ensures Wrap32(x) == x
  {
  }

  /** A successful step of the instruction loop: the bytes of instruction k, then those of the rest. */
  lemma {:induction false} AssembledStep(instructions: seq<Instruction>, k: nat, current: UInt32, bytes: seq<bv8>)
      returns (size: UInt32, e: seq<bv8>, rest: seq<bv8>)
    requires k < |instructions| && AssembleFrom(instructions, k, current) == Ok(bytes)
    ensures instructions[k].offset == Some(current)
    ensures InstructionSize(instructions[k]) == Ok(size) && Encode(instructions[k]) == Ok(e)
    ensures AssembleFrom(instructions, k + 1, Wrap32(current + size)) == Ok(rest) && bytes == e + rest
  {
    Misplaced(instructions, k, current);
    Unsized(instructions, k, current, InstructionSize(instructions[k]));
    size := InstructionSize(instructions[k]).value;
    Placed(instructions, k, current, size, Encode(instructions[k]));
    e := Encode(instructions[k]).value;
    rest := AssembleFrom(instructions, k + 1, Wrap32(current + size)).value;
  }

  lemma {:induction false} RereadIs(ins: Instruction, offset: UInt32, size: UInt32)
    requires ins.offset == Some(offset) && InstructionSize(ins) == Ok(size)
    ensures Reread(ins) == Codec.Decoded(ins, offset, size)
  {
  }

  /** The instruction at p decodes to d and the stream goes on at next. */
  predicate HeadIs(table: Table, data: seq<bv8>, p: nat, d: Instruction, next: nat) {
    p <= |data| < 0x8000_0000 && DecodeInstruction(table, data, p) == Ok(Read(d, next))
  }

  /** The stream loop, run from p, decodes the list. */
  predicate DecodesTo(table: Table, data: seq<bv8>, p: nat, list: seq<Instruction>) {
    p <= |data| < 0x8000_0000 && DecodeAll(table, data, p) == Ok(list)
  }

  /** The stream loop where an instruction decodes at p and the rest of the stream after it. */
  lemma {:induction false} DecodedThenRest(table: Table, data: seq<bv8>, p: nat, d: Instruction, next: nat, rest: seq<Instruction>)
    requires p < |data| && HeadIs(table, data, p, d, next) && DecodesTo(table, data, next, rest)
    ensures DecodesTo(table, data, p, [d] + rest)
  {
    DecodeAllStep(table, data, p);
  }

  lemma {:induction false} RereadFromStep(instructions: seq<Instruction>, k: nat)
    requires k < |instructions|
    ensures RereadFrom(instructions, k) == [Reread(instructions[k])] + RereadFrom(instructions, k + 1)
  {
  }

  /** What the round trip needs of one instruction. */
  predicate EncodableOne(table: Table, ins: Instruction) {
    Fits(ins) && ins.externalKey.None? && ins.opcode.value in table && table[ins.opcode.value] == ins.opcode
  }

  /** Decoding where the bytes of an instruction were written at its own offset gives Reread of it. */
  lemma {:induction false} RereadAt(table: Table, data: seq<bv8>, p: nat, ins: Instruction, e: seq<bv8>)
    requires EncodableOne(table, ins) && ins.offset == Some(p) && Encode(ins) == Ok(e)
    requires InstructionSize(ins) == Ok(|e|)
    requires p + |e| <= |data| < 0x8000_0000 && data[p .. p + |e|] == e
    ensures |e| > 0 && HeadIs(table, data, p, Reread(ins), p + |e|)
  {
    InstructionAt(table, data, p, ins, e);
    RereadIs(ins, p, |e|);
  }

  /** Instruction k is placed at the running offset, and the rest is assembled after it. */
  lemma {:induction false} AssembledSized(instructions: seq<Instruction>, k: nat, data: seq<bv8>, p: nat)
      returns (n: nat)
    requires AssemblesAt(instructions, k, data, p) && k < |instructions| && instructions[k].externalKey.None?
    ensures PlacedAt(instructions[k], data, p, p + n) && AssemblesAt(instructions, k + 1, data, p + n)
  {
    var size, e, rest := AssembledStep(instructions, k, p, data[p..]);
    SizeOfEncoding(instructions[k]);
    n := |e|;
    WrapSmall(n);
    WrapSmall(p + n);
    assert data[p .. p + n] == data[p..][..n] && data[p + n..] == data[p..][n..];
  }

  // The round trip goes through a layout: the start of each instruction's bytes in the blob.
  // Assembling lays the instructions out (an induction over the encoder alone), each placed
  // instruction decodes to Reread of itself (one instruction at a time), and a laid-out list
  // of decodable instructions is what the stream loop reads (an induction over the decoder).

  /** ins sits at p, and the bytes from p to q are its encoding and its size. */
  predicate PlacedAt(ins: Instruction, data: seq<bv8>, p: nat, q: nat) {
    p <= q <= |data| && ins.offset == Some(p) && Encode(ins) == Ok(data[p .. q]) && InstructionSize(ins) == Ok(q - p)
  }

  /** Instruction j, from k on, is placed from starts[j] to starts[j + 1]; the last ends the blob. */
  predicate LaidOut(instructions: seq<Instruction>, k: nat, data: seq<bv8>, starts: seq<nat>) {
    k <= |instructions| && |starts| == |instructions| + 1 && starts[|instructions|] == |data| &&
    forall j | k <= j < |instructions| :: PlacedAt(instructions[j], data, starts[j], starts[j + 1])
  }

  /** Instruction j, from k on, decodes at starts[j] to Reread of itself and ends at starts[j + 1]. */
  predicate ReadsLaidOut(table: Table, instructions: seq<Instruction>, k: nat, data: seq<bv8>, starts: seq<nat>) {
    k <= |instructions| && |starts| == |instructions| + 1 && starts[|instructions|] == |data| < 0x8000_0000 &&
    forall j | k <= j < |instructions| ::
      starts[j] < starts[j + 1] && HeadIs(table, data, starts[j], Reread(instructions[j]), starts[j + 1])
  }

  /** No instruction refers to an external string (what `InternalizeStrings` establishes). */
  predicate Internal(instructions: seq<Instruction>) {
    forall j | 0 <= j < |instructions| :: instructions[j].externalKey.None?
  }

  /** The byte code the loop writes from instruction k on lays the instructions out from p. */
  lemma {:induction false} AssembledLayout(instructions: seq<Instruction>, k: nat, data: seq<bv8>, p: nat)
      returns (starts: seq<nat>)
    requires Internal(instructions) && AssemblesAt(instructions, k, data, p)
    ensures LaidOut(instructions, k, data, starts) && starts[k] == p
    decreases |instructions| - k
  {
    if k == |instructions| {
      assert |data[p..]| == 0;
      starts := EmptyLayout(instructions, data);
    } else {
      var n := AssembledSized(instructions, k, data, p);
      var rest := AssembledLayout(instructions, k + 1, data, p + n);
      starts := LaidOutCons(instructions, k, data, rest, p);
    }
  }

  lemma {:induction false} EmptyLayout(instructions: seq<Instruction>, data: seq<bv8>) returns (starts: seq<nat>)
    ensures LaidOut(instructions, |instructions|, data, starts) && starts[|instructions|] == |data|
  {
    starts := seq(|instructions| + 1, j => |data|);
  }

  /** Placing instruction k in front of a layout of the rest. */
  lemma {:induction false} LaidOutCons(instructions: seq<Instruction>, k: nat, data: seq<bv8>, rest: seq<nat>, p: nat)
      returns (starts: seq<nat>)
    requires k < |instructions| && LaidOut(instructions, k + 1, data, rest)
    requires PlacedAt(instructions[k], data, p, rest[k + 1])
    ensures LaidOut(instructions, k, data, starts) && starts[k] == p
  {
    starts := rest[k := p];
    forall j | k <= j < |instructions|
      ensures PlacedAt(instructions[j], data, starts[j], starts[j + 1])
    {
      if j > k {
        assert PlacedAt(instructions[j], data, rest[j], rest[j + 1]);
      }
    }
  }

  /** Each placed encodable instruction decodes where it was placed. */
  lemma {:induction false} LaidOutReads(table: Table, instructions: seq<Instruction>, k: nat, data: seq<bv8>, starts: seq<nat>)
    requires Encodable(table, instructions) && LaidOut(instructions, k, data, starts) && |data| < 0x8000_0000
    ensures ReadsLaidOut(table, instructions, k, data, starts)
  {
    forall j | k <= j < |instructions|
      ensures starts[j] < starts[j + 1] && HeadIs(table, data, starts[j], Reread(instructions[j]), starts[j + 1])
    {
      assert EncodableOne(table, instructions[j]);
      assert PlacedAt(instructions[j], data, starts[j], starts[j + 1]);
      PlacedReads(table, instructions[j], data, starts[j], starts[j + 1]);
    }
  }

  /** An encodable instruction placed from p to q decodes there to Reread of itself. */
  lemma {:induction false} PlacedReads(table: Table, ins: Instruction, data: seq<bv8>, p: nat, q: nat)
    requires EncodableOne(table, ins) && PlacedAt(ins, data, p, q) && |data| < 0x8000_0000
    ensures p < q && HeadIs(table, data, p, Reread(ins), q)
  {
    RereadAt(table, data, p, ins, data[p .. q]);
  }

  /** The stream loop run from the start of instruction k reads Reread of each one from k on. */
  lemma {:induction false} LayoutDecodes(table: Table, instructions: seq<Instruction>, k: nat, data: seq<bv8>, starts: seq<nat>)
    requires ReadsLaidOut(table, instructions, k, data, starts)
    ensures RereadsAt(table, instructions, k, data, starts[k])
    decreases |instructions| - k
  {
    if k < |instructions| {
      LayoutDecodes(table, instructions, k + 1, data, starts);
      RereadThenRest(table, instructions, k, data, starts[k], starts[k + 1]);
    }
  }

  /**
   * The disassembler reads back what AssembleByteCode writes: decoding the blob from the
   * start of instruction k's bytes gives Reread of each instruction from k on.
   */
  lemma {:induction false} ByteCodeRoundTrip(table: Table, instructions: seq<Instruction>, k: nat, data: seq<bv8>, p: nat)
    requires Encodable(table, instructions) && AssemblesAt(instructions, k, data, p)
    ensures RereadsAt(table, instructions, k, data, p)
  {
    assert Internal(instructions) by {
      forall j | 0 <= j < |instructions| ensures instructions[j].externalKey.None? {
        assert EncodableOne(table, instructions[j]);
      }
    }
    var starts := AssembledLayout(instructions, k, data, p);
    LaidOutReads(table, instructions, k, data, starts);
    LayoutDecodes(table, instructions, k, data, starts);
  }

  /** Decoding from p gives Reread of each instruction from k on. */
  predicate RereadsAt(table: Table, instructions: seq<Instruction>, k: nat, data: seq<bv8>, p: nat) {
    k <= |instructions| && DecodesTo(table, data, p, RereadFrom(instructions, k))
  }

  /** Reread of instruction k at p, then the stream of the rest from q, where it ends. */
  lemma {:induction false} RereadThenRest(table: Table, instructions: seq<Instruction>, k: nat, data: seq<bv8>, p: nat, q: nat)
    requires k < |instructions| && p < q
    requires HeadIs(table, data, p, Reread(instructions[k]), q)
    requires RereadsAt(table, instructions, k + 1, data, q)
    ensures RereadsAt(table, instructions, k, data, p)
  {
    DecodedThenRest(table, data, p, Reread(instructions[k]), q, RereadFrom(instructions, k + 1));
    RereadFromStep(instructions, k);
  }

  /**
   * `AssembleScript`: the script is first brought to the instruction-list representation,
   * which flattens a control flow graph and throws from any other state; then its byte code is
   * assembled into a memory stream and written after the header. (Both bounds are those of a
   * .NET list's `Count`.)
   */
  method AssembleScript(script: MjoScript, encrypt: bool) returns (r: Result<seq<bv8>>, ghost listed: Result<()>)
    requires script.functionIndex.Some? ==> |script.functionIndex.value| < 0x8000_0000
    requires script.functions.Some? ==> |script.functions.value| < 0x8000_0000
    modifies script
    ensures old(script.representation) == InstructionList ==> listed == Ok(()) && unchanged(script)
    ensures old(script.representation) != InstructionList && old(script.representation) != ControlFlowGraph ==>
      listed == Err(Thrown(ToListFrom + RepresentationName(old(script.representation)))) && unchanged(script)
    ensures old(script.representation) == ControlFlowGraph ==>
      ListedAs(script, listed, Relist(old(script.functions), old(script.entryPointFunction)), old(script.enableReadMark))
    ensures listed.Err? ==> r == Err(listed.error)
    ensures listed.Ok? ==> r == ScriptFile(encrypt, script.entryPointOffset, script.enableReadMark, script.functionIndex,
                                           AssembleFrom(script.instructions, 0, 0), MarksOf(script.instructions))
  {
    ghost var functions, entry := script.functions, script.entryPointFunction;
    var conversion := ToInstructionList(script);
    listed := conversion;
    if conversion.Err? {
      return Err(conversion.error), listed;
    }
    if functions.Some? && Relist(functions, entry).Ok? {
      RelistedIndexCount(functions.value, entry);
    }
    var assembled, readMarkCount := AssembleByteCode(script.instructions);
    if assembled.Err? {
      return Err(assembled.error), listed;
    }
    r := WriteScript(encrypt, script.entryPointOffset, script.enableReadMark, script.functionIndex, assembled.value, readMarkCount);
  }

  /** The read-mark count of the whole byte code, which fits the header's `int`. */
  function MarksOf(instructions: seq<Instruction>): (m: int)
    ensures 0 <= m < 0x1_0000
  {
    MarksBound(instructions, 0, 0);
    MarksFrom(instructions, 0, 0)
  }

  /** The disassembler decodes these instructions from the file's decrypted blob. */
  predicate FileDecodesTo(table: Table, file: seq<bv8>, list: seq<Instruction>) {
    ParseHeader(file).Ok? && DecodeAll(table, PlainByteCode(ParseHeader(file).value), 0) == Ok(list)
  }

  /**
   * The disassembler reads back the file AssembleScript writes for encodable instructions:
   * the header fields as the script holds them, the read-mark count when read marks are
   * enabled, and from the decrypted blob Reread of every instruction.
   */
  lemma {:induction false} ScriptRoundTrip(table: Table, encrypt: bool, entryPoint: Option<UInt32>, enableReadMark: bool,
                                           index: Option<seq<FunctionEntry>>, instructions: seq<Instruction>, file: seq<bv8>)
    requires index.Some? ==> |index.value| < 0x8000_0000
    requires Encodable(table, instructions)
    requires ScriptFile(encrypt, entryPoint, enableReadMark, index, AssembleFrom(instructions, 0, 0), MarksOf(instructions)) == Ok(file)
    ensures HeaderHolds(file, encrypt, entryPoint, if enableReadMark then MarksOf(instructions) else 0, index)
    ensures FileDecodesTo(table, file, RereadFrom(instructions, 0))
  {
    var byteCode := AssembleFrom(instructions, 0, 0).value;
    FileRoundTrip(encrypt, entryPoint, enableReadMark, index, byteCode, MarksOf(instructions), file);
    assert byteCode[0..] == byteCode;
    ByteCodeRoundTrip(table, instructions, 0, byteCode, 0);
  }
}

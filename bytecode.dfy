// The per-instruction bytecode codec: `ReadInstruction` and `DisassembleByteCode`
// (src/MajiroLib/Script/Disassembler.cs), `AssembleInstruction` and `GetInstructionSize`
// (src/MajiroLib/Script/Assembler.cs). An instruction is its 16-bit opcode followed by one
// operand per letter of the opcode's encoding string.
//
// The decoder and the encoder are specified by functions over the encoding letters; the methods
// run the source's loops and are proved equal to them. The opcode table `Opcode.ByValue` is a
// parameter here, so that the lemmas hold for any table; the script disassembler passes
// Opcodes.ByValue().

module Bytecode {
  import opened Wrappers
  import opened Bytes
  import opened Instructions
  import Opcodes

  type Table = map<Opcodes.UInt16, Opcodes.Opcode>

  /** Every entry of the table is filed under its own value, as `ToDictionary(op => op.Value)` files them. */
  predicate Keyed(table: Table) {
    forall v | v in table :: table[v].value == v
  }

  lemma {:induction false} ByValueKeyed()
    ensures Keyed(Opcodes.ByValue())
  {
    var table := Opcodes.ByValue();
    forall v | v in table
      ensures table[v].value == v
    {
      assert v in Opcodes.ValueSet(Opcodes.List());
      var i :| 0 <= i < |Opcodes.List()| && Opcodes.List()[i].value == v;
    }
  }

  lemma {:induction false} Halves()
    ensures Half(2) == 0x8000 && Half(4) == 0x8000_0000
  {
    Widths();
  }

  // ---------------------------------------------------------------------------------------
  // Decoding

  /** `Enumerable.Range(0, count).Select(_ => reader.ReadInt32())`: count ints in a row. */
  function ReadInt32s(data: seq<bv8>, p: nat, count: nat): (r: Result<Read<seq<Int32>>>)
    requires p <= |data|
    ensures r.Ok? <==> p + 4 * count <= |data|
    ensures r.Ok? ==> |r.value.value| == count && r.value.next == p + 4 * count
    decreases count
  {
    if count == 0 then Ok(Read([], p))
    else match ReadSigned(data, p, 4)
      case Err(e) => Err(e)
      case Ok(Read(v, q)) =>
        Halves();
        match ReadInt32s(data, q, count - 1)
        case Err(e) => Err(e)
        case Ok(Read(vs, q')) => Ok(Read([v as Int32] + vs, q'))
  }

  /** 't': a u16 count, then that many type bytes; a short read at the end of the blob is not an error. */
  function ReadTypeList(data: seq<bv8>, p: nat, ins: Instruction): (r: Result<Read<Instruction>>)
    requires p <= |data|
    ensures r.Ok? ==> p + 2 <= r.value.next <= |data| && r.value.value == ins.(typeList := r.value.value.typeList)
  {
    match ReadUnsigned(data, p, 2)
    case Err(e) => Err(e)
    case Ok(Read(count, q)) =>
      var types := ReadBytes(data, q, count).value;
      Ok(Read(ins.(typeList := types.value), types.next))
  }

  /**
   * 's': a u16 size that counts the terminating zero, size - 1 bytes, then a byte that must be
   * zero. A size of 0 asks for -1 bytes, which throws.
   */
  function ReadString(data: seq<bv8>, p: nat, ins: Instruction): (r: Result<Read<Instruction>>)
    requires p <= |data|
    ensures r.Ok? ==> p + 2 <= r.value.next <= |data| && r.value.value.str.Some?
                      && r.value.value == ins.(str := r.value.value.str)
  {
    match ReadUnsigned(data, p, 2)
    case Err(e) => Err(e)
    case Ok(Read(size, q)) =>
      match ReadBytes(data, q, size - 1)
      case Err(e) => Err(e)
      case Ok(Read(bytes, q')) =>
        match ReadUnsigned(data, q', 1)
        case Err(e) => Err(e)
        case Ok(Read(terminator, q'')) =>
          if terminator != 0 then Err(AssertFailed("reader.ReadByte() == 0"))
          else Ok(Read(ins.(str := Some(bytes)), q''))
  }

  /** 'c': a u16 count, then that many i32 case displacements. */
  function ReadSwitchCases(data: seq<bv8>, p: nat, ins: Instruction): (r: Result<Read<Instruction>>)
    requires p <= |data|
    ensures r.Ok? ==> p + 2 <= r.value.next <= |data| && r.value.value.switchOffsets.Some?
                      && r.value.value == ins.(switchOffsets := r.value.value.switchOffsets)
  {
    match ReadUnsigned(data, p, 2)
    case Err(e) => Err(e)
    case Ok(Read(count, q)) =>
      match ReadInt32s(data, q, count)
      case Err(e) => Err(e)
      case Ok(Read(cases, q')) => Ok(Read(ins.(switchOffsets := Some(cases)), q'))
  }

  /** A u16 operand read as the flags word. */
  function Bits16(v: nat): bv16
    requires v < 0x1_0000
  {
    v as bv16
  }

  /** A u32 operand read as a 32-bit word (a hash, or the bits of a single). */
  function Bits32(v: nat): bv32
    requires v < 0x1_0000_0000
  {
    v as bv32
  }

  /** The fixed-width operands: u16 f/a/l, i16 o, u32 h/r, i32 0/i/j. */
  function ReadFixed(data: seq<bv8>, letter: char, p: nat, ins: Instruction): (r: Result<Read<Instruction>>)
    requires FixedWidth(letter) && p <= |data|
    ensures r.Ok? ==> r.value.next == p + Width(letter) <= |data|
    ensures r.Ok? ==> r.value.value.opcode == ins.opcode && r.value.value.offset == ins.offset
    ensures r.Ok? ==> r.value.value.size == ins.size
  {
    if p + Width(letter) > |data| then Err(Thrown(EndOfStream))
    else
      var u := Unsigned(data[p .. p + Width(letter)]);
      UnsignedBound(data[p .. p + Width(letter)]);
      Widths();
      Halves();
      var next := p + Width(letter);
      match letter
      case 'f' => Ok(Read(ins.(flags := Bits16(u)), next))
      case 'h' => Ok(Read(ins.(hash := Bits32(u)), next))
      case 'o' => Ok(Read(ins.(varOffset := SignedValue(u, 2)), next))
      case '0' => if SignedValue(u, 4) != 0 then Err(AssertFailed("reader.ReadInt32() == 0")) else Ok(Read(ins, next))
      case 'i' => Ok(Read(ins.(intValue := SignedValue(u, 4)), next))
      case 'r' => Ok(Read(ins.(floatValue := Bits32(u)), next))
      case 'a' => Ok(Read(ins.(argumentCount := u), next))
      case 'j' => Ok(Read(ins.(jumpOffset := Some(SignedValue(u, 4))), next))
      case 'l' => Ok(Read(ins.(lineNumber := u), next))
  }

  /** The letters of fixed-width operands: u16 f/a/l, i16 o, u32 h/r, i32 0/i/j. */
  predicate FixedWidth(letter: char) {
    letter == 'f' || letter == 'h' || letter == 'o' || letter == 'i' || letter == '0' ||
    letter == 'r' || letter == 'a' || letter == 'j' || letter == 'l'
  }

  /** The encoding letters the codec knows: the fixed-width ones, type lists, strings and switch tables. */
  predicate Specifier(letter: char) {
    letter == 't' || letter == 's' || letter == 'c' || FixedWidth(letter)
  }

  /** The width in bytes of a fixed-width operand. */
  function Width(letter: char): nat {
    if letter == 'f' || letter == 'a' || letter == 'o' || letter == 'l' then 2 else 4
  }

  /** The case of the operand switch for one encoding letter. Any letter outside the alphabet throws. */
  function ReadOperand(data: seq<bv8>, letter: char, p: nat, ins: Instruction): (r: Result<Read<Instruction>>)
    requires p <= |data|
    ensures r.Ok? ==> p + 2 <= r.value.next <= |data|
    ensures r.Ok? ==> r.value.value.opcode == ins.opcode && r.value.value.offset == ins.offset
    ensures r.Ok? ==> r.value.value.size == ins.size
    ensures !Specifier(letter) ==> r.Err?
  {
    if letter == 't' then ReadTypeList(data, p, ins)
    else if letter == 's' then ReadString(data, p, ins)
    else if letter == 'c' then ReadSwitchCases(data, p, ins)
    else if FixedWidth(letter) then ReadFixed(data, letter, p, ins)
    else Err(Thrown(UnrecognizedEncoding + [letter]))
  }

  /** The operand loop from letter k on. */
  function ReadOperands(data: seq<bv8>, encoding: string, k: nat, p: nat, ins: Instruction): (r: Result<Read<Instruction>>)
    requires k <= |encoding| && p <= |data|
    ensures r.Ok? ==> p + 2 * (|encoding| - k) <= r.value.next <= |data|
    ensures r.Ok? ==> r.value.value.opcode == ins.opcode && r.value.value.offset == ins.offset
    ensures r.Ok? ==> r.value.value.size == ins.size
    decreases |encoding| - k
  {
    if k == |encoding| then Ok(Read(ins, p))
    else match ReadOperand(data, encoding[k], p, ins)
      case Err(e) => Err(e)
      case Ok(Read(ins', q)) => ReadOperands(data, encoding, k + 1, q, ins')
  }

  /**
   * `ReadInstruction` at offset: the opcode, an error naming the offset when the table lacks it,
   * then the operands; the size is the number of bytes consumed.
   */
  function DecodeInstruction(table: Table, data: seq<bv8>, offset: nat): (r: Result<Read<Instruction>>)
    requires offset <= |data| < 0x8000_0000
    ensures r.Ok? ==> offset + 2 <= r.value.next <= |data|
    ensures r.Ok? ==> r.value.value.offset == Some(offset) && r.value.value.size == Some(r.value.next - offset)
    ensures r.Ok? && Keyed(table) ==> r.value.value.opcode.value in table && table[r.value.value.opcode.value] == r.value.value.opcode
  {
    Widths();
    match ReadUnsigned(data, offset, 2)
    case Err(e) => Err(e)
    case Ok(Read(value, q)) =>
      if value !in table then Err(UnknownOpcode(value, offset))
      else
        var opcode := table[value];
        Sized(ReadOperands(data, opcode.encoding, 0, q, NewInstruction(opcode, Some(offset))), offset)
  }

  /** The instruction read with its size set to the bytes consumed since offset. */
  function Sized(operands: Result<Read<Instruction>>, offset: nat): (r: Result<Read<Instruction>>)
    requires operands.Ok? ==> offset <= operands.value.next < offset + 0x1_0000_0000
    ensures r.Ok? <==> operands.Ok?
    ensures r.Err? ==> r.error == operands.error
    ensures r.Ok? ==> r.value.next == operands.value.next
    ensures r.Ok? ==> r.value.value == operands.value.value.(size := Some(operands.value.next - offset))
  {
    match operands
    case Err(e) => Err(e)
    case Ok(Read(ins, next)) => Ok(Read(ins.(size := Some(next - offset)), next))
  }

  /** A value missing from the table is reported with its offset, before any operand is read. */
  lemma {:induction false} UnknownOpcodeNamesOffset(table: Table, data: seq<bv8>, offset: nat)
    requires offset + 2 <= |data| < 0x8000_0000
    requires Unsigned(data[offset .. offset + 2]) !in table
    ensures DecodeInstruction(table, data, offset) == Err(UnknownOpcode(Unsigned(data[offset .. offset + 2]), offset))
  {
    Widths();
    assert ReadUnsigned(data, offset, 2) == Ok(Read(Unsigned(data[offset .. offset + 2]), offset + 2));
  }

  /** Fewer than two bytes left: the opcode read itself throws. */
  lemma {:induction false} DecodeInstructionShort(table: Table, data: seq<bv8>, offset: nat)
    requires offset <= |data| < offset + 2 && |data| < 0x8000_0000
    ensures DecodeInstruction(table, data, offset) == Err(ReadUnsigned(data, offset, 2).error)
  {
  }

  /** One step of the operand loop: the operand at letter k, then the rest. */
  lemma {:induction false} ReadOperandsStep(data: seq<bv8>, encoding: string, k: nat, p: nat, ins: Instruction)
    requires k < |encoding| && p <= |data|
    ensures ReadOperand(data, encoding[k], p, ins).Err? ==>
      ReadOperands(data, encoding, k, p, ins) == Err(ReadOperand(data, encoding[k], p, ins).error)
    ensures ReadOperand(data, encoding[k], p, ins).Ok? ==>
      ReadOperands(data, encoding, k, p, ins)
      == ReadOperands(data, encoding, k + 1, ReadOperand(data, encoding[k], p, ins).value.next,
                      ReadOperand(data, encoding[k], p, ins).value.value)
  {
  }

  lemma {:induction false} SizedOk(ins: Instruction, next: nat, offset: nat)
    requires offset <= next < offset + 0x1_0000_0000
    ensures Sized(Ok(Read(ins, next)), offset) == Ok(Read(ins.(size := Some(next - offset)), next))
  {
  }

  /** The decoder once the opcode is known: the operands from offset + 2, then the size. */
  lemma {:induction false} DecodeInstructionKnown(table: Table, data: seq<bv8>, offset: nat)
    requires offset + 2 <= |data| < 0x8000_0000
    requires Unsigned(data[offset .. offset + 2]) in table
    ensures DecodeInstruction(table, data, offset)
            == Sized(ReadOperands(data, table[Unsigned(data[offset .. offset + 2])].encoding, 0, offset + 2,
                                  NewInstruction(table[Unsigned(data[offset .. offset + 2])], Some(offset))), offset)
  {
    Widths();
    assert ReadUnsigned(data, offset, 2) == Ok(Read(Unsigned(data[offset .. offset + 2]), offset + 2));
  }

  /** DecodeInstructionKnown for an opcode the table maps its value to. */
  lemma {:induction false} DecodeOpcode(table: Table, data: seq<bv8>, offset: nat, opcode: Opcodes.Opcode, r: Instruction, next: nat)
    requires offset + 2 <= next <= |data| < 0x8000_0000
    requires Unsigned(data[offset .. offset + 2]) == opcode.value
    requires opcode.value in table && table[opcode.value] == opcode
    requires ReadOperands(data, opcode.encoding, 0, offset + 2, NewInstruction(opcode, Some(offset))) == Ok(Read(r, next))
    ensures DecodeInstruction(table, data, offset) == Sized(Ok(Read(r, next)), offset)
  {
    DecodeInstructionKnown(table, data, offset);
  }

  lemma {:induction false} SizedIs(x: Result<Read<Instruction>>, offset: nat, r: Instruction, n: nat)
    requires n < 0x1_0000_0000 && x == Sized(Ok(Read(r, offset + n)), offset)
    ensures x == Ok(Read(r.(size := Some(n)), offset + n))
  {
    SizedOk(r, offset + n, offset);
  }

  /** The decoder when the opcode's operands read as r from offset + 2 up to offset + n. */
  lemma {:induction false} DecodeOk(table: Table, data: seq<bv8>, offset: nat, opcode: Opcodes.Opcode, r: Instruction, n: nat)
    requires offset + n <= |data| < 0x8000_0000 && 2 <= n
    requires Unsigned(data[offset .. offset + 2]) == opcode.value
    requires opcode.value in table && table[opcode.value] == opcode
    requires ReadOperands(data, opcode.encoding, 0, offset + 2, NewInstruction(opcode, Some(offset))) == Ok(Read(r, offset + n))
    ensures DecodeInstruction(table, data, offset) == Ok(Read(r.(size := Some(n)), offset + n))
  {
    DecodeOpcode(table, data, offset, opcode, r, offset + n);
    SizedIs(DecodeInstruction(table, data, offset), offset, r, n);
  }

  /** `Disassembler.ReadInstruction`: the operand loop of the source, proved to decode as specified. */
  method ReadInstruction(table: Table, data: seq<bv8>, offset: nat) returns (r: Result<Instruction>, next: nat)
    requires offset <= |data| < 0x8000_0000
    ensures r.Err? ==> DecodeInstruction(table, data, offset) == Err(r.error)
    ensures r.Ok? ==> DecodeInstruction(table, data, offset) == Ok(Read(r.value, next))
  {
    Widths();
    next := offset;
    var opcodeValue := ReadUnsigned(data, offset, 2);
    if opcodeValue.Err? {
      DecodeInstructionShort(table, data, offset);
      return Err(opcodeValue.error), next;
    }
    next := opcodeValue.value.next;
    if opcodeValue.value.value !in table {
      UnknownOpcodeNamesOffset(table, data, offset);
      return Err(UnknownOpcode(opcodeValue.value.value, offset)), next;
    }
    var opcode := table[opcodeValue.value.value];
    var instruction := NewInstruction(opcode, Some(offset));
    var encoding := opcode.encoding;
    ghost var operands := ReadOperands(data, encoding, 0, next, instruction);
    DecodeInstructionKnown(table, data, offset);
    for k := 0 to |encoding|
      invariant next <= |data|
      invariant operands == ReadOperands(data, encoding, k, next, instruction)
    {
      ReadOperandsStep(data, encoding, k, next, instruction);
      var step := ReadOperand(data, encoding[k], next, instruction);
      if step.Err? {
        return Err(step.error), next;
      }
      instruction := step.value.value;
      next := step.value.next;
    }
    assert operands == Ok(Read(instruction, next));
    SizedOk(instruction, next, offset);
    instruction := instruction.(size := Some(next - offset));
    return Ok(instruction), next;
  }

  // ---------------------------------------------------------------------------------------
  // The instruction stream

  /** `DisassembleByteCode`: instructions are read until the position reaches the end. */
  function DecodeAll(table: Table, data: seq<bv8>, p: nat): (r: Result<seq<Instruction>>)
    requires p <= |data| < 0x8000_0000
    decreases |data| - p, 1
  {
    if p == |data| then Ok([]) else DecodeFrom(table, data, p)
  }

  /** One turn of the stream loop: the instruction at p, then the rest of the stream. */
  function DecodeFrom(table: Table, data: seq<bv8>, p: nat): (r: Result<seq<Instruction>>)
    requires p < |data| < 0x8000_0000
    decreases |data| - p, 0
  {
    match DecodeInstruction(table, data, p)
    case Err(e) => Err(e)
    case Ok(Read(ins, q)) =>
      match DecodeAll(table, data, q)
      case Err(e) => Err(e)
      case Ok(rest) => Ok([ins] + rest)
  }

  /** One step of the stream loop: the instruction at p, then the rest of the stream. */
  lemma {:induction false} DecodeAllStep(table: Table, data: seq<bv8>, p: nat)
    requires p < |data| < 0x8000_0000
    ensures DecodeInstruction(table, data, p).Err? ==>
      DecodeAll(table, data, p) == Err(DecodeInstruction(table, data, p).error)
    ensures DecodeInstruction(table, data, p).Ok? ==>
      DecodeAll(table, data, p)
      == Prepend([DecodeInstruction(table, data, p).value.value], DecodeAll(table, data, DecodeInstruction(table, data, p).value.next))
  {
  }

  /** The instructions lie back to back from start to end: each one begins where the previous ends. */
  predicate Tiles(instructions: seq<Instruction>, start: nat, end: nat)
    decreases |instructions|
  {
    if |instructions| == 0 then start == end
    else
      var i := instructions[0];
      i.offset == Some(start) && i.size.Some? && i.size.value > 0 && Tiles(instructions[1..], start + i.size.value, end)
  }

  /** The decoded list tiles the blob: the first instruction is at 0 and the last ends at its length. */
  lemma {:induction false} DecodedTiles(table: Table, data: seq<bv8>, p: nat)
    requires p <= |data| < 0x8000_0000
    ensures DecodeAll(table, data, p).Ok? ==> Tiles(DecodeAll(table, data, p).value, p, |data|)
    decreases |data| - p
  {
    if p < |data| {
      DecodeAllStep(table, data, p);
      var d := DecodeInstruction(table, data, p);
      if d.Ok? {
        DecodedTiles(table, data, d.value.next);
        TilesCons(d.value.value, DecodeAll(table, data, d.value.next), p, d.value.next, |data|);
      }
    }
  }

  lemma {:induction false} TilesCons(i: Instruction, rest: Result<seq<Instruction>>, start: nat, next: nat, end: nat)
    requires start < next && i.offset == Some(start) && i.size == Some(next - start)
    requires rest.Ok? ==> Tiles(rest.value, next, end)
    ensures Prepend([i], rest).Ok? ==> Tiles(Prepend([i], rest).value, start, end)
  {
    if rest.Ok? {
      assert ([i] + rest.value)[1..] == rest.value;
    }
  }

  /** Every decoded instruction carries the table's entry for its opcode value. */
  predicate FromTable(table: Table, instructions: seq<Instruction>) {
    forall k | 0 <= k < |instructions| ::
      instructions[k].opcode.value in table && table[instructions[k].opcode.value] == instructions[k].opcode
  }

  lemma {:induction false} DecodedFromTable(table: Table, data: seq<bv8>, p: nat)
    requires p <= |data| < 0x8000_0000 && Keyed(table)
    ensures DecodeAll(table, data, p).Ok? ==> FromTable(table, DecodeAll(table, data, p).value)
    decreases |data| - p
  {
    if p < |data| {
      DecodeAllStep(table, data, p);
      var d := DecodeInstruction(table, data, p);
      if d.Ok? {
        DecodedFromTable(table, data, d.value.next);
        FromTableCons(table, d.value.value, DecodeAll(table, data, d.value.next));
      }
    }
  }

  lemma {:induction false} FromTableCons(table: Table, i: Instruction, rest: Result<seq<Instruction>>)
    requires i.opcode.value in table && table[i.opcode.value] == i.opcode
    requires rest.Ok? ==> FromTable(table, rest.value)
    ensures Prepend([i], rest).Ok? ==> FromTable(table, Prepend([i], rest).value)
  {
    if rest.Ok? {
      var all := [i] + rest.value;
      forall k | 0 < k < |all|
        ensures all[k] == rest.value[k - 1]
      {
      }
    }
  }

  /** Tiling instructions sit at strictly increasing offsets, each inside [start, end). */
  lemma {:induction false} TilesAscend(instructions: seq<Instruction>, start: nat, end: nat)
    requires Tiles(instructions, start, end)
    ensures forall k | 0 <= k < |instructions| ::
      instructions[k].offset.Some? && start <= instructions[k].offset.value < end
    ensures forall j, k | 0 <= j < k < |instructions| :: instructions[j].offset.value < instructions[k].offset.value
    decreases |instructions|
  {
    if |instructions| > 0 {
      var i := instructions[0];
      TilesAscend(instructions[1..], start + i.size.value, end);
      forall k | 0 < k < |instructions|
        ensures instructions[k] == instructions[1..][k - 1]
      {
      }
    }
  }

  /** The source's `while(s.Position != s.Length)` loop, proved to produce `DecodeAll`. */
  method DisassembleByteCode(table: Table, data: seq<bv8>) returns (r: Result<seq<Instruction>>)
    requires |data| < 0x8000_0000
    ensures r == DecodeAll(table, data, 0)
  {
    var list := [];
    var position := 0;
    PrependEmpty(DecodeAll(table, data, 0));
    while position != |data|
      invariant position <= |data|
      invariant DecodeAll(table, data, 0) == Prepend(list, DecodeAll(table, data, position))
      decreases |data| - position
    {
      var instruction, next := ReadInstruction(table, data, position);
      DecodeAllStep(table, data, position);
      if instruction.Err? {
        return Err(instruction.error);
      }
      PrependAssoc(list, [instruction.value], DecodeAll(table, data, next));
      list := list + [instruction.value];
      position := next;
    }
    assert list + [] == list;
    return Ok(list);
  }

  /** The instructions decoded so far put in front of what the rest decodes to. */
  function Prepend<T>(front: seq<T>, rest: Result<seq<T>>): Result<seq<T>> {
    match rest
    case Err(e) => Err(e)
    case Ok(s) => Ok(front + s)
  }

  lemma {:induction false} PrependEmpty<T>(rest: Result<seq<T>>)
    ensures Prepend([], rest) == rest
  {
    if rest.Ok? {
      assert [] + rest.value == rest.value;
    }
  }

  lemma {:induction false} PrependAssoc<T>(a: seq<T>, b: seq<T>, rest: Result<seq<T>>)
    ensures Prepend(a, Prepend(b, rest)) == Prepend(a + b, rest)
  {
    if rest.Ok? {
      assert a + (b + rest.value) == (a + b) + rest.value;
    }
  }
}

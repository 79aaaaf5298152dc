// Reading a compiled script (src/MajiroLib/Script/Disassembler.cs, DisassembleScript): the
// header, the function index and the byte code blob, which is decrypted with the CRC-32
// keystream when the signature says so and then decoded instruction by instruction.

module Disassembler {
  import opened Wrappers
  import opened Bytes
  import opened Instructions
  import opened Bytecode
  import opened Scripts
  import Crc
  import opened Graph

  /** The 16 signature bytes "MajiroObj" + letter + "1.000\0". */
  function Magic(letter: bv8): (m: seq<bv8>)
    ensures |m| == 16 && m[9] == letter
  {
    [0x4D, 0x61, 0x6A, 0x69, 0x72, 0x6F, 0x4F, 0x62, 0x6A, letter, 0x31, 0x2E, 0x30, 0x30, 0x30, 0x00]
  }

  /** "MajiroObjX1.000\0": an encrypted blob. */
  function MagicX(): seq<bv8> { Magic(0x58) }
  /** "MajiroObjV1.000\0": a plain blob. */
  function MagicV(): seq<bv8> { Magic(0x56) }

  lemma {:induction false} MagicsDiffer()
    ensures MagicX() != MagicV()
  {
    assert MagicX()[9] != MagicV()[9];
  }

  const NegativeCapacity: string := "capacity must be a non-negative value"
  const NegativeCount: string := "Non-negative number required"
  const BadSignature: string := "signature is neither MajiroObjX1.000 nor MajiroObjV1.000"

  /** What the header of a script file holds, and its byte code as stored (still encrypted). */
  datatype Header = Header(encrypted: bool, entryPoint: UInt32, readMarkSize: UInt32,
                           index: seq<FunctionEntry>, byteCode: seq<bv8>)

  /** The uint at p, little-endian. */
  function UInt32At(data: seq<bv8>, p: nat): UInt32
    requires p + 4 <= |data|
  {
    UnsignedBound(data[p .. p + 4]);
    Widths();
    Unsigned(data[p .. p + 4])
  }

  /** The int at p, little-endian two's complement. */
  function Int32At(data: seq<bv8>, p: nat): Int32
    requires p + 4 <= |data|
  {
    UnsignedBound(data[p .. p + 4]);
    SignedRange(Unsigned(data[p .. p + 4]), 4);
    Widths();
    SignedValue(Unsigned(data[p .. p + 4]), 4)
  }

  /** The index entry at p: the name hash, then the offset. */
  function EntryAt(data: seq<bv8>, p: nat): FunctionEntry
    requires p + 8 <= |data|
  {
    FunctionEntry(UInt32At(data, p) as bv32, UInt32At(data, p + 4))
  }

  /** The function index: count (name hash, offset) pairs from p on, 8 bytes each. */
  function IndexAt(data: seq<bv8>, p: nat, count: nat): (r: Result<Read<seq<FunctionEntry>>>)
    ensures r.Ok? <==> p + 8 * count <= |data|
    ensures r.Ok? ==> r.value.next == p + 8 * count && |r.value.value| == count
  {
    if p + 8 * count > |data| then Err(Thrown(EndOfStream))
    else Ok(Read(seq(count, k requires 0 <= k < count => EntryAt(data, p + 8 * k)), p + 8 * count))
  }

  /**
   * The header as DisassembleScript reads it: 16 signature bytes, the entry point, the
   * read-mark size, the function count, the index, the byte code size and the byte code, which
   * may be cut short by the end of the file. The signature must be one of the two magics (a
   * `Debug.Assert`), a count below zero fails when the index list is created, and a size below
   * zero fails in `ReadBytes`.
   */
  function ParseHeader(data: seq<bv8>): (r: Result<Header>)
  {
    var signature := ReadBytes(data, 0, 16).value.value;
    if signature != MagicX() && signature != MagicV() then Err(AssertFailed(BadSignature))
    else match ReadUnsigned(data, 16, 4)
    case Err(e) => Err(e)
    case Ok(entryPoint) => match ReadUnsigned(data, entryPoint.next, 4)
    case Err(e) => Err(e)
    case Ok(readMarkSize) => match ReadSigned(data, readMarkSize.next, 4)
    case Err(e) => Err(e)
    case Ok(count) =>
      if count.value < 0 then Err(Thrown(NegativeCapacity))
      else match IndexAt(data, count.next, count.value)
      case Err(e) => Err(e)
      case Ok(index) => match ReadSigned(data, index.next, 4)
      case Err(e) => Err(e)
      case Ok(size) => match ReadBytes(data, size.next, size.value)
      case Err(e) => Err(e)
      case Ok(byteCode) =>
        Widths();
        Ok(Header(signature == MagicX(), entryPoint.value, readMarkSize.value, index.value, byteCode.value))
  }

  /** The blob the instructions are decoded from: decrypted from offset 0 when the X magic says so. */
  function PlainByteCode(h: Header): (r: seq<bv8>)
    ensures |r| == |h.byteCode|
  {
    if h.encrypted then Crc.Crypted32(h.byteCode, 0) else h.byteCode
  }

  /** The function index loop: count entries read in order, each hash before its offset. */
  method ReadIndex(data: seq<bv8>, p: nat, count: nat) returns (r: Result<seq<FunctionEntry>>, next: nat)
    requires p <= |data|
    ensures IndexAt(data, p, count).Ok? ==> r == Ok(IndexAt(data, p, count).value.value) && next == IndexAt(data, p, count).value.next
    ensures IndexAt(data, p, count).Err? ==> r == Err(IndexAt(data, p, count).error)
  {
    var index: seq<FunctionEntry> := [];
    next := p;
    for i := 0 to count
      invariant next == p + 8 * i <= |data| && |index| == i
      invariant forall k | 0 <= k < i :: index[k] == EntryAt(data, p + 8 * k)
    {
      var nameHash := ReadUnsigned(data, next, 4);
      if nameHash.Err? {
        return Err(nameHash.error), next;
      }
      var offset := ReadUnsigned(data, nameHash.value.next, 4);
      if offset.Err? {
        return Err(offset.error), next;
      }
      index := index + [EntryAt(data, next)];
      next := offset.value.next;
    }
    assert index == IndexAt(data, p, count).value.value;
    return Ok(index), next;
  }

  /** The header fields read in order from the start of the file, as ParseHeader lays them out. */
  method ReadHeader(data: seq<bv8>) returns (r: Result<Header>)
    ensures r == ParseHeader(data)
  {
    var signature := ReadBytes(data, 0, 16);
    var isEncrypted := signature.value.value == MagicX();
    if !(isEncrypted || signature.value.value == MagicV()) {
      return Err(AssertFailed(BadSignature));
    }
    var entryPoint := ReadUnsigned(data, 16, 4);
    if entryPoint.Err? {
      return Err(entryPoint.error);
    }
    var readMarkSize := ReadUnsigned(data, 20, 4);
    if readMarkSize.Err? {
      return Err(readMarkSize.error);
    }
    var functionCount := ReadSigned(data, 24, 4);
    if functionCount.Err? {
      return Err(functionCount.error);
    }
    if functionCount.value.value < 0 {
      return Err(Thrown(NegativeCapacity));
    }
    var index, p := ReadIndex(data, 28, functionCount.value.value);
    if index.Err? {
      return Err(index.error);
    }
    var byteCodeSize := ReadSigned(data, p, 4);
    if byteCodeSize.Err? {
      return Err(byteCodeSize.error);
    }
    var byteCode := ReadBytes(data, p + 4, byteCodeSize.value.value);
    if byteCode.Err? {
      return Err(byteCode.error);
    }
    Widths();
    return Ok(Header(isEncrypted, entryPoint.value.value, readMarkSize.value.value, index.value, byteCode.value.value));
  }

  /**
   * `DisassembleScript`: the header read field by field, the blob decrypted in place when it is
   * encrypted, its instructions decoded, and a new script built from the three.
   */
  method DisassembleScript(table: Table, data: seq<bv8>) returns (r: Result<MjoScript>)
    ensures r.Ok? <==> ParseHeader(data).Ok? && DecodeAll(table, PlainByteCode(ParseHeader(data).value), 0).Ok?
    ensures r.Ok? ==> fresh(r.value) && r.value.representation == InstructionList
    ensures r.Ok? ==> r.value.entryPointOffset == Some(ParseHeader(data).value.entryPoint)
    ensures r.Ok? ==> r.value.functionIndex == Some(ParseHeader(data).value.index)
    ensures r.Ok? ==> r.value.instructions == DecodeAll(table, PlainByteCode(ParseHeader(data).value), 0).value
  {
    var header := ReadHeader(data);
    if header.Err? {
      return Err(header.error);
    }
    var h := header.value;
    var bytes := h.byteCode;
    if h.encrypted {
      var buffer := new bv8[|bytes|](i requires 0 <= i < |bytes| => bytes[i]);
      assert buffer[..] == bytes;
      Crc.Crypt32(buffer, 0);
      bytes := buffer[..];
    }
    var instructions := DisassembleByteCode(table, bytes);
    if instructions.Err? {
      return Err(instructions.error);
    }
    var script := new MjoScript(h.entryPoint, h.index, instructions.value);
    return Ok(script);
  }
}

// Writing a compiled script (src/MajiroLib/Script/Assembler.cs, AssembleScript): the header,
// the function index and the byte code blob, which is encrypted with the CRC-32 keystream when
// asked; and the proof that the disassembler reads the header back.

module ScriptWriter {
  import opened Wrappers
  import opened Bytes
  import opened Scripts
  import opened Instructions
  import opened Disassembler
  import Crc

  const StreamTooLong: string := "Stream was too long."

  /** One index entry as the writer lays it out: the name hash, then the offset, as uints. */
  function EntryWords(entry: FunctionEntry): (r: seq<bv8>)
    ensures |r| == 8 && r[0 .. 4] == WriteUInt32(entry.nameHash as nat) && r[4 .. 4 + 4] == WriteUInt32(entry.offset)
  {
    var hash := WriteUInt32(entry.nameHash as nat);
    var offset := WriteUInt32(entry.offset);
    assert (hash + offset)[0 .. 4] == hash && (hash + offset)[4 .. 4 + 4] == offset;
    hash + offset
  }

  /** The function index as the writer lays it out, entry after entry. */
  function EntryBytes(index: seq<FunctionEntry>): (r: seq<bv8>)
    ensures |r| == 8 * |index|
  {
    if |index| == 0 then [] else EntryWords(index[0]) + EntryBytes(index[1..])
  }

  /**
   * What `AssembleScript` writes around the byte code: the signature (X when encrypting, V
   * otherwise), the entry point, the read-mark count, the index count and entries, the byte
   * code size and the byte code, encrypted from key offset 0 when encrypting.
   */
  function FileBytes(encrypt: bool, entryPoint: UInt32, readMarks: int, index: seq<FunctionEntry>, byteCode: seq<bv8>): (r: seq<bv8>)
    requires 0 <= readMarks < 0x8000_0000 && |index| < 0x8000_0000 && |byteCode| < 0x1_0000_0000
  {
    (if encrypt then MagicX() else MagicV()) + WriteUInt32(entryPoint) + WriteInt32(readMarks)
      + WriteInt32(|index|) + EntryBytes(index) + WriteUInt32(|byteCode|)
      + Stored(encrypt, byteCode)
  }

  /** The byte code as the file stores it: encrypted from key offset 0 when encrypting. */
  function Stored(encrypt: bool, byteCode: seq<bv8>): (r: seq<bv8>)
    ensures |r| == |byteCode|
  {
    Crc.CryptTwice(byteCode, 0);
    if encrypt then Crc.Crypted32(byteCode, 0) else byteCode
  }

  /**
   * What `AssembleScript` writes once the byte code is assembled (or has failed): the byte
   * code's errors come first; a memory stream holds fewer than 2^31 bytes; the entry point must
   * be set (`!.Value`) and the function index must exist (`.Count`). The read-mark count is
   * written only when read marks are enabled.
   */
  function ScriptFile(encrypt: bool, entryPoint: Option<UInt32>, enableReadMark: bool,
                      index: Option<seq<FunctionEntry>>, assembled: Result<seq<bv8>>, readMarkCount: int): (r: Result<seq<bv8>>)
    requires index.Some? ==> |index.value| < 0x8000_0000
    requires 0 <= readMarkCount < 0x8000_0000
  {
    match assembled
    case Err(e) => Err(e)
    case Ok(byteCode) =>
      if |byteCode| >= 0x8000_0000 then Err(Thrown(StreamTooLong))
      else if entryPoint.None? then Err(Thrown(NullableWithoutValue))
      else if index.None? then Err(Thrown(NullReference))
      else Ok(FileBytes(encrypt, entryPoint.value, if enableReadMark then readMarkCount else 0, index.value, byteCode))
  }

  /** A slice that lies in the second part of a concatenation. */
  lemma {:induction false} SliceAfter(a: seq<bv8>, b: seq<bv8>, i: nat, j: nat, i': nat, j': nat)
    requires i == |a| + i' && j == |a| + j' && i' <= j' <= |b|
    ensures (a + b)[i .. j] == b[i' .. j']
  {
  }

  /** A slice that lies in the first part of a concatenation. */
  lemma {:induction false} SliceBefore(a: seq<bv8>, b: seq<bv8>, i: nat, j: nat)
    requires i <= j <= |a|
    ensures (a + b)[i .. j] == a[i .. j]
  {
  }

  /** A slice of a slice. */
  lemma {:induction false} SliceOfSlice(data: seq<bv8>, q: nat, r: nat, i: nat, j: nat)
    requires q <= r <= |data| && i <= j <= r - q
    ensures data[q .. r][i .. j] == data[q + i .. q + j]
  {
    assert forall t | 0 <= t < j - i :: data[q .. r][i .. j][t] == data[q + i + t];
  }

  /** The entry k of the written index lies at 8k. */
  lemma {:induction false} EntryBytesAt(index: seq<FunctionEntry>, k: nat)
    requires k < |index|
    ensures EntryBytes(index)[8 * k .. 8 * k + 8] == EntryWords(index[k])
    decreases k
  {
    var head := EntryWords(index[0]);
    var rest := EntryBytes(index[1..]);
    assert EntryBytes(index) == head + rest;
    if k == 0 {
      SliceBefore(head, rest, 0, 8);
    } else {
      var m := k - 1;
      EntryBytesAt(index[1..], m);
      assert index[1..][m] == index[k];
      SliceAfter(head, rest, 8 * k, 8 * k + 8, 8 * m, 8 * m + 8);
    }
  }

  /** A uint written as four bytes at i of what lies from q to r reads back at q + i. */
  lemma {:induction false} UInt32Back(data: seq<bv8>, q: nat, r: nat, e: seq<bv8>, i: nat, v: nat)
    requires q <= r <= |data| && data[q .. r] == e && i + 4 <= |e| && v < 0x1_0000_0000
    requires e[i .. i + 4] == WriteUInt32(v)
    ensures UInt32At(data, q + i) == v
  {
    SliceOfSlice(data, q, r, i, i + 4);
  }

  /** Entry k of the index written at q lies at q + 8k. */
  lemma {:induction false} EntryWordsAt(data: seq<bv8>, q: nat, index: seq<FunctionEntry>, k: nat)
    requires q + 8 * |index| <= |data| && data[q .. q + 8 * |index|] == EntryBytes(index) && k < |index|
    ensures data[q + 8 * k .. q + 8 * k + 8] == EntryWords(index[k])
  {
    EntryBytesAt(index, k);
    SliceOfSlice(data, q, q + 8 * |index|, 8 * k, 8 * k + 8);
  }

  /** The name hash of entry k of the index written at q reads back. */
  lemma {:induction false} HashBack(data: seq<bv8>, q: nat, index: seq<FunctionEntry>, k: nat)
    requires q + 8 * |index| <= |data| && data[q .. q + 8 * |index|] == EntryBytes(index) && k < |index|
    ensures UInt32At(data, q + 8 * k) == index[k].nameHash as nat
  {
    EntryWordsAt(data, q, index, k);
    UInt32Back(data, q + 8 * k, q + 8 * k + 8, EntryWords(index[k]), 0, index[k].nameHash as nat);
  }

  /** The offset of entry k of the index written at q reads back. */
  lemma {:induction false} OffsetBack(data: seq<bv8>, q: nat, index: seq<FunctionEntry>, k: nat)
    requires q + 8 * |index| <= |data| && data[q .. q + 8 * |index|] == EntryBytes(index) && k < |index|
    ensures UInt32At(data, q + 8 * k + 4) == index[k].offset
  {
    EntryWordsAt(data, q, index, k);
    UInt32Back(data, q + 8 * k, q + 8 * k + 8, EntryWords(index[k]), 4, index[k].offset as nat);
  }

  /** Entry k of the index written at q reads back as itself. */
  lemma {:induction false} EntryBack(data: seq<bv8>, q: nat, index: seq<FunctionEntry>, k: nat)
    requires q + 8 * |index| <= |data| && data[q .. q + 8 * |index|] == EntryBytes(index) && k < |index|
    ensures EntryAt(data, q + 8 * k) == index[k]
  {
    HashBack(data, q, index, k);
    OffsetBack(data, q, index, k);
  }

  /** The index written at q reads back entry by entry. */
  lemma {:induction false} IndexBack(data: seq<bv8>, q: nat, index: seq<FunctionEntry>)
    requires q + 8 * |index| <= |data| && data[q .. q + 8 * |index|] == EntryBytes(index)
    ensures IndexAt(data, q, |index|) == Ok(Read(index, q + 8 * |index|))
  {
    var read := IndexAt(data, q, |index|).value.value;
    forall k | 0 <= k < |index| ensures read[k] == index[k] {
      EntryBack(data, q, index, k);
    }
    assert read == index;
  }

  /**
   * The fields of a file as the header lists them: the 16-byte signature m, the three
   * 4-byte fields a, b and c, the index e, the 4-byte size d and the blob s, each one at the
   * sum of the lengths before it.
   */
  predicate FieldsAt(f: seq<bv8>, m: seq<bv8>, a: seq<bv8>, b: seq<bv8>, c: seq<bv8>, e: seq<bv8>, d: seq<bv8>, s: seq<bv8>) {
    var q := 28 + |e|;
    |f| == q + 4 + |s| && f[0 .. 16] == m && f[16 .. 20] == a && f[20 .. 24] == b && f[24 .. 28] == c &&
    f[28 .. q] == e && f[q .. q + 4] == d && f[q + 4 .. q + 4 + |s|] == s
  }

  /** Fields written one after another lie where FieldsAt says. */
  lemma {:induction false} FileLayout(m: seq<bv8>, a: seq<bv8>, b: seq<bv8>, c: seq<bv8>, e: seq<bv8>, d: seq<bv8>, s: seq<bv8>)
    requires |m| == 16 && |a| == 4 && |b| == 4 && |c| == 4 && |d| == 4
    ensures FieldsAt(m + a + b + c + e + d + s, m, a, b, c, e, d, s)
  {
    var f := m + a + b + c + e + d + s;
    var q := 28 + |e|;
    assert f == m + (a + (b + (c + (e + (d + s)))));
    assert f[0 .. 16] == m;
    assert f[16 .. 20] == a;
    assert f[20 .. 24] == b;
    assert f[24 .. 28] == c;
    assert f[28 .. q] == e;
    assert f[q .. q + 4] == d;
    assert f[q + 4 .. q + 4 + |s|] == s;
  }

  /** An int below 2^31 that is not negative is written with the bytes of the same uint. */
  lemma {:induction false} NonNegativeInt32(v: int)
    requires 0 <= v < 0x8000_0000
    ensures WriteInt32(v) == WriteUInt32(v)
  {
    Widths();
  }

  /** Where AssembleScript puts each field of the file. */
  lemma {:induction false} FileSlices(encrypt: bool, entryPoint: UInt32, readMarks: int, index: seq<FunctionEntry>, byteCode: seq<bv8>)
    requires 0 <= readMarks < 0x8000_0000 && |index| < 0x8000_0000 && |byteCode| < 0x8000_0000
    ensures FieldsAt(FileBytes(encrypt, entryPoint, readMarks, index, byteCode), if encrypt then MagicX() else MagicV(),
                     WriteUInt32(entryPoint), WriteInt32(readMarks), WriteInt32(|index|), EntryBytes(index),
                     WriteUInt32(|byteCode|), Stored(encrypt, byteCode))
  {
    FileLayout(if encrypt then MagicX() else MagicV(), WriteUInt32(entryPoint), WriteInt32(readMarks),
      WriteInt32(|index|), EntryBytes(index), WriteUInt32(|byteCode|), Stored(encrypt, byteCode));
  }

  /** Four bytes written as a uint read back as it. */
  lemma {:induction false} ReadsUInt32(f: seq<bv8>, p: nat, v: nat)
    requires v < 0x1_0000_0000 && p + 4 <= |f| && f[p .. p + 4] == WriteUInt32(v)
    ensures ReadUnsigned(f, p, 4) == Ok(Read(v, p + 4))
  {
  }

  /** Four bytes written as an int read back as it. */
  lemma {:induction false} ReadsInt32(f: seq<bv8>, p: nat, v: int)
    requires -0x8000_0000 <= v < 0x8000_0000 && p + 4 <= |f| && f[p .. p + 4] == WriteInt32(v)
    ensures ReadSigned(f, p, 4) == Ok(Read(v, p + 4))
  {
  }

  /** The reads of the fixed fields of the header, in the order the disassembler makes them. */
  lemma {:induction false} FileReads(encrypt: bool, entryPoint: UInt32, readMarks: int, index: seq<FunctionEntry>, byteCode: seq<bv8>)
    requires 0 <= readMarks < 0x8000_0000 && |index| < 0x8000_0000 && |byteCode| < 0x8000_0000
    ensures var f := FileBytes(encrypt, entryPoint, readMarks, index, byteCode); var q := 28 + 8 * |index|;
      |f| == q + 4 + |byteCode| &&
      ReadBytes(f, 0, 16) == Ok(Read(if encrypt then MagicX() else MagicV(), 16)) &&
      ReadUnsigned(f, 16, 4) == Ok(Read(entryPoint as nat, 20)) &&
      ReadUnsigned(f, 20, 4) == Ok(Read(readMarks, 24)) &&
      ReadSigned(f, 24, 4) == Ok(Read(|index|, 28)) &&
      f[28 .. q] == EntryBytes(index) &&
      ReadSigned(f, q, 4) == Ok(Read(|byteCode|, q + 4)) &&
      ReadBytes(f, q + 4, |byteCode|) == Ok(Read(Stored(encrypt, byteCode), q + 4 + |byteCode|))
  {
    var f := FileBytes(encrypt, entryPoint, readMarks, index, byteCode);
    var q := 28 + 8 * |index|;
    FileSlices(encrypt, entryPoint, readMarks, index, byteCode);
    ReadsUInt32(f, 16, entryPoint as nat);
    NonNegativeInt32(readMarks);
    assert f[20 .. 24] == WriteUInt32(readMarks);
    ReadsUInt32(f, 20, readMarks);
    ReadsInt32(f, 24, |index|);
    ReadsInt32(f, q, |byteCode|);
  }

  /**
   * The disassembler reads the header AssembleScript writes: the signature tells whether the
   * blob is encrypted, and the entry point, read-mark count, index and stored byte code come
   * back as written.
   */
  lemma {:induction false} HeaderRoundTrip(encrypt: bool, entryPoint: UInt32, readMarks: int, index: seq<FunctionEntry>, byteCode: seq<bv8>)
    requires 0 <= readMarks < 0x8000_0000 && |index| < 0x8000_0000 && |byteCode| < 0x8000_0000
    ensures ParseHeader(FileBytes(encrypt, entryPoint, readMarks, index, byteCode))
      == Ok(Header(encrypt, entryPoint, readMarks, index, Stored(encrypt, byteCode)))
  {
    var f := FileBytes(encrypt, entryPoint, readMarks, index, byteCode);
    FileReads(encrypt, entryPoint, readMarks, index, byteCode);
    IndexBack(f, 28, index);
    MagicsDiffer();
  }

  /** Writing the index entry by entry gives the index bytes. */
  lemma {:induction false} EntryBytesSnoc(index: seq<FunctionEntry>, i: nat)
    requires i < |index|
    ensures EntryBytes(index[..i + 1]) == EntryBytes(index[..i]) + EntryWords(index[i])
    decreases i
  {
    if i > 0 {
      assert index[..i + 1][1..] == index[1..][..i];
      assert index[..i][1..] == index[1..][..i - 1];
      EntryBytesSnoc(index[1..], i - 1);
    }
  }

  /**
   * The second half of `AssembleScript`: the assembled byte code, encrypted in place when
   * asked, and the header written before it field by field.
   */
  method WriteScript(encrypt: bool, entryPoint: Option<UInt32>, enableReadMark: bool, functionIndex: Option<seq<FunctionEntry>>,
                     byteCode: seq<bv8>, readMarkCount: int) returns (r: Result<seq<bv8>>)
    requires functionIndex.Some? ==> |functionIndex.value| < 0x8000_0000
    requires 0 <= readMarkCount < 0x8000_0000
    ensures r == ScriptFile(encrypt, entryPoint, enableReadMark, functionIndex, Ok(byteCode), readMarkCount)
  {
    if |byteCode| >= 0x8000_0000 {
      return Err(Thrown(StreamTooLong));
    }
    var stored := StoreByteCode(encrypt, byteCode);
    var output := if encrypt then MagicX() else MagicV();
    if entryPoint.None? {
      return Err(Thrown(NullableWithoutValue));
    }
    output := output + WriteUInt32(entryPoint.value);
    output := output + WriteInt32(if enableReadMark then readMarkCount else 0);
    if functionIndex.None? {
      return Err(Thrown(NullReference));
    }
    output := output + WriteInt32(|functionIndex.value|);
    output := WriteIndex(output, functionIndex.value);
    output := output + WriteUInt32(|byteCode|) + stored;
    return Ok(output);
  }

  /** The byte code copied into a buffer, which is encrypted in place when asked. */
  method StoreByteCode(encrypt: bool, byteCode: seq<bv8>) returns (stored: seq<bv8>)
    ensures stored == Stored(encrypt, byteCode)
  {
    stored := byteCode;
    if encrypt {
      var buffer := new bv8[|byteCode|](i requires 0 <= i < |byteCode| => byteCode[i]);
      assert buffer[..] == byteCode;
      Crc.Crypt32(buffer, 0);
      stored := buffer[..];
    }
  }

  /** The index loop: each entry's name hash, then its offset, after what is already written. */
  method WriteIndex(written: seq<bv8>, index: seq<FunctionEntry>) returns (output: seq<bv8>)
    ensures output == written + EntryBytes(index)
  {
    var entries: seq<bv8> := [];
    for i := 0 to |index|
      invariant entries == EntryBytes(index[..i])
    {
      EntryBytesSnoc(index, i);
      entries := entries + EntryWords(index[i]);
    }
    assert index[..|index|] == index;
    output := written + entries;
  }

  /** The header the disassembler reads from a file holds these fields. */
  predicate HeaderHolds(file: seq<bv8>, encrypt: bool, entryPoint: Option<UInt32>, readMarkSize: int, index: Option<seq<FunctionEntry>>) {
    ParseHeader(file).Ok? && ParseHeader(file).value.encrypted == encrypt &&
    entryPoint == Some(ParseHeader(file).value.entryPoint) && index == Some(ParseHeader(file).value.index) &&
    ParseHeader(file).value.readMarkSize == readMarkSize
  }

  /**
   * The disassembler reads the header of any file AssembleScript writes back as the script
   * holds it, the read-mark count only when read marks are enabled, and the blob, decrypted,
   * is the assembled byte code.
   */
  lemma {:induction false} FileRoundTrip(encrypt: bool, entryPoint: Option<UInt32>, enableReadMark: bool,
                                         index: Option<seq<FunctionEntry>>, byteCode: seq<bv8>, readMarkCount: int, file: seq<bv8>)
    requires index.Some? ==> |index.value| < 0x8000_0000
    requires 0 <= readMarkCount < 0x8000_0000
    requires ScriptFile(encrypt, entryPoint, enableReadMark, index, Ok(byteCode), readMarkCount) == Ok(file)
    ensures HeaderHolds(file, encrypt, entryPoint, if enableReadMark then readMarkCount else 0, index)
    ensures |byteCode| < 0x8000_0000 && PlainByteCode(ParseHeader(file).value) == byteCode
  {
    HeaderRoundTrip(encrypt, entryPoint.value, if enableReadMark then readMarkCount else 0, index.value, byteCode);
    Crc.CryptTwice(byteCode, 0);
  }
}

// Little-endian integers as BinaryReader and BinaryWriter lay them out, and the reads of a
// stream that the disassembler performs. A stream is its bytes and a position; each read
// returns the value and the new position, or the exception the reader throws.

module Bytes {
  import opened Wrappers

  function Pow256(n: nat): (p: nat)
    ensures p > 0
  {
    if n == 0 then 1 else 256 * Pow256(n - 1)
  }

  /** The unsigned value of little-endian bytes. */
  function Unsigned(bs: seq<bv8>): nat
    decreases |bs|
  {
    if |bs| == 0 then 0 else bs[0] as nat + 256 * Unsigned(bs[1..])
  }

  /** The n low bytes of v, least significant first. */
  function LittleEndian(v: nat, n: nat): (r: seq<bv8>)
    ensures |r| == n
  {
    if n == 0 then [] else [ByteOf(v % 256)] + LittleEndian(v / 256, n - 1)
  }

  function ByteOf(v: nat): (b: bv8)
    requires v < 256
    ensures b as nat == v
  {
    IntByteRoundTrip(v);
    v as bv8
  }

  lemma {:induction false} UnsignedBound(bs: seq<bv8>)
    ensures Unsigned(bs) < Pow256(|bs|)
    decreases |bs|
  {
    if |bs| > 0 {
      UnsignedBound(bs[1..]);
    }
  }

  /** Reading back what was written gives the value, when it fits in n bytes. */
  lemma {:induction false} UnsignedOfLittleEndian(v: nat, n: nat)
    requires v < Pow256(n)
    ensures Unsigned(LittleEndian(v, n)) == v
    decreases n
  {
    if n > 0 {
      UnsignedOfLittleEndian(v / 256, n - 1);
      assert LittleEndian(v, n)[1..] == LittleEndian(v / 256, n - 1);
    }
  }

  /** Writing what was read gives the bytes back. */
  lemma {:induction false} LittleEndianOfUnsigned(bs: seq<bv8>)
    ensures LittleEndian(Unsigned(bs), |bs|) == bs
    decreases |bs|
  {
    if |bs| > 0 {
      LittleEndianOfUnsigned(bs[1..]);
      ByteIntRoundTrip(bs[0]);
      DivMod256(bs[0] as nat, Unsigned(bs[1..]));
    }
  }

  lemma {:induction false} DivMod256(a: nat, u: nat)
    requires a < 256
    ensures (a + 256 * u) % 256 == a && (a + 256 * u) / 256 == u
  {
  }

  // ---------------------------------------------------------------------------------------
  // Two's complement for the signed widths the codec uses (16 and 32 bits).

  /** The least value a signed integer of that many bytes cannot hold. */
  function Half(bytes: nat): int {
    Pow256(bytes) / 2
  }

  /** The unsigned pattern of a signed value of `bytes` bytes. */
  function TwosComplement(v: int, bytes: nat): nat
    requires bytes == 2 || bytes == 4
    requires -Half(bytes) <= v < Half(bytes)
  {
    if v < 0 then v + Pow256(bytes) else v
  }

  /** The signed value of an unsigned pattern of `bytes` bytes. */
  function SignedValue(u: nat, bytes: nat): int
    requires bytes == 2 || bytes == 4
  {
    if u >= Half(bytes) then u - Pow256(bytes) else u
  }

  lemma {:induction false} Widths()
    ensures Pow256(1) == 0x100 && Pow256(2) == 0x1_0000 && Pow256(4) == 0x1_0000_0000
  {
  }

  lemma {:induction false} SignedRoundTrip(v: int, bytes: nat)
    requires bytes == 2 || bytes == 4
    requires -Half(bytes) <= v < Half(bytes)
    ensures TwosComplement(v, bytes) < Pow256(bytes)
    ensures SignedValue(TwosComplement(v, bytes), bytes) == v
  {
  }

  // ---------------------------------------------------------------------------------------
  // Reads of a stream of bytes

  /** A value read from a stream and the position after it. */
  datatype Read<T> = Read(value: T, next: nat)

  /** `ReadByte`, `ReadUInt16`, `ReadUInt32`: n bytes little-endian, or end of stream. */
  function ReadUnsigned(data: seq<bv8>, p: nat, n: nat): (r: Result<Read<nat>>)
    ensures r.Ok? <==> p + n <= |data|
    ensures r.Ok? ==> r.value.next == p + n && r.value.value == Unsigned(data[p .. p + n])
    ensures r.Ok? ==> r.value.value < Pow256(n)
  {
    if p + n > |data| then Err(Thrown(EndOfStream))
    else
      UnsignedBound(data[p .. p + n]);
      Ok(Read(Unsigned(data[p .. p + n]), p + n))
  }

  /** `ReadInt16`, `ReadInt32`: the same bytes, read as two's complement. */
  function ReadSigned(data: seq<bv8>, p: nat, n: nat): (r: Result<Read<int>>)
    requires n == 2 || n == 4
    ensures r.Ok? <==> p + n <= |data|
    ensures r.Ok? ==> r.value.next == p + n && r.value.value == SignedValue(Unsigned(data[p .. p + n]), n)
    ensures r.Ok? ==> -Half(n) <= r.value.value < Half(n)
  {
    match ReadUnsigned(data, p, n)
    case Err(e) => Err(e)
    case Ok(Read(u, next)) =>
      SignedRange(u, n);
      Ok(Read(SignedValue(u, n), next))
  }

  lemma {:induction false} SignedRange(u: nat, bytes: nat)
    requires bytes == 2 || bytes == 4
    requires u < Pow256(bytes)
    ensures -Half(bytes) <= SignedValue(u, bytes) < Half(bytes)
  {
    Widths();
  }

  /**
   * `ReadBytes(n)`: a negative count throws; otherwise as many of the next n bytes as the
   * stream still holds, so a short read at the end is not an error.
   */
  function ReadBytes(data: seq<bv8>, p: nat, n: int): (r: Result<Read<seq<bv8>>>)
    requires p <= |data|
    ensures r.Ok? <==> n >= 0
    ensures r.Ok? && p + n <= |data| ==> r.value.value == data[p .. p + n] && r.value.next == p + n
    ensures r.Ok? && p + n > |data| ==> r.value.value == data[p..] && r.value.next == |data|
  {
    if n < 0 then Err(Thrown("Non-negative number required"))
    else if p + n <= |data| then Ok(Read(data[p .. p + n], p + n))
    else Ok(Read(data[p..], |data|))
  }

  // ---------------------------------------------------------------------------------------
  // Writes

  /** `BinaryWriter.Write(ushort)`. */
  function WriteUInt16(v: nat): (r: seq<bv8>)
    requires v < 0x1_0000
    ensures |r| == 2 && Unsigned(r) == v
  {
    Widths();
    UnsignedOfLittleEndian(v, 2);
    LittleEndian(v, 2)
  }

  /** `BinaryWriter.Write(uint)`. */
  function WriteUInt32(v: nat): (r: seq<bv8>)
    requires v < 0x1_0000_0000
    ensures |r| == 4 && Unsigned(r) == v
  {
    Widths();
    UnsignedOfLittleEndian(v, 4);
    LittleEndian(v, 4)
  }

  /** `BinaryWriter.Write(short)`. */
  function WriteInt16(v: int): (r: seq<bv8>)
    requires -0x8000 <= v < 0x8000
    ensures |r| == 2 && SignedValue(Unsigned(r), 2) == v
  {
    Widths();
    SignedRoundTrip(v, 2);
    WriteUInt16(TwosComplement(v, 2))
  }

  /** `BinaryWriter.Write(int)`. */
  function WriteInt32(v: int): (r: seq<bv8>)
    requires -0x8000_0000 <= v < 0x8000_0000
    ensures |r| == 4 && SignedValue(Unsigned(r), 4) == v
  {
    Widths();
    SignedRoundTrip(v, 4);
    WriteUInt32(TwosComplement(v, 4))
  }

  /** A read of n bytes at the start of written bytes sees exactly them. */
  lemma {:induction false} ReadWritten(w: seq<bv8>, rest: seq<bv8>, before: seq<bv8>)
    ensures ReadUnsigned(before + w + rest, |before|, |w|) == Ok(Read(Unsigned(w), |before| + |w|))
  {
    assert (before + w + rest)[|before| .. |before| + |w|] == w;
  }
}

// CRC hashing and the XOR keystream of Majiro scripts (src/MajiroLib/Script/Crc.cs).
// The 32-bit hash is the reflected CRC-32 of IEEE 802.3 clause 3.2.9 (polynomial 0xEDB88320,
// complemented initial value and result); the keystream is the CRC table's bytes.

module Crc {
  import opened Wrappers

  const Poly32: bv32 := 0xEDB88320
  const Poly64: bv64 := 0x42F0E1EBA9EA3693

  // ---------------------------------------------------------------------------------------------
  // Table entries

  /** One round of the table computation: shift right, xor the polynomial if the low bit was set. */
  function Round32(v: bv32): bv32 {
    if v & 1 != 0 then (v >> 1) ^ Poly32 else v >> 1
  }

  /** n rounds applied to v. */
  function Rounds32(v: bv32, n: nat): bv32 {
    if n == 0 then v else Round32(Rounds32(v, n - 1))
  }

  /** The same round without a branch: the polynomial is masked by the low bit. */
  function MaskRound32(v: bv32): bv32 {
    (v >> 1) ^ (Poly32 & (0 - (v & 1)))
  }

  lemma MaskRoundIsRound32(v: bv32)
    ensures MaskRound32(v) == Round32(v)
  {
    if v & 1 != 0 {
      assert 0 - (v & 1) == 0xFFFF_FFFF;
    }
  }

  /** The table entry of a seed: eight rounds, written out so the solver can reason bit by bit. */
  function Entry32(v: bv32): bv32 {
    MaskRound32(MaskRound32(MaskRound32(MaskRound32(MaskRound32(MaskRound32(MaskRound32(MaskRound32(v))))))))
  }

  lemma EightRounds32(v: bv32)
    ensures Rounds32(v, 8) == Entry32(v)
  {
    assert Rounds32(v, 1) == MaskRound32(v) by { MaskRoundIsRound32(v); }
    assert Rounds32(v, 2) == MaskRound32(MaskRound32(v)) by { MaskRoundIsRound32(Rounds32(v, 1)); }
    assert Rounds32(v, 3) == MaskRound32(MaskRound32(MaskRound32(v))) by { MaskRoundIsRound32(Rounds32(v, 2)); }
    assert Rounds32(v, 4) == MaskRound32(MaskRound32(MaskRound32(MaskRound32(v)))) by { MaskRoundIsRound32(Rounds32(v, 3)); }
    assert Rounds32(v, 5) == MaskRound32(MaskRound32(MaskRound32(MaskRound32(MaskRound32(v))))) by { MaskRoundIsRound32(Rounds32(v, 4)); }
    assert Rounds32(v, 6) == MaskRound32(MaskRound32(MaskRound32(MaskRound32(MaskRound32(MaskRound32(v)))))) by { MaskRoundIsRound32(Rounds32(v, 5)); }
    assert Rounds32(v, 7) == MaskRound32(MaskRound32(MaskRound32(MaskRound32(MaskRound32(MaskRound32(MaskRound32(v))))))) by { MaskRoundIsRound32(Rounds32(v, 6)); }
    assert Rounds32(v, 8) == MaskRound32(MaskRound32(MaskRound32(MaskRound32(MaskRound32(MaskRound32(MaskRound32(MaskRound32(v)))))))) by { MaskRoundIsRound32(Rounds32(v, 7)); }
  }

  /** The value Calculate32 returns: the int seed is reinterpreted as a uint. */
  function Calc32(seed: int): bv32 {
    Entry32(Int32Bits(seed))
  }

  /** Calculate32: the table entry for a seed. */
  method Calculate32(seed: int) returns (value: bv32)
    ensures value == Calc32(seed)
  {
    value := Int32Bits(seed);
    var i := 0;
    while i < 8
      invariant 0 <= i <= 8
      invariant value == Rounds32(Int32Bits(seed), i)
    {
      value := if value & 1 != 0 then (value >> 1) ^ Poly32 else value >> 1;
      i := i + 1;
    }
    EightRounds32(Int32Bits(seed));
  }

  function Round64(v: bv64): bv64 {
    if v & 1 != 0 then (v >> 1) ^ Poly64 else v >> 1
  }

  function Rounds64(v: bv64, n: nat): bv64 {
    if n == 0 then v else Round64(Rounds64(v, n - 1))
  }

  function MaskRound64(v: bv64): bv64 {
    (v >> 1) ^ (Poly64 & (0 - (v & 1)))
  }

  lemma MaskRoundIsRound64(v: bv64)
    ensures MaskRound64(v) == Round64(v)
  {
    if v & 1 != 0 {
      assert 0 - (v & 1) == 0xFFFF_FFFF_FFFF_FFFF;
    }
  }

  function Entry64(v: bv64): bv64 {
    MaskRound64(MaskRound64(MaskRound64(MaskRound64(MaskRound64(MaskRound64(MaskRound64(MaskRound64(v))))))))
  }

  lemma EightRounds64(v: bv64)
    ensures Rounds64(v, 8) == Entry64(v)
  {
    assert Rounds64(v, 1) == MaskRound64(v) by { MaskRoundIsRound64(v); }
    assert Rounds64(v, 2) == MaskRound64(MaskRound64(v)) by { MaskRoundIsRound64(Rounds64(v, 1)); }
    assert Rounds64(v, 3) == MaskRound64(MaskRound64(MaskRound64(v))) by { MaskRoundIsRound64(Rounds64(v, 2)); }
    assert Rounds64(v, 4) == MaskRound64(MaskRound64(MaskRound64(MaskRound64(v)))) by { MaskRoundIsRound64(Rounds64(v, 3)); }
    assert Rounds64(v, 5) == MaskRound64(MaskRound64(MaskRound64(MaskRound64(MaskRound64(v))))) by { MaskRoundIsRound64(Rounds64(v, 4)); }
    assert Rounds64(v, 6) == MaskRound64(MaskRound64(MaskRound64(MaskRound64(MaskRound64(MaskRound64(v)))))) by { MaskRoundIsRound64(Rounds64(v, 5)); }
    assert Rounds64(v, 7) == MaskRound64(MaskRound64(MaskRound64(MaskRound64(MaskRound64(MaskRound64(MaskRound64(v))))))) by { MaskRoundIsRound64(Rounds64(v, 6)); }
    assert Rounds64(v, 8) == MaskRound64(MaskRound64(MaskRound64(MaskRound64(MaskRound64(MaskRound64(MaskRound64(MaskRound64(v)))))))) by { MaskRoundIsRound64(Rounds64(v, 7)); }
  }

  /** The value Calculate64 returns: the int seed is sign-extended to a ulong. */
  function Calc64(seed: int): bv64 {
    Entry64(Int64Bits(seed))
  }

  /** Calculate64: the same loop over 64 bits. */
  method Calculate64(seed: int) returns (value: bv64)
    ensures value == Calc64(seed)
  {
    value := Int64Bits(seed);
    var i := 0;
    while i < 8
      invariant 0 <= i <= 8
      invariant value == Rounds64(Int64Bits(seed), i)
    {
      value := if value & 1 != 0 then (value >> 1) ^ Poly64 else value >> 1;
      i := i + 1;
    }
    EightRounds64(Int64Bits(seed));
  }

  function Crc32Table(): seq<bv32> {
    seq(256, i requires 0 <= i < 256 => Table32(i as bv8))
  }
  function Crc64Table(): seq<bv64> {
    seq(256, i requires 0 <= i < 256 => Table64(i as bv8))
  }

  /** The table entry selected by a byte. */
  function Table32(b: bv8): bv32 {
    Entry32(b as bv32)
  }

  function Table64(b: bv8): bv64 {
    Entry64(b as bv64)
  }

  lemma TablesAreEntries(b: bv8)
    ensures Crc32Table()[b as int] == Table32(b)
    ensures Crc64Table()[b as int] == Table64(b)
  {
    ByteIntRoundTrip(b);
  }

  /** For the seeds 0..255 the tables were built from, Calculate32 is the table entry. */
  lemma CalcOfByte(i: int)
    requires 0 <= i < 256
    ensures Calc32(i) == Table32(i as bv8)
  {
    ByteInt32Bits(i);
  }

  lemma CalcIsTable(i: int)
    requires 0 <= i < 256
    ensures |Crc32Table()| == 256 && Calc32(i) == Crc32Table()[i]
  {
    CalcOfByte(i);
    IntByteRoundTrip(i);
    TablesAreEntries(i as bv8);
  }

  /** A few entries of the standard CRC-32 table, and the entry 128 that holds the polynomial. */
  lemma KnownEntries32()
    ensures Table32(0) == 0 && Table32(1) == 0x77073096
    ensures Table32(128) == Poly32 && Table32(255) == 0x2D02EF8D
  {
  }

  /**
   * The 64-bit table pushes the forward ECMA-182 polynomial through a reflected loop: entry 128
   * is that polynomial itself, not the reflected polynomial 0xC96C5795D7870F42 of CRC-64/XZ.
   */
  lemma KnownEntries64()
    ensures Table64(1) == 0x3C3B78E888D80FE1
    ensures Table64(128) == Poly64 && Table64(128) != 0xC96C5795D7870F42
  {
  }

  // ---------------------------------------------------------------------------------------------
  // The inverse index: for each most significant byte, the first seed whose entry has it

  /** The most significant byte of an entry, still as a uint: `value >> 24`. */
  function High32(v: bv32): bv32 {
    v >> 24
  }

  /** The same byte as a byte, the index into Crc32Index. */
  function TopByte32(v: bv32): bv8 {
    (v >> 24) as bv8
  }

  lemma HighIsTopByte(v: bv32)
    ensures High32(v) == TopByte32(v) as bv32
  {
  }

  /** The most significant bytes of the entries for the seeds 0..255, in seed order. */
  function Highs32(): seq<bv32> {
    seq(256, i requires 0 <= i < 256 => High32(Crc32Table()[i]))
  }

  /** The first index at or after from where s holds x. */
  function FirstIndexOf<T(==)>(s: seq<T>, x: T, from: nat): (r: Option<nat>)
    requires from <= |s|
    decreases |s| - from
    ensures r.Some? ==> from <= r.value < |s| && s[r.value] == x
    ensures r.Some? ==> forall j | from <= j < r.value :: s[j] != x
    ensures r.None? ==> forall j | from <= j < |s| :: s[j] != x
  {
    if from == |s| then None
    else if s[from] == x then Some(from)
    else FirstIndexOf(s, x, from + 1)
  }

  /** An index holding x with no earlier occurrence is the one FirstIndexOf finds. */
  lemma {:induction false} FirstIndexOfIs<T>(s: seq<T>, x: T, from: nat, k: nat)
    requires from <= k < |s| && s[k] == x
    requires forall j | from <= j < k :: s[j] != x
    ensures FirstIndexOf(s, x, from) == Some(k)
    decreases k - from
  {
    if from < k {
      FirstIndexOfIs(s, x, from + 1, k);
    }
  }

  /** The byte whose value is the index i. */
  function ByteOfIndex(i: nat): bv8
    requires i < 256
  {
    i as bv8
  }

  /** The value CalculateInverse32 returns for a seed, or the exception it throws. */
  function Inverse32(seed: int): Result<bv8> {
    match FirstIndexOf(Highs32(), Int32Bits(seed), 0)
    case Some(i) => Ok(ByteOfIndex(i))
    case None => Err(Thrown("Most significant byte not in Crc32Table"))
  }

  /** CalculateInverse32: the loop over the seeds 0..255, recomputing each entry. */
  method CalculateInverse32(seed: int) returns (r: Result<bv8>)
    ensures r == Inverse32(seed)
  {
    var msbyte := Int32Bits(seed);
    var i := 0;
    while i < 256
      invariant 0 <= i <= 256
      invariant FirstIndexOf(Highs32(), msbyte, 0) == FirstIndexOf(Highs32(), msbyte, i)
    {
      var entry := Calculate32(i);
      CalcIsTable(i);
      if High32(entry) == msbyte {
        return Ok(ByteOfIndex(i));
      }
      i := i + 1;
    }
    return Err(Thrown("Most significant byte not in Crc32Table"));
  }

  /**
   * CalculateInverse32 succeeds exactly when some seed i in 0..255 has a table entry whose top
   * byte is the uint seed, and then returns the smallest such i; HighsAreCalc says these top
   * bytes are `Calculate32(i) >> 24`, the values the loop compares.
   */
  lemma Inverse32Spec(seed: int)
    ensures Inverse32(seed).Ok? <==> exists i | 0 <= i < 256 :: Highs32()[i] == Int32Bits(seed)
    ensures Inverse32(seed).Ok? ==> exists i | 0 <= i < 256 ::
      Inverse32(seed).value == ByteOfIndex(i) && Highs32()[i] == Int32Bits(seed)
      && forall j | 0 <= j < i :: Highs32()[j] != Int32Bits(seed)
  {
    var found := FirstIndexOf(Highs32(), Int32Bits(seed), 0);
    if found.Some? {
      assert Highs32()[found.value] == Int32Bits(seed);
    }
  }

  /** The top bytes of the table are those of Calculate32 on the seeds 0..255. */
  lemma HighsAreCalc()
    ensures forall i | 0 <= i < 256 :: Highs32()[i] == High32(Calc32(i))
  {
    forall i | 0 <= i < 256
      ensures Highs32()[i] == High32(Calc32(i))
    {
      CalcIsTable(i);
    }
  }

  /**
   * The top-byte map of the table is linear over GF(2) and invertible; this is its inverse,
   * written as the xor of the images of the eight unit bytes.
   */
  function LinearIndex(m: bv8): bv8 {
    (if m & 0x01 != 0 then 0x41 else 0) ^ (if m & 0x02 != 0 then 0xC3 else 0)
    ^ (if m & 0x04 != 0 then 0x86 else 0) ^ (if m & 0x08 != 0 then 0x4D else 0)
    ^ (if m & 0x10 != 0 then 0x9A else 0) ^ (if m & 0x20 != 0 then 0x75 else 0)
    ^ (if m & 0x40 != 0 then 0xEA else 0) ^ (if m & 0x80 != 0 then 0x95 else 0)
  }

  lemma LinearIndexHitsTopByte(m: bv8)
    ensures TopByte32(Table32(LinearIndex(m))) == m
  {
  }

  /** Distinct seeds have distinct most significant bytes: the top-byte map is a permutation. */
  lemma TopByteInjective(i: bv8, j: bv8)
    requires TopByte32(Table32(i)) == TopByte32(Table32(j))
    ensures i == j
  {
  }

  /** The entry of byte m in Highs32, seen as a top byte. */
  lemma HighsAt(k: bv8)
    ensures Highs32()[k as int] == TopByte32(Table32(k)) as bv32
  {
    TablesAreEntries(k);
    HighIsTopByte(Table32(k));
  }

  /** The seed LinearIndex(m) has m as its most significant byte. */
  lemma HighsHitAtLinearIndex(m: int)
    requires 0 <= m < 256
    ensures Highs32()[LinearIndex(m as bv8) as int] == Int32Bits(m)
  {
    ByteInt32Bits(m);
    LinearIndexHitsTopByte(m as bv8);
    HighsAt(LinearIndex(m as bv8));
  }

  /** No byte other than LinearIndex(m) selects an entry with most significant byte m. */
  lemma TopByteMissElsewhere(m: bv8, j: bv8)
    requires j != LinearIndex(m)
    ensures TopByte32(Table32(j)) != m
  {
    LinearIndexHitsTopByte(m);
    if TopByte32(Table32(j)) == m {
      TopByteInjective(j, LinearIndex(m));
    }
  }

  /** No other seed has m as its most significant byte. */
  lemma HighsMissElsewhere(m: int, j: int)
    requires 0 <= m < 256 && 0 <= j < 256 && j != LinearIndex(m as bv8) as int
    ensures Highs32()[j] != Int32Bits(m)
  {
    IntByteRoundTrip(j);
    assert j as bv8 != LinearIndex(m as bv8);
    TopByteMissElsewhere(m as bv8, j as bv8);
    HighsAt(j as bv8);
    ByteInt32Bits(m);
  }

  /** Every most significant byte occurs in the table, first (and only) at LinearIndex. */
  lemma Inverse32OfByte(m: int)
    requires 0 <= m < 256
    ensures Inverse32(m) == Ok(LinearIndex(m as bv8))
  {
    var k := LinearIndex(m as bv8);
    ByteIntRoundTrip(k);
    HighsHitAtLinearIndex(m);
    forall j | 0 <= j < k as int
      ensures Highs32()[j] != Int32Bits(m)
    {
      HighsMissElsewhere(m, j);
    }
    FirstIndexOfIs(Highs32(), Int32Bits(m), 0, k as int);
  }

  /**
   * Crc32Index: CalculateInverse32 of every byte value. The source's static initializer would
   * throw on an error; Inverse32OfByte shows there is none, so the 0 below is never taken.
   */
  function IndexEntry(m: int): bv8
    requires 0 <= m < 256
  {
    match Inverse32(m)
    case Ok(i) => i
    case Err(_) => 0
  }

  function Crc32Index(): seq<bv8> {
    seq(256, m requires 0 <= m < 256 => IndexEntry(m))
  }

  /** The inverse index looked up with a most significant byte. */
  function IndexAt(m: bv8): bv8 {
    Crc32Index()[m as int]
  }

  lemma IndexEntryOfByte(i: int)
    requires 0 <= i < 256
    ensures IndexEntry(i) == LinearIndex(i as bv8)
  {
    Inverse32OfByte(i);
  }

  /** Crc32Index maps each byte to the one seed whose entry has that most significant byte. */
  lemma IndexAtHitsTopByte(m: bv8)
    ensures IndexAt(m) == LinearIndex(m)
    ensures TopByte32(Table32(IndexAt(m))) == m
  {
    ByteIntRoundTrip(m);
    IndexEntryOfByte(m as int);
    LinearIndexHitsTopByte(m);
  }

  // ---------------------------------------------------------------------------------------------
  // Keystreams and Crypt

  /** Byte j (0 = least significant) of a 32-bit word. */
  function ByteOf32(w: bv32, j: int): bv8
    requires 0 <= j < 4
  {
    if j == 0 then (w & 0xFF) as bv8
    else if j == 1 then ((w >> 8) & 0xFF) as bv8
    else if j == 2 then ((w >> 16) & 0xFF) as bv8
    else ((w >> 24) & 0xFF) as bv8
  }

  /** Byte j (0 = least significant) of a 64-bit word. */
  function ByteOf64(w: bv64, j: int): bv8
    requires 0 <= j < 8
  {
    if j < 4 then ByteOf32((w & 0xFFFF_FFFF) as bv32, j) else ByteOf32((w >> 32) as bv32, j - 4)
  }

  /** The table words laid out little-endian, four bytes each (BitConverter.GetBytes). */
  function KeyBytes32(table: seq<bv32>): (key: seq<bv8>)
    ensures |key| == 4 * |table|
  {
    seq(4 * |table|, k requires 0 <= k < 4 * |table| => ByteOf32(table[k / 4], k % 4))
  }

  /** The same for 64-bit words, eight bytes each. */
  function KeyBytes64(table: seq<bv64>): (key: seq<bv8>)
    ensures |key| == 8 * |table|
  {
    seq(8 * |table|, k requires 0 <= k < 8 * |table| => ByteOf64(table[k / 8], k % 8))
  }

  function CryptKey32(): seq<bv8> {
    KeyBytes32(Crc32Table())
  }

  function CryptKey64(): seq<bv8> {
    KeyBytes64(Crc64Table())
  }

  /** Byte 4i + j of a key is byte j of word i. */
  lemma KeyBytesLayout32(table: seq<bv32>, i: int, j: int)
    requires 0 <= i < |table| && 0 <= j < 4
    ensures KeyBytes32(table)[4 * i + j] == ByteOf32(table[i], j)
  {
    assert (4 * i + j) / 4 == i && (4 * i + j) % 4 == j;
  }

  lemma KeyBytesLayout64(table: seq<bv64>, i: int, j: int)
    requires 0 <= i < |table| && 0 <= j < 8
    ensures KeyBytes64(table)[8 * i + j] == ByteOf64(table[i], j)
  {
    assert (8 * i + j) / 8 == i && (8 * i + j) % 8 == j;
  }

  /** The 32-bit key is 1024 bytes, the table's 256 words least significant byte first. */
  lemma KeyLayout32(i: int, j: int)
    requires 0 <= i < 256 && 0 <= j < 4
    ensures |CryptKey32()| == 1024
    ensures CryptKey32()[4 * i + j] == ByteOf32(Crc32Table()[i], j)
  {
    KeyBytesLayout32(Crc32Table(), i, j);
  }

  /** The 64-bit key is 2048 bytes, the table's 256 words least significant byte first. */
  lemma KeyLayout64(i: int, j: int)
    requires 0 <= i < 256 && 0 <= j < 8
    ensures |CryptKey64()| == 2048
    ensures CryptKey64()[8 * i + j] == ByteOf64(Crc64Table()[i], j)
  {
    KeyBytesLayout64(Crc64Table(), i, j);
  }

  /** The bytes after xor with a keystream that starts at keyOffset and wraps at the key length. */
  function Xored(s: seq<bv8>, key: seq<bv8>, keyOffset: int): (r: seq<bv8>)
    requires |key| > 0
    ensures |r| == |s|
  {
    seq(|s|, i requires 0 <= i < |s| => s[i] ^ key[(keyOffset + i) % |key|])
  }

  /**
   * The loop both Crypt methods run: xor each byte in place with the key byte at the running key
   * offset. `keyOffset++ & mask` on a wrapping 32-bit offset, with a key of 2^k bytes, equals the
   * Euclidean remainder of the unbounded sum by the key length.
   */
  method XorKeystream(bytes: array<bv8>, key: seq<bv8>, keyOffset: int)
    requires |key| > 0
    modifies bytes
    ensures bytes[..] == Xored(old(bytes[..]), key, keyOffset)
  {
    var i := 0;
    var k := keyOffset;
    while i < bytes.Length
      invariant 0 <= i <= bytes.Length && k == keyOffset + i
      invariant forall j | 0 <= j < i :: bytes[j] == old(bytes[j]) ^ key[(keyOffset + j) % |key|]
      invariant forall j | i <= j < bytes.Length :: bytes[j] == old(bytes[j])
    {
      bytes[i] := bytes[i] ^ key[k % |key|];
      k := k + 1;
      i := i + 1;
    }
  }

  /** The bytes after xor with the 32-bit keystream, the key index wrapping at 1024. */
  function Crypted32(s: seq<bv8>, keyOffset: int): seq<bv8> {
    Xored(s, CryptKey32(), keyOffset)
  }

  function Crypted64(s: seq<bv8>, keyOffset: int): seq<bv8> {
    Xored(s, CryptKey64(), keyOffset)
  }

  /** Crypt32: the keystream of CryptKey32, whose 1024 bytes make `& 0x3FF` the remainder. */
  method Crypt32(bytes: array<bv8>, keyOffset: int)
    modifies bytes
    ensures bytes[..] == Crypted32(old(bytes[..]), keyOffset)
  {
    XorKeystream(bytes, CryptKey32(), keyOffset);
  }

  /** Crypt64: the keystream of CryptKey64, 2048 bytes, `& 0x7FF`. */
  method Crypt64(bytes: array<bv8>, keyOffset: int)
    modifies bytes
    ensures bytes[..] == Crypted64(old(bytes[..]), keyOffset)
  {
    XorKeystream(bytes, CryptKey64(), keyOffset);
  }

  /** Xoring twice with the same keystream restores the bytes. */
  lemma XoredTwice(s: seq<bv8>, key: seq<bv8>, keyOffset: int)
    requires |key| > 0
    ensures Xored(Xored(s, key, keyOffset), key, keyOffset) == s
  {
    var twice := Xored(Xored(s, key, keyOffset), key, keyOffset);
    forall i | 0 <= i < |s|
      ensures twice[i] == s[i]
    {
      var k := key[(keyOffset + i) % |key|];
      assert twice[i] == s[i] ^ k ^ k;
    }
  }

  /** Crypting keeps the length, and crypting again with the same offset restores the bytes. */
  lemma CryptTwice(s: seq<bv8>, keyOffset: int)
    ensures |Crypted32(s, keyOffset)| == |s| && Crypted32(Crypted32(s, keyOffset), keyOffset) == s
    ensures |Crypted64(s, keyOffset)| == |s| && Crypted64(Crypted64(s, keyOffset), keyOffset) == s
  {
    XoredTwice(s, CryptKey32(), keyOffset);
    XoredTwice(s, CryptKey64(), keyOffset);
  }

  /** For the two key lengths, offsets one key length apart give the same keystream. */
  lemma XoredWraps(s: seq<bv8>, key: seq<bv8>, keyOffset: int)
    requires |key| == 1024 || |key| == 2048
    ensures Xored(s, key, keyOffset + |key|) == Xored(s, key, keyOffset)
  {
    forall i | 0 <= i < |s|
      ensures Xored(s, key, keyOffset + |key|)[i] == Xored(s, key, keyOffset)[i]
    {
      if |key| == 1024 {
        assert (keyOffset + 1024 + i) % 1024 == (keyOffset + i) % 1024;
      } else {
        assert (keyOffset + 2048 + i) % 2048 == (keyOffset + i) % 2048;
      }
    }
  }

  /** Key offsets that agree modulo the key length give the same keystream. */
  lemma CryptOffsetWraps(s: seq<bv8>, keyOffset: int)
    ensures Crypted32(s, keyOffset + 1024) == Crypted32(s, keyOffset)
    ensures Crypted64(s, keyOffset + 2048) == Crypted64(s, keyOffset)
  {
    XoredWraps(s, CryptKey32(), keyOffset);
    XoredWraps(s, CryptKey64(), keyOffset);
  }

  // ---------------------------------------------------------------------------------------------
  // Hashing

  function LowByte32(v: bv32): bv8 {
    (v & 0xFF) as bv8
  }

  function LowByte64(v: bv64): bv8 {
    (v & 0xFF) as bv8
  }

  /** The body of Hash32's loop: one byte of the table-driven CRC on the complemented register. */
  function Step32(r: bv32, b: bv8): bv32 {
    (r >> 8) ^ Table32(LowByte32(r ^ (b as bv32)))
  }

  function Step64(r: bv64, b: bv8): bv64 {
    (r >> 8) ^ Table64(LowByte64(r ^ (b as bv64)))
  }

  function Not32(x: bv32): bv32 {
    !x
  }

  function Not64(x: bv64): bv64 {
    !x
  }

  lemma NotInvolutive()
    ensures forall x: bv32 :: Not32(Not32(x)) == x
    ensures forall x: bv64 :: Not64(Not64(x)) == x
  {
  }

  // The hash loops are folds of a step over the bytes; their algebra does not depend on the
  // register's width, so it is proved once for any register type R.

  /** The register after feeding the bytes of s front to back. */
  function Fold<R>(step: (R, bv8) -> R, r: R, s: seq<bv8>): R
    decreases |s|
  {
    if s == [] then r else Fold(step, step(r, s[0]), s[1..])
  }

  /** Feeding one more byte extends the fold by one step. */
  lemma {:induction false} FoldAppend<R>(step: (R, bv8) -> R, r: R, s: seq<bv8>, b: bv8)
    ensures Fold(step, r, s + [b]) == step(Fold(step, r, s), b)
    decreases |s|
  {
    if s == [] {
      assert s + [b] == [b];
    } else {
      assert (s + [b])[1..] == s[1..] + [b];
      FoldAppend(step, step(r, s[0]), s[1..], b);
    }
  }

  lemma {:induction false} FoldConcat<R>(step: (R, bv8) -> R, r: R, a: seq<bv8>, b: seq<bv8>)
    ensures Fold(step, r, a + b) == Fold(step, Fold(step, r, a), b)
    decreases |a|
  {
    if a == [] {
      assert a + b == b;
    } else {
      assert (a + b)[1..] == a[1..] + b;
      FoldConcat(step, step(r, a[0]), a[1..], b);
    }
  }

  /** A fold whose register is complemented on entry and on exit, as the hash functions do. */
  function Complemented<R>(step: (R, bv8) -> R, not: R -> R, bytes: seq<bv8>, init: R): R {
    not(Fold(step, not(init), bytes))
  }

  /** With an involutive complement, hashing a + b continues from the hash of a. */
  lemma ComplementedChains<R>(step: (R, bv8) -> R, not: R -> R, a: seq<bv8>, b: seq<bv8>, init: R)
    requires forall x :: not(not(x)) == x
    ensures Complemented(step, not, a + b, init) == Complemented(step, not, b, Complemented(step, not, a, init))
  {
    var x := Fold(step, not(init), a);
    FoldConcat(step, not(init), a, b);
    assert not(not(x)) == x;
  }

  /** The CRC-32 of bytes, continued from a previous hash value init. */
  function HashValue32(bytes: seq<bv8>, init: bv32): bv32 {
    Complemented(Step32, Not32, bytes, init)
  }

  function HashValue64(bytes: seq<bv8>, init: bv64): bv64 {
    Complemented(Step64, Not64, bytes, init)
  }

  /** The loop every hash method runs: complement, feed each byte front to back, complement. */
  method ComplementedFold<R>(step: (R, bv8) -> R, not: R -> R, bytes: seq<bv8>, init: R) returns (hash: R)
    ensures hash == Complemented(step, not, bytes, init)
  {
    var result := not(init);
    var i := 0;
    while i < |bytes|
      invariant 0 <= i <= |bytes|
      invariant Fold(step, result, bytes[i..]) == Fold(step, not(init), bytes)
    {
      assert bytes[i..][1..] == bytes[i + 1..];
      result := step(result, bytes[i]);
      i := i + 1;
    }
    assert bytes[i..] == [];
    hash := not(result);
  }

  /** Hash32: the accumulator loop over the bytes. */
  method Hash32(bytes: seq<bv8>, init: bv32) returns (hash: bv32)
    ensures hash == HashValue32(bytes, init)
  {
    hash := ComplementedFold(Step32, Not32, bytes, init);
  }

  method Hash64(bytes: seq<bv8>, init: bv64) returns (hash: bv64)
    ensures hash == HashValue64(bytes, init)
  {
    hash := ComplementedFold(Step64, Not64, bytes, init);
  }

  /** Hashing chains: because init and result are both complemented, a hash continues another. */
  lemma HashChains32(a: seq<bv8>, b: seq<bv8>, init: bv32)
    ensures HashValue32(a + b, init) == HashValue32(b, HashValue32(a, init))
  {
    NotInvolutive();
    ComplementedChains(Step32, Not32, a, b, init);
  }

  lemma HashChains64(a: seq<bv8>, b: seq<bv8>, init: bv64)
    ensures HashValue64(a + b, init) == HashValue64(b, HashValue64(a, init))
  {
    NotInvolutive();
    ComplementedChains(Step64, Not64, a, b, init);
  }

  /** The standard CRC-32 check value of the ASCII digits "123456789". */
  lemma CheckValue32()
    ensures HashValue32([0x31, 0x32, 0x33, 0x34, 0x35, 0x36, 0x37, 0x38, 0x39], 0) == 0xCBF43926
  {
    var s: seq<bv8> := [0x31, 0x32, 0x33, 0x34, 0x35, 0x36, 0x37, 0x38, 0x39];
    assert s[9..] == [];
    assert s[8..][1..] == s[9..];
    assert Fold(Step32, 0x651F2550, s[8..]) == 0x340BC6D9;
    assert s[7..][1..] == s[8..];
    assert Fold(Step32, 0xAFFC9660, s[7..]) == 0x340BC6D9;
    assert s[6..][1..] == s[7..];
    assert Fold(Step32, 0xF68D2C9E, s[6..]) == 0x340BC6D9;
    assert s[5..][1..] == s[6..];
    assert Fold(Step32, 0x340AC5E3, s[5..]) == 0x340BC6D9;
    assert s[4..][1..] == s[5..];
    assert Fold(Step32, 0x641C1F5C, s[4..]) == 0x340BC6D9;
    assert s[3..][1..] == s[4..];
    assert Fold(Step32, 0x77B79C2D, s[3..]) == 0x340BC6D9;
    assert s[2..][1..] == s[3..];
    assert Fold(Step32, 0xB0ACBB32, s[2..]) == 0x340BC6D9;
    assert s[1..][1..] == s[2..];
    assert Fold(Step32, 0x7C231048, s[1..]) == 0x340BC6D9;
    assert s[0..][1..] == s[1..];
    assert Fold(Step32, 0xFFFFFFFF, s[0..]) == 0x340BC6D9;
  }

  /** The 64-bit variant's check value differs from that of CRC-64/XZ (0x995DC9BBDF1939FA). */
  lemma CheckValue64()
    ensures HashValue64([0x31, 0x32, 0x33, 0x34, 0x35, 0x36, 0x37, 0x38, 0x39], 0) == 0xB86883E6FA710A9F
  {
    var s: seq<bv8> := [0x31, 0x32, 0x33, 0x34, 0x35, 0x36, 0x37, 0x38, 0x39];
    assert s[9..] == [];
    assert s[8..][1..] == s[9..];
    assert Fold(Step64, 0x43506BB85DC840CF, s[8..]) == 0x47977C19058EF560;
    assert s[7..][1..] == s[8..];
    assert Fold(Step64, 0x2EA8178DD60AEBD1, s[7..]) == 0x47977C19058EF560;
    assert s[6..][1..] == s[7..];
    assert Fold(Step64, 0x38D010E9E738204A, s[6..]) == 0x47977C19058EF560;
    assert s[5..][1..] == s[6..];
    assert Fold(Step64, 0x4187DC022D58AF28, s[5..]) == 0x47977C19058EF560;
    assert s[4..][1..] == s[5..];
    assert Fold(Step64, 0x6B7961775A60D567, s[4..]) == 0x47977C19058EF560;
    assert s[3..][1..] == s[4..];
    assert Fold(Step64, 0x2A0D9785116A0223, s[3..]) == 0x47977C19058EF560;
    assert s[2..][1..] == s[3..];
    assert Fold(Step64, 0x37BFC5434AA6D651, s[2..]) == 0x47977C19058EF560;
    assert s[1..][1..] == s[2..];
    assert Fold(Step64, 0x4304DD93F8B261B6, s[1..]) == 0x47977C19058EF560;
    assert s[0..][1..] == s[1..];
    assert Fold(Step64, 0xFFFFFFFFFFFFFFFF, s[0..]) == 0x47977C19058EF560;
  }

  /** Whether a call with startIndex and count reads only bytes that exist, and so does not throw. */
  predicate SliceInRange(bytes: seq<bv8>, startIndex: int, count: int) {
    count <= 0 || (0 <= startIndex && startIndex + count <= |bytes|)
  }

  /** The bytes such a call reads; none when count is not positive. */
  function Slice(bytes: seq<bv8>, startIndex: int, count: int): seq<bv8>
    requires SliceInRange(bytes, startIndex, count)
  {
    if count <= 0 then [] else bytes[startIndex..startIndex + count]
  }

  /** The first i bytes of a slice, as a loop over it has read them. */
  function Prefix(bytes: seq<bv8>, startIndex: int, i: int): seq<bv8>
    requires 0 <= i
    requires 0 < i ==> 0 <= startIndex && startIndex + i <= |bytes|
  {
    if i == 0 then [] else bytes[startIndex..startIndex + i]
  }

  lemma PrefixStep(bytes: seq<bv8>, startIndex: int, i: int)
    requires 0 <= i && 0 <= startIndex + i < |bytes|
    requires 0 < i ==> 0 <= startIndex
    ensures Prefix(bytes, startIndex, i + 1) == Prefix(bytes, startIndex, i) + [bytes[startIndex + i]]
  {
  }

  /**
   * The loop of the At methods: the same fold over count bytes from startIndex; reading a byte
   * outside the array throws, and a count that is not positive reads nothing.
   */
  method ComplementedFoldAt<R>(step: (R, bv8) -> R, not: R -> R, bytes: seq<bv8>, startIndex: int, count: int, init: R)
    returns (r: Result<R>)
    ensures r.Ok? <==> SliceInRange(bytes, startIndex, count)
    ensures r.Ok? ==> r.value == Complemented(step, not, Slice(bytes, startIndex, count), init)
  {
    var result := not(init);
    var i := 0;
    while i < count
      invariant 0 <= i && (i == 0 || i <= count)
      invariant 0 < i ==> 0 <= startIndex && startIndex + i <= |bytes|
      invariant result == Fold(step, not(init), Prefix(bytes, startIndex, i))
    {
      if startIndex + i < 0 || startIndex + i >= |bytes| {
        return Err(Thrown("Index was outside the bounds of the array"));
      }
      PrefixStep(bytes, startIndex, i);
      FoldAppend(step, not(init), Prefix(bytes, startIndex, i), bytes[startIndex + i]);
      result := step(result, bytes[startIndex + i]);
      i := i + 1;
    }
    assert Prefix(bytes, startIndex, i) == Slice(bytes, startIndex, count);
    r := Ok(not(result));
  }

  /** Hash32At: the hash of count bytes from startIndex. */
  method Hash32At(bytes: seq<bv8>, startIndex: int, count: int, init: bv32) returns (r: Result<bv32>)
    ensures r.Ok? <==> SliceInRange(bytes, startIndex, count)
    ensures r.Ok? ==> r.value == HashValue32(Slice(bytes, startIndex, count), init)
  {
    r := ComplementedFoldAt(Step32, Not32, bytes, startIndex, count, init);
  }

  method Hash64At(bytes: seq<bv8>, startIndex: int, count: int, init: bv64) returns (r: Result<bv64>)
    ensures r.Ok? <==> SliceInRange(bytes, startIndex, count)
    ensures r.Ok? ==> r.value == HashValue64(Slice(bytes, startIndex, count), init)
  {
    r := ComplementedFoldAt(Step64, Not64, bytes, startIndex, count, init);
  }

  /** An in-range slice of prefix + middle + suffix is middle: the bytes around it do not matter. */
  lemma SliceOfMiddle(prefix: seq<bv8>, middle: seq<bv8>, suffix: seq<bv8>)
    ensures SliceInRange(prefix + middle + suffix, |prefix|, |middle|)
    ensures Slice(prefix + middle + suffix, |prefix|, |middle|) == middle
  {
    var all := prefix + middle + suffix;
    if |middle| > 0 {
      assert all[|prefix|..|prefix| + |middle|] == middle;
    }
  }

  // ---------------------------------------------------------------------------------------------
  // The inverse hash: rewinding a target hash back through known bytes

  /** The rewind step for a given index: the xor of its entry shifted out, the byte shifted in. */
  function UnstepWith(r: bv32, b: bv8, index: bv8): bv32 {
    ((r ^ Table32(index)) << 8) | ((index as bv32) ^ (b as bv32))
  }

  /** The body of HashInverse32's loop: the register before the step that fed byte b and left r. */
  function Unstep32(r: bv32, b: bv8): bv32 {
    UnstepWith(r, b, IndexAt(TopByte32(r)))
  }

  /** The bit algebra of one rewind step, with the table entry t and the index as unknowns. */
  lemma UnstepAlgebra(r: bv32, t: bv32, index: bv8, b: bv8)
    requires TopByte32(t) == TopByte32(r)
    ensures LowByte32(((((r ^ t) << 8) | ((index as bv32) ^ (b as bv32)))) ^ (b as bv32)) == index
    ensures (((r ^ t) << 8) | ((index as bv32) ^ (b as bv32))) >> 8 == r ^ t
  {
  }

  /** Rewinding with any index whose entry has r's most significant byte is undone by a step. */
  lemma StepUndoesUnstepWith(r: bv32, b: bv8, index: bv8)
    requires TopByte32(Table32(index)) == TopByte32(r)
    ensures Step32(UnstepWith(r, b, index), b) == r
  {
    UnstepAlgebra(r, Table32(index), index, b);
  }

  lemma StepUndoesUnstep(r: bv32, b: bv8)
    ensures Step32(Unstep32(r, b), b) == r
  {
    IndexAtHitsTopByte(TopByte32(r));
    StepUndoesUnstepWith(r, b, IndexAt(TopByte32(r)));
  }

  /** The bit algebra of one forward step, with the table entry t as an unknown. */
  lemma StepAlgebra(x: bv32, t: bv32, b: bv8)
    ensures TopByte32((x >> 8) ^ t) == TopByte32(t)
    ensures (((((x >> 8) ^ t) ^ t) << 8) | ((LowByte32(x ^ (b as bv32)) as bv32) ^ (b as bv32))) == x
  {
  }

  /** The index stored for the most significant byte of entry k is k itself. */
  lemma IndexOfTopByte(k: bv8)
    ensures IndexAt(TopByte32(Table32(k))) == k
  {
    var m := TopByte32(Table32(k));
    IndexAtHitsTopByte(m);
    TopByteInjective(IndexAt(m), k);
  }

  /** A step is undone by the rewind step: Step32 is injective in the register for each byte. */
  lemma UnstepUndoesStep(x: bv32, b: bv8)
    ensures Unstep32(Step32(x, b), b) == x
  {
    var index := LowByte32(x ^ (b as bv32));
    StepAlgebra(x, Table32(index), b);
    IndexOfTopByte(index);
  }

  function Reverse(s: seq<bv8>): (r: seq<bv8>)
    ensures |r| == |s|
  {
    if s == [] then [] else Reverse(s[1..]) + [s[0]]
  }

  lemma {:induction false} ReverseAppend(s: seq<bv8>, t: seq<bv8>)
    ensures Reverse(s + t) == Reverse(t) + Reverse(s)
    decreases |s|
  {
    if s == [] {
      assert s + t == t;
    } else {
      assert (s + t)[1..] == s[1..] + t;
      ReverseAppend(s[1..], t);
    }
  }

  lemma {:induction false} ReverseReverse(s: seq<bv8>)
    ensures Reverse(Reverse(s)) == s
    decreases |s|
  {
    if s != [] {
      ReverseAppend(Reverse(s[1..]), [s[0]]);
      assert Reverse([s[0]]) == [s[0]];
      ReverseReverse(s[1..]);
    }
  }

  /** Feeding the bytes after rewinding through them in reverse order gives the register back. */
  lemma {:induction false} FoldUndoesFoldBack<R>(step: (R, bv8) -> R, unstep: (R, bv8) -> R, r: R, s: seq<bv8>)
    requires forall x, b :: step(unstep(x, b), b) == x
    ensures Fold(step, Fold(unstep, r, Reverse(s)), s) == r
    decreases |s|
  {
    if s != [] {
      var y := Fold(unstep, r, Reverse(s[1..]));
      FoldAppend(unstep, r, Reverse(s[1..]), s[0]);
      assert step(unstep(y, s[0]), s[0]) == y;
      FoldUndoesFoldBack(step, unstep, r, s[1..]);
    }
  }

  /** The value HashInverse32 returns: the bytes taken back to front, rewinding a complemented target. */
  function HashInverseValue32(bytes: seq<bv8>, init: bv32): bv32 {
    Complemented(Unstep32, Not32, Reverse(bytes), init)
  }

  /** HashInverse32: rewinds the target through the bytes taken back to front. */
  method HashInverse32(bytes: seq<bv8>, init: bv32) returns (hash: bv32)
    ensures hash == HashInverseValue32(bytes, init)
  {
    hash := ComplementedFold(Unstep32, Not32, Reverse(bytes), init);
  }

  /** The defining property: hashing the bytes starting from HashInverse32(bytes, t) yields t. */
  lemma HashOfInverse(bytes: seq<bv8>, t: bv32)
    ensures HashValue32(bytes, HashInverseValue32(bytes, t)) == t
  {
    NotInvolutive();
    forall x: bv32, b: bv8
      ensures Step32(Unstep32(x, b), b) == x
    {
      StepUndoesUnstep(x, b);
    }
    var y := Fold(Unstep32, Not32(t), Reverse(bytes));
    FoldUndoesFoldBack(Step32, Unstep32, Not32(t), bytes);
    assert Not32(Not32(y)) == y;
  }

  /** Rewinding through the bytes in reverse order after feeding them gives the register back. */
  lemma {:induction false} FoldBackUndoesFold<R>(step: (R, bv8) -> R, unstep: (R, bv8) -> R, r: R, s: seq<bv8>)
    requires forall x, b :: unstep(step(x, b), b) == x
    ensures Fold(unstep, Fold(step, r, s), Reverse(s)) == r
    decreases |s|
  {
    if s != [] {
      var y := Fold(step, step(r, s[0]), s[1..]);
      FoldBackUndoesFold(step, unstep, step(r, s[0]), s[1..]);
      FoldAppend(unstep, y, Reverse(s[1..]), s[0]);
    }
  }

  /** HashInverse32 undoes hashing: the hash continued from x is rewound back to x. */
  lemma InverseOfHash(bytes: seq<bv8>, x: bv32)
    ensures HashInverseValue32(bytes, HashValue32(bytes, x)) == x
  {
    NotInvolutive();
    forall y: bv32, b: bv8
      ensures Unstep32(Step32(y, b), b) == y
    {
      UnstepUndoesStep(y, b);
    }
    var z := Fold(Step32, Not32(x), bytes);
    FoldBackUndoesFold(Step32, Unstep32, Not32(x), bytes);
    assert Not32(Not32(z)) == z;
  }

  /** So HashInverse32(bytes, t) is the one value from which hashing the bytes reaches t. */
  lemma HashReachesIff(bytes: seq<bv8>, x: bv32, t: bv32)
    ensures HashValue32(bytes, x) == t <==> x == HashInverseValue32(bytes, t)
  {
    HashOfInverse(bytes, t);
    InverseOfHash(bytes, x);
  }

  /** HashInverse32At: rewinds through count bytes from startIndex, taken FRONT to back. */
  method HashInverse32At(bytes: seq<bv8>, startIndex: int, count: int, init: bv32) returns (r: Result<bv32>)
    ensures r.Ok? <==> SliceInRange(bytes, startIndex, count)
    ensures r.Ok? ==> r.value == Complemented(Unstep32, Not32, Slice(bytes, startIndex, count), init)
  {
    r := ComplementedFoldAt(Unstep32, Not32, bytes, startIndex, count, init);
  }

  /**
   * Because HashInverse32At walks its slice front to back, it is HashInverse32 of the REVERSED
   * slice: it inverts the hash of the slice's bytes read back to front.
   */
  lemma InverseAtInvertsReversedSlice(bytes: seq<bv8>, startIndex: int, count: int, t: bv32)
    requires SliceInRange(bytes, startIndex, count)
    ensures Complemented(Unstep32, Not32, Slice(bytes, startIndex, count), t)
      == HashInverseValue32(Reverse(Slice(bytes, startIndex, count)), t)
    ensures HashValue32(Reverse(Slice(bytes, startIndex, count)),
      Complemented(Unstep32, Not32, Slice(bytes, startIndex, count), t)) == t
  {
    var s := Slice(bytes, startIndex, count);
    ReverseReverse(s);
    HashOfInverse(Reverse(s), t);
  }

  // ---------------------------------------------------------------------------------------------
  // At most four bytes: the hash determines them

  /** The bits of x above its k low bytes; none are left once k reaches 4. */
  function Above(x: bv32, k: nat): bv32 {
    if k == 0 then x else if k == 1 then x >> 8 else if k == 2 then x >> 16 else if k == 3 then x >> 24 else 0
  }

  /**
   * The bit algebra behind one step back: registers whose steps share the entry t and differ only
   * in their k low bytes (k < 4) differ only in their k + 1 low bytes, and their low bytes differ
   * as the fed bytes do.
   */
  lemma AgreeAlgebra(u: bv32, v: bv32, x: bv8, y: bv8, p: bv32, q: bv32, t: bv32, k: nat)
    requires p == (u >> 8) ^ t && q == (v >> 8) ^ t
    requires k < 4 && Above(p ^ q, k) == 0
    requires LowByte32(u ^ (x as bv32)) == LowByte32(v ^ (y as bv32))
    ensures Above(u ^ v, k + 1) == 0
    ensures LowByte32(u ^ v) == x ^ y
  {
  }

  // The injectivity argument is made for any table whose entries have distinct most significant
  // bytes, so that the concrete Table32 never has to be unfolded inside it.

  /** index undoes the most significant byte of tab's entries, so those bytes are distinct. */
  ghost predicate Indexed(tab: bv8 -> bv32, index: bv8 -> bv8) {
    forall i: bv8 :: index(TopByte32(tab(i))) == i
  }

  /** Step32 with its table as a parameter. */
  function StepWith(tab: bv8 -> bv32, r: bv32, x: bv8): bv32 {
    (r >> 8) ^ tab(LowByte32(r ^ (x as bv32)))
  }

  /** Fold of StepWith over s. */
  function FoldWith(tab: bv8 -> bv32, r: bv32, s: seq<bv8>): bv32
    decreases |s|
  {
    if s == [] then r else FoldWith(tab, StepWith(tab, r, s[0]), s[1..])
  }

  lemma StepWithTable32(r: bv32, x: bv8)
    ensures StepWith(Table32, r, x) == Step32(r, x)
  {
    var i := LowByte32(r ^ (x as bv32));
    var table := Table32;
    assert table(i) == Table32(i);
  }

  lemma {:induction false} FoldWithTable32(r: bv32, s: seq<bv8>)
    ensures FoldWith(Table32, r, s) == Fold(Step32, r, s)
    decreases |s|
  {
    if s != [] {
      StepWithTable32(r, s[0]);
      FoldWithTable32(Step32(r, s[0]), s[1..]);
    }
  }

  lemma Table32Indexed()
    ensures Indexed(Table32, IndexAt)
  {
    forall i: bv8
      ensures IndexAt(TopByte32(Table32(i))) == i
    {
      IndexOfTopByte(i);
    }
  }

  /** If two steps differ only in their k low bytes (k < 4), the entries they xor in share their top byte. */
  lemma TopAlgebra(u: bv32, v: bv32, t: bv32, w: bv32, k: nat)
    requires k < 4 && Above(((u >> 8) ^ t) ^ ((v >> 8) ^ w), k) == 0
    ensures TopByte32(t) == TopByte32(w)
  {
  }

  /** Two steps whose results differ only in their k low bytes (k < 4) selected the same entry. */
  lemma SameEntry(tab: bv8 -> bv32, index: bv8 -> bv8, u: bv32, v: bv32, x: bv8, y: bv8, k: nat)
    requires Indexed(tab, index)
    requires k < 4 && Above(StepWith(tab, u, x) ^ StepWith(tab, v, y), k) == 0
    ensures LowByte32(u ^ (x as bv32)) == LowByte32(v ^ (y as bv32))
  {
    var i, j := LowByte32(u ^ (x as bv32)), LowByte32(v ^ (y as bv32));
    TopAlgebra(u, v, tab(i), tab(j), k);
  }

  /** Two steps that selected the same entry and land k low bytes apart started k + 1 bytes apart. */
  lemma StepBack(tab: bv8 -> bv32, u: bv32, v: bv32, x: bv8, y: bv8, k: nat)
    requires LowByte32(u ^ (x as bv32)) == LowByte32(v ^ (y as bv32))
    requires k < 4 && Above(StepWith(tab, u, x) ^ StepWith(tab, v, y), k) == 0
    ensures Above(u ^ v, k + 1) == 0
    ensures LowByte32(u ^ v) == x ^ y
  {
    AgreeAlgebra(u, v, x, y, StepWith(tab, u, x), StepWith(tab, v, y), tab(LowByte32(u ^ (x as bv32))), k);
  }

  /** Steps that land k low bytes apart (k < 4) started k + 1 low bytes apart. */
  lemma StepsBack(tab: bv8 -> bv32, index: bv8 -> bv8, u: bv32, v: bv32, x: bv8, y: bv8, k: nat)
    requires Indexed(tab, index)
    requires k < 4 && Above(StepWith(tab, u, x) ^ StepWith(tab, v, y), k) == 0
    ensures Above(u ^ v, k + 1) == 0
  {
    SameEntry(tab, index, u, v, x, y, k);
    StepBack(tab, u, v, x, y, k);
  }

  /**
   * Registers from which a and b (at most four bytes each) reach the same register differ only
   * in their |a| low bytes.
   */
  lemma {:induction false} FoldsAgree(tab: bv8 -> bv32, index: bv8 -> bv8, u: bv32, v: bv32, a: seq<bv8>, b: seq<bv8>)
    requires Indexed(tab, index)
    requires |a| == |b| <= 4 && FoldWith(tab, u, a) == FoldWith(tab, v, b)
    ensures Above(u ^ v, |a|) == 0
    decreases |a|
  {
    if a != [] {
      var x, y := a[0], b[0];
      assert FoldWith(tab, StepWith(tab, u, x), a[1..]) == FoldWith(tab, StepWith(tab, v, y), b[1..]);
      FoldsAgree(tab, index, StepWith(tab, u, x), StepWith(tab, v, y), a[1..], b[1..]);
      StepsBack(tab, index, u, v, x, y, |a| - 1);
    }
  }

  lemma SameByte(r: bv32, x: bv8, y: bv8)
    requires LowByte32(r ^ r) == x ^ y
    ensures x == y
  {
  }

  /** From one register, two strings of at most four bytes that reach the same register start alike. */
  lemma FirstBytesAgree(tab: bv8 -> bv32, index: bv8 -> bv8, r: bv32, a: seq<bv8>, b: seq<bv8>)
    requires Indexed(tab, index)
    requires 0 < |a| == |b| <= 4 && FoldWith(tab, r, a) == FoldWith(tab, r, b)
    ensures a[0] == b[0]
  {
    var x, y := a[0], b[0];
    var p, q := StepWith(tab, r, x), StepWith(tab, r, y);
    assert FoldWith(tab, p, a[1..]) == FoldWith(tab, q, b[1..]);
    FoldsAgree(tab, index, p, q, a[1..], b[1..]);
    SameEntry(tab, index, r, r, x, y, |a| - 1);
    StepBack(tab, r, r, x, y, |a| - 1);
    SameByte(r, x, y);
  }

  /** From one register, at most four bytes are determined by the register they leave. */
  lemma {:induction false} FoldInjective(tab: bv8 -> bv32, index: bv8 -> bv8, r: bv32, a: seq<bv8>, b: seq<bv8>)
    requires Indexed(tab, index)
    requires |a| == |b| <= 4 && FoldWith(tab, r, a) == FoldWith(tab, r, b)
    ensures a == b
    decreases |a|
  {
    if a != [] {
      FirstBytesAgree(tab, index, r, a, b);
      FoldInjective(tab, index, StepWith(tab, r, a[0]), a[1..], b[1..]);
      assert a == [a[0]] + a[1..] && b == [b[0]] + b[1..];
    }
  }

  /**
   * CRC-32 over at most four bytes is injective: two such byte strings of one length that hash
   * alike from the same value are the same bytes.
   */
  lemma HashInjective32(a: seq<bv8>, b: seq<bv8>, init: bv32)
    requires |a| == |b| <= 4 && HashValue32(a, init) == HashValue32(b, init)
    ensures a == b
  {
    NotInvolutive();
    var x, y := Fold(Step32, Not32(init), a), Fold(Step32, Not32(init), b);
    assert Not32(Not32(x)) == Not32(Not32(y));
    FoldWithTable32(Not32(init), a);
    FoldWithTable32(Not32(init), b);
    Table32Indexed();
    FoldInjective(Table32, IndexAt, Not32(init), a, b);
  }

  /** Hashing the same bytes from two values reaches two values, unless the two are one. */
  lemma HashInitInjective32(bytes: seq<bv8>, x: bv32, y: bv32)
    requires HashValue32(bytes, x) == HashValue32(bytes, y)
    ensures x == y
  {
    HashReachesIff(bytes, x, HashValue32(bytes, x));
    HashReachesIff(bytes, y, HashValue32(bytes, y));
  }
}

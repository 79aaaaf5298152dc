// The older CRC-32 helper (src/MajiroLib/Script/Crc32.cs): the same table, keystream and hash
// as the 32-bit half of Crc, written again with its own table and key.

module LegacyCrc32 {
  import opened Wrappers
  import opened Crc

  /** CrcTable: Calculate of the seeds 0..255. */
  function CrcTable(): seq<bv32> {
    seq(256, i requires 0 <= i < 256 => Calc32(i))
  }

  /** CryptKey: the table's words, least significant byte first. */
  function CryptKey(): seq<bv8> {
    KeyBytes32(CrcTable())
  }

  /** Calculate: the eight-round loop of Crc.Calculate32, so the same function of the seed. */
  method Calculate(seed: int) returns (value: bv32)
    ensures value == Calc32(seed)
  {
    value := Int32Bits(seed);
    var i := 0;
    while i < 8
      invariant 0 <= i <= 8
      invariant value == Rounds32(Int32Bits(seed), i)
    {
      value := if value & 1 != 0 then (value >> 1) ^ Poly32 else value >> 1;
      i := i + 1;
    }
    EightRounds32(Int32Bits(seed));
  }

  /** The older table is Crc's Crc32Table, entry for entry. */
  lemma TableIsCrc32Table()
    ensures CrcTable() == Crc32Table()
  {
    forall i | 0 <= i < 256
      ensures CrcTable()[i] == Crc32Table()[i]
    {
      CalcIsTable(i);
    }
  }

  /** So the older key is CryptKey32: 1024 bytes, the same keystream. */
  lemma KeyIsCryptKey32()
    ensures |CryptKey()| == 1024 && CryptKey() == CryptKey32()
  {
    TableIsCrc32Table();
  }

  /** Crypt: xor with the key at the running offset, `& 0x3FF` being the remainder by 1024. */
  method Crypt(bytes: array<bv8>, keyOffset: int)
    modifies bytes
    ensures bytes[..] == Xored(old(bytes[..]), CryptKey(), keyOffset)
  {
    KeyIsCryptKey32();
    XorKeystream(bytes, CryptKey(), keyOffset);
  }

  /** Crypt is Crc.Crypt32, and so its own inverse. */
  lemma CryptIsCrypt32(s: seq<bv8>, keyOffset: int)
    ensures Xored(s, CryptKey(), keyOffset) == Crypted32(s, keyOffset)
    ensures Xored(Xored(s, CryptKey(), keyOffset), CryptKey(), keyOffset) == s
  {
    KeyIsCryptKey32();
    CryptTwice(s, keyOffset);
  }

  /**
   * Hash: the register starts at 0xFFFFFFFF and the result is complemented, which is Crc.Hash32
   * continued from the hash value 0.
   */
  method Hash(bytes: seq<bv8>) returns (hash: bv32)
    ensures hash == HashValue32(bytes, 0)
  {
    var result: bv32 := 0xFFFF_FFFF;
    var i := 0;
    while i < |bytes|
      invariant 0 <= i <= |bytes|
      invariant Fold(Step32, result, bytes[i..]) == Fold(Step32, 0xFFFF_FFFF, bytes)
    {
      assert bytes[i..][1..] == bytes[i + 1..];
      result := Step32(result, bytes[i]);
      i := i + 1;
    }
    assert bytes[i..] == [];
    assert Not32(0) == 0xFFFF_FFFF;
    hash := !result;
  }
}

// Result and option types shared by every module of the model.

module Wrappers {

  datatype Option<T> = None | Some(value: T)

  /** How an operation of the original program fails. */
  datatype Error =
    /** An exception the program throws (bad input, failed lookup, index out of range). */
    | Thrown(message: string)
    /** A `Debug.Assert` or `Debug.Fail` that does not hold (the model treats a debug build). */
    | AssertFailed(message: string)
    /** The disassembler met a 16-bit opcode value missing from the opcode table. */
    | UnknownOpcode(value: nat, offset: nat)
    /** A recursion or fixed-point loop that the model bounds ran out of its bound. */
    | OutOfFuel

  datatype Result<T> = Ok(value: T) | Err(error: Error)

  // The messages of the .NET exceptions the model raises in more than one place.
  const NullReference: string := "Object reference not set to an instance of an object."
  const EndOfStream: string := "Unable to read beyond the end of the stream."
  const NullableWithoutValue: string := "Nullable object must have a value."
  const UnrecognizedEncoding: string := "Unrecognized encoding specifier: "
  /** `KeyNotFoundException`: a lookup of a key the dictionary does not hold. */
  const KeyNotFound: string := "The given key was not present in the dictionary."
  /** `Dictionary.Add` (and `ToDictionary`) given a key it already holds. */
  const DuplicateKey: string := "An item with the same key has already been added."
  /** `First`, `Last` or `Single` over an empty sequence. */
  const NoElements: string := "Sequence contains no elements"
  /** A list index outside the list (`ArgumentOutOfRangeException`). */
  const IndexOutOfRange: string := "Index was out of range"

  /** No element occurs twice. */
  predicate Distinct<T(==)>(s: seq<T>) {
    forall i, j | 0 <= i < j < |s| :: s[i] != s[j]
  }

  /** Two lists without repetitions and without a common element join into one. */
  lemma DistinctJoin<T>(a: seq<T>, b: seq<T>)
    requires Distinct(a) && Distinct(b) && forall x | x in a :: x !in b
    ensures Distinct(a + b)
  {
    forall i, j | 0 <= i < j < |a| + |b| ensures (a + b)[i] != (a + b)[j] {
      if i < |a| && j >= |a| {
        assert a[i] in a && b[j - |a|] in b;
      }
    }
  }

  /** The low 32 bits of an integer: the bit pattern of a C# int seen as a uint. */
  function Int32Bits(x: int): bv32 {
    (x % 0x1_0000_0000) as bv32
  }

  /** The low 64 bits of an integer: a C# int sign-extended to a ulong. */
  function Int64Bits(x: int): bv64 {
    (x % 0x1_0000_0000_0000_0000) as bv64
  }

  // Conversions between bytes and integers, each proved on its own: in a larger context the
  // solver handles them poorly.

  lemma IntByteRoundTrip(i: int)
    requires 0 <= i < 256
    ensures (i as bv8) as int == i
  {
    var w := i as bv16;
    assert w < 256;
    assert w as bv8 == i as bv8;
  }

  /** A C# int modulo 2^32: itself when not negative, else 2^32 more. */
  lemma Int32Modulo(x: int)
    requires -0x8000_0000 <= x < 0x8000_0000
    ensures x >= 0 ==> x % 0x1_0000_0000 == x
    ensures x < 0 ==> x % 0x1_0000_0000 == x + 0x1_0000_0000
  {
  }

  lemma ByteIntRoundTrip(b: bv8)
    ensures 0 <= b as int < 256 && (b as int) as bv8 == b
  {
  }

  lemma ByteInt32Bits(i: int)
    requires 0 <= i < 256
    ensures Int32Bits(i) == (i as bv8) as bv32
  {
    assert i % 0x1_0000_0000 == i;
    assert (i as bv32) == (i as bv8) as bv32;
  }
}

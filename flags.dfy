// The 16-bit operand flag word of Majiro bytecode (src/MajiroLib/Script/Flags.cs):
// dimension, type, scope, invert mode and modifier packed into fixed bit ranges,
// and the one-hot type masks used to check stack operands.

module Flags {
  import opened Wrappers

  type MjoFlags = bv16
  /** A byte-sized enum; 0..5 are named, 255 is Unknown, any other byte is an unnamed value. */
  type MjoType = bv8
  type MjoTypeMask = bv8
  type MjoScope = bv8
  type MjoInvertMode = bv8
  type MjoModifier = bv8

  const DimMask: bv16 := 0x1800
  const TypeMask: bv16 := 0x0700
  const ScopeMask: bv16 := 0x00E0
  const InvertMask: bv16 := 0x0018
  const ModifierMask: bv16 := 0x0007

  const Int: MjoType := 0
  const Float: MjoType := 1
  const String: MjoType := 2
  const IntArray: MjoType := 3
  const FloatArray: MjoType := 4
  const StringArray: MjoType := 5
  const Unknown: MjoType := 255

  const MaskInt: MjoTypeMask := 1
  const MaskFloat: MjoTypeMask := 2
  const MaskString: MjoTypeMask := 4
  const MaskIntArray: MjoTypeMask := 8
  const MaskFloatArray: MjoTypeMask := 16
  const MaskStringArray: MjoTypeMask := 32
  const MaskNumeric: MjoTypeMask := 3
  const MaskPrimitive: MjoTypeMask := 7
  const MaskArray: MjoTypeMask := 0x38
  const MaskAll: MjoTypeMask := 0x3F
  const MaskNone: MjoTypeMask := 0

  const Persistent: MjoScope := 0
  const SaveFile: MjoScope := 1
  const Thread: MjoScope := 2
  const Local: MjoScope := 3

  const InvertNone: MjoInvertMode := 0
  const InvertNumeric: MjoInvertMode := 1
  const InvertBoolean: MjoInvertMode := 2
  const InvertBitwise: MjoInvertMode := 3

  const ModifierNone: MjoModifier := 0
  const PreIncrement: MjoModifier := 1
  const PreDecrement: MjoModifier := 2
  const PostIncrement: MjoModifier := 3
  const PostDecrement: MjoModifier := 4

  /** The five fields occupy disjoint bit ranges, and bits 13-15 belong to none of them. */
  lemma MaskLayout()
    ensures DimMask & TypeMask == 0 && DimMask & ScopeMask == 0 && DimMask & InvertMask == 0
    ensures TypeMask & ScopeMask == 0 && TypeMask & InvertMask == 0 && ScopeMask & InvertMask == 0
    ensures ModifierMask & (DimMask | TypeMask | ScopeMask | InvertMask) == 0
    ensures DimMask | TypeMask | ScopeMask | InvertMask | ModifierMask == 0x1FFF
  {
  }

  function Dimension(flags: MjoFlags): (d: int)
    ensures 0 <= d <= 3
    ensures d == (if flags & 0x1000 != 0 then 2 else 0) + (if flags & 0x0800 != 0 then 1 else 0)
  {
    ((flags & DimMask) >> 11) as int
  }

  function Type(flags: MjoFlags): (t: MjoType)
    ensures t <= 7
    ensures t == ((flags >> 8) & 7) as bv8
  {
    (((flags & TypeMask) >> 8) as bv8)
  }

  function Scope(flags: MjoFlags): (s: MjoScope)
    ensures s <= 7
    ensures s == ((flags >> 5) & 7) as bv8
  {
    (((flags & ScopeMask) >> 5) as bv8)
  }

  function InvertMode(flags: MjoFlags): (m: MjoInvertMode)
    ensures m <= 3
    ensures m == ((flags >> 3) & 3) as bv8
  {
    (((flags & InvertMask) >> 3) as bv8)
  }

  function Modifier(flags: MjoFlags): (m: MjoModifier)
    ensures m <= 7
    ensures m == (flags & 7) as bv8
  {
    ((flags & ModifierMask) as bv8)
  }

  /** Each extractor reads exactly its own field: two flag words agree on it iff they agree on its mask. */
  lemma ExtractorsReadOnlyTheirField(f: MjoFlags, g: MjoFlags)
    ensures Dimension(f) == Dimension(g) <==> f & DimMask == g & DimMask
    ensures Type(f) == Type(g) <==> f & TypeMask == g & TypeMask
    ensures Scope(f) == Scope(g) <==> f & ScopeMask == g & ScopeMask
    ensures InvertMode(f) == InvertMode(g) <==> f & InvertMask == g & InvertMask
    ensures Modifier(f) == Modifier(g) <==> f & ModifierMask == g & ModifierMask
  {
  }

  /**
   * The one-hot mask of a type. C# shifts an int by the low five bits of the count and
   * truncates the result to a byte, so a type byte t gives 1 << (t % 32) when that is below 256
   * and 0 otherwise; Unknown gives All.
   */
  function ToMask(t: MjoType): (m: MjoTypeMask)
    ensures t == Unknown ==> m == MaskAll
    ensures t != Unknown && t % 32 < 8 ==> m == (1 as bv8) << (t % 32)
    ensures t != Unknown && t % 32 >= 8 ==> m == 0
  {
    if t == Unknown then MaskAll
    else ((((1 as bv32) << ((t as bv32) & 31)) & 0xFF) as bv8)
  }

  lemma {:induction false} KnownTypeMasks()
    ensures ToMask(Int) == MaskInt && ToMask(Float) == MaskFloat && ToMask(String) == MaskString
    ensures ToMask(IntArray) == MaskIntArray && ToMask(FloatArray) == MaskFloatArray
    ensures ToMask(StringArray) == MaskStringArray
    ensures MaskNumeric == MaskInt | MaskFloat && MaskPrimitive == MaskNumeric | MaskString
    ensures MaskArray == MaskIntArray | MaskFloatArray | MaskStringArray
    ensures MaskAll == MaskPrimitive | MaskArray
  {
  }

  /** Whether a stack value of type t may stand where mask is expected. */
  function Matches(t: MjoType, mask: MjoTypeMask): (r: bool)
    ensures t == Unknown ==> r
    ensures t < 8 ==> (r <==> (mask >> t) & 1 == 1)
    ensures t != Unknown && mask == MaskNone ==> !r
  {
    t == Unknown || ToMask(t) & mask != 0
  }

  /** The array type of a primitive type; the addition wraps around in a byte. */
  function Array(t: MjoType): (r: Result<MjoType>)
    ensures r.Ok? <==> Matches(t, MaskPrimitive)
    ensures t <= String ==> r == Ok(t + 3)
    ensures IntArray <= t <= StringArray ==> r.Err?
    ensures t == Unknown ==> r == Ok(String)
  {
    if Matches(t, MaskPrimitive) then Ok(t + 3)
    else Err(Thrown("Can't create array type"))
  }

  /** The element type of an array type; the subtraction wraps around in a byte. */
  function ElementType(t: MjoType): (r: Result<MjoType>)
    ensures r.Ok? <==> Matches(t, MaskArray)
    ensures IntArray <= t <= StringArray ==> r == Ok(t - 3)
    ensures t <= String ==> r.Err?
  {
    if Matches(t, MaskArray) then Ok(t - 3)
    else Err(Thrown("Can't resolve element type"))
  }

  lemma ElementTypeUndoesArray(t: MjoType)
    requires t <= String
    ensures Array(t).Ok? && ElementType(Array(t).value) == Ok(t)
  {
  }

  /** Unknown passes the primitive check, so its "array type" wraps around to String. */
  lemma ArrayOfUnknownIsString()
    ensures Array(Unknown) == Ok(String)
    ensures ElementType(Unknown) == Ok(252)
  {
  }

  /** The packing itself, on the 32-bit pattern of the dimension. */
  function Pack(t: MjoType, scope: MjoScope, modifier: MjoModifier, invertMode: MjoInvertMode, dim: bv32): MjoFlags {
    var w := (dim << 11) | ((t as bv32) << 8) | ((scope as bv32) << 5)
      | ((invertMode as bv32) << 3) | (modifier as bv32);
    (w & 0xFFFF) as bv16
  }

  lemma PackFields(t: MjoType, scope: MjoScope, modifier: MjoModifier, invertMode: MjoInvertMode, dim: bv32)
    requires t <= 7 && scope <= 7 && invertMode <= 3 && modifier <= 7 && dim <= 3
    ensures var f := Pack(t, scope, modifier, invertMode, dim);
      Type(f) == t && Scope(f) == scope && InvertMode(f) == invertMode && Modifier(f) == modifier
      && (f & DimMask) >> 11 == dim as bv16 && f & 0xE000 == 0
  {
  }

  lemma SmallBits(b: bv32)
    requires b <= 3
    ensures (b as bv16) as int == b as int
  {
  }

  lemma SmallInt32Bits(d: int)
    requires 0 <= d <= 3
    ensures Int32Bits(d) <= 3 && ((Int32Bits(d) as bv16) as int) == d
  {
    assert d % 0x1_0000_0000 == d;
    SmallBits(d as bv32);
  }

  /**
   * Packs the five fields. The source shifts and ors in 32-bit ints without masking and
   * truncates to 16 bits, so an out-of-range field spills into its neighbour.
   */
  function Build(t: MjoType, scope: MjoScope, modifier: MjoModifier, invertMode: MjoInvertMode, dimension: int): (f: MjoFlags)
    ensures t <= 7 && scope <= 7 && invertMode <= 3 && modifier <= 7 && 0 <= dimension <= 3 ==>
      Type(f) == t && Scope(f) == scope && InvertMode(f) == invertMode && Modifier(f) == modifier
      && Dimension(f) == dimension && f & 0xE000 == 0
  {
    var f := Pack(t, scope, modifier, invertMode, Int32Bits(dimension));
    if t <= 7 && scope <= 7 && invertMode <= 3 && modifier <= 7 && 0 <= dimension <= 3 then
      SmallInt32Bits(dimension);
      PackFields(t, scope, modifier, invertMode, Int32Bits(dimension));
      f
    else f
  }

  lemma PackOfFields(f: MjoFlags)
    requires f & 0xE000 == 0
    ensures Pack(Type(f), Scope(f), Modifier(f), InvertMode(f), ((f & DimMask) >> 11) as bv32) == f
  {
  }

  /** Extracting every field and packing them again gives back any flag word whose bits 13-15 are clear. */
  lemma ExtractThenBuild(f: MjoFlags)
    requires f & 0xE000 == 0
    ensures Build(Type(f), Scope(f), Modifier(f), InvertMode(f), Dimension(f)) == f
  {
    var d := Dimension(f);
    var bits := (f & DimMask) >> 11;
    assert bits <= 3;
    if bits == 0 { assert d == 0; assert Int32Bits(d) == 0; }
    else if bits == 1 { assert d == 1; assert Int32Bits(d) == 1; }
    else if bits == 2 { assert d == 2; assert Int32Bits(d) == 2; }
    else { assert d == 3; assert Int32Bits(d) == 3; }
    assert Int32Bits(d) == bits as bv32;
    PackOfFields(f);
  }
}

// The older copy of the flag layout (MajiroLib/Script/Flags.cs): the same masks and the same
// five extractors, and a type enum with six members and no Unknown.
module LegacyFlags {
  import Flags

  /** The six named members of the older type enum; Type() can still yield the unnamed 6 and 7. */
  const TypeMembers: seq<bv8> := [0, 1, 2, 3, 4, 5]

  const DimMask: bv16 := 0x1800
  const TypeMask: bv16 := 0x0700
  const ScopeMask: bv16 := 0x00E0
  const InvertMask: bv16 := 0x0018
  const ModifierMask: bv16 := 0x0007

  function Dimension(flags: bv16): (d: int)
    ensures 0 <= d <= 3
    ensures d == Flags.Dimension(flags)
  {
    ((flags & DimMask) >> 11) as int
  }

  function Type(flags: bv16): (t: bv8)
    ensures t <= 7
    ensures t == Flags.Type(flags)
    ensures t in TypeMembers <==> t < 6
  {
    (((flags & TypeMask) >> 8) as bv8)
  }

  function Scope(flags: bv16): (s: bv8)
    ensures s <= 7
    ensures s == Flags.Scope(flags)
  {
    (((flags & ScopeMask) >> 5) as bv8)
  }

  function InvertMode(flags: bv16): (m: bv8)
    ensures m <= 3
    ensures m == Flags.InvertMode(flags)
  {
    (((flags & InvertMask) >> 3) as bv8)
  }

  function Modifier(flags: bv16): (m: bv8)
    ensures m <= 7
    ensures m == Flags.Modifier(flags)
  {
    ((flags & ModifierMask) as bv8)
  }

  lemma SameLayout()
    ensures DimMask == Flags.DimMask && TypeMask == Flags.TypeMask && ScopeMask == Flags.ScopeMask
    ensures InvertMask == Flags.InvertMask && ModifierMask == Flags.ModifierMask
    ensures |TypeMembers| == 6 && Flags.Unknown !in TypeMembers
  {
  }
}

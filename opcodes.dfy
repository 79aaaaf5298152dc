// The opcode table of Majiro bytecode (src/MajiroLib/Script/Opcode.cs): one record per
// opcode with its 16-bit value, mnemonic, operand encoding letters and stack-transition
// descriptor. The operator families are generated variant by variant from a base value and
// a type mask; the remaining opcodes are literal rows. The value index `ByValue` is the
// table put into a dictionary, which fails on a duplicate value.

module Opcodes {
  import opened Wrappers
  import opened Flags

  /** A C# ushort. */
  type UInt16 = x: int | 0 <= x < 0x1_0000

  datatype Opcode = Opcode(
    value: UInt16,
    mnemonic: string,
    /** The source-level operator; null in C# for every opcode that is not an operator. */
    operator: Option<string>,
    /** One letter per operand, in the order the operands follow the opcode value. */
    encoding: string,
    /** The pop/push descriptor interpreted by the stack simulator. */
    transition: string,
    aliases: seq<string>)

  predicate IsJump(op: Opcode) {
    op.encoding == "j"
  }

  /** `DefineOpcode`: the value is converted to 16 bits with `checked`, which throws when it does not fit. */
  function DefineOpcode(value: int, mnemonic: string, operator: Option<string>, encoding: string,
                        transition: string, aliases: seq<string>): (r: Result<Opcode>)
    ensures r.Ok? <==> 0 <= value < 0x1_0000
    ensures r.Ok? ==> r.value.value == value && r.value.mnemonic == mnemonic && r.value.operator == operator
    ensures r.Ok? ==> r.value.encoding == encoding && r.value.transition == transition && r.value.aliases == aliases
  {
    if 0 <= value < 0x1_0000 then Ok(Opcode(value, mnemonic, operator, encoding, transition, aliases))
    else Err(Thrown("Arithmetic operation resulted in an overflow."))
  }

  // ---------------------------------------------------------------------------------------
  // Operator families

  /** The three generators of Opcode.cs; each lays its variants out at base + type index. */
  datatype Family =
    | BinaryOperator(isComparison: bool)
    | AssignmentOperator(pop: bool)
    | ArrayAssignmentOperator(pop: bool)

  /** The type indices a family looks at: all six types, or only the three primitives for array assignment. */
  function VariantCount(f: Family): nat {
    if f.ArrayAssignmentOperator? then 3 else 6
  }

  /** `Enum.HasFlag`: every bit of flag is set in mask. */
  predicate HasFlag(mask: MjoTypeMask, flag: MjoTypeMask) {
    mask & flag == flag
  }

  /**
   * Which of the six types, by index Int, Float, String, IntArray, FloatArray, StringArray,
   * the allowed mask has.
   */
  function Presence(allowed: MjoTypeMask): (r: seq<bool>)
    ensures |r| == 6
  {
    [ HasFlag(allowed, MaskInt), HasFlag(allowed, MaskFloat), HasFlag(allowed, MaskString),
      HasFlag(allowed, MaskIntArray), HasFlag(allowed, MaskFloatArray), HasFlag(allowed, MaskStringArray) ]
  }

  function Suffix(k: nat): string
    requires k < 6
  {
    [".i", ".r", ".s", ".iarr", ".rarr", ".sarr"][k]
  }

  function Encoding(f: Family): string {
    if f.BinaryOperator? then "" else "fho"
  }

  /** The descriptors written out per type index, as the generators list them. */
  function Transition(f: Family, k: nat): string
    requires k < VariantCount(f)
  {
    match f
    case BinaryOperator(isComparison) =>
      if isComparison then ["ii.b", "nn.b", "ss.b", "II.b", "FF.b", "SS.b"][k]
      else ["ii.i", "nn.f", "ss.s", "-", "-", "-"][k]
    case AssignmentOperator(pop) =>
      if pop then ["i.", "n.", "s.", "I.", "F.", "S."][k]
      else ["i.i", "n.f", "s.s", "I.I", "F.F", "S.S"][k]
    case ArrayAssignmentOperator(pop) =>
      if pop then ["i[i#d].", "n[i#d].", "s[i#d]."][k]
      else ["i[i#d].i", "n[i#d].f", "s[i#d].s"][k]
  }

  /** The Int variant of an Int-only family keeps the bare mnemonic; every other variant gets its suffix. */
  function VariantMnemonic(mnemonic: string, allowed: MjoTypeMask, k: nat): string
    requires k < 6
  {
    if k == 0 && allowed == MaskInt then mnemonic else mnemonic + Suffix(k)
  }

  /** `aliases.Select(a => a + suffix)`. */
  function Suffixed(aliases: seq<string>, suffix: string): (r: seq<string>)
    ensures |r| == |aliases|
    ensures forall i | 0 <= i < |r| :: r[i] == aliases[i] + suffix
  {
    if aliases == [] then [] else [aliases[0] + suffix] + Suffixed(aliases[1..], suffix)
  }

  /** `aliases.SelectMany(a => new[] { a, a + ".i" })`, or with each pair swapped when bareFirst is false. */
  function Paired(aliases: seq<string>, bareFirst: bool): (r: seq<string>)
    ensures |r| == 2 * |aliases|
  {
    if aliases == [] then []
    else (if bareFirst then [aliases[0], aliases[0] + ".i"] else [aliases[0] + ".i", aliases[0]])
         + Paired(aliases[1..], bareFirst)
  }

  /** The aliases of variant k; array assignments take none. */
  function VariantAliases(f: Family, mnemonic: string, allowed: MjoTypeMask, aliases: seq<string>, k: nat): seq<string>
    requires k < 6
  {
    if f.ArrayAssignmentOperator? then []
    else if k == 0 then
      (if allowed == MaskInt then [mnemonic + ".i"] + Paired(aliases, true)
       else [mnemonic] + Paired(aliases, false))
    else Suffixed(aliases, Suffix(k))
  }

  /** One call of a family generator in `Init`. */
  datatype FamilyRow = FamilyRow(family: Family, base: UInt16, mnemonic: string, operator: string,
                                 allowed: MjoTypeMask, aliases: seq<string>)

  /** The opcode a family defines for type index k. */
  function Variant(row: FamilyRow, k: nat): Result<Opcode>
    requires k < VariantCount(row.family)
  {
    DefineOpcode(row.base + k, VariantMnemonic(row.mnemonic, row.allowed, k), Some(row.operator),
                 Encoding(row.family), Transition(row.family, k),
                 VariantAliases(row.family, row.mnemonic, row.allowed, row.aliases, k))
  }

  /** Whether the generator defines a variant for type index k. */
  predicate Present(row: FamilyRow, k: nat) {
    k < VariantCount(row.family) && Presence(row.allowed)[k]
  }

  /**
   * What a generator adds to the list: the successful attempt at every present position from k
   * on, in position order. The first present attempt that fails is the error, as the generator
   * throws at its first failing `DefineOpcode` call.
   */
  function Collect<T>(attempts: seq<Result<T>>, present: seq<bool>, k: nat): Result<seq<T>>
    requires |present| == |attempts|
    decreases |attempts| - k
  {
    if k >= |attempts| then Ok([])
    else
      var rest := Collect(attempts, present, k + 1);
      if !present[k] then rest
      else if attempts[k].Err? then Err(attempts[k].error)
      else if rest.Err? then rest
      else Ok([attempts[k].value] + rest.value)
  }

  /** The positions from k on whose flag is set, in increasing order. */
  function Positions(present: seq<bool>, k: nat): seq<nat>
    decreases |present| - k
  {
    if k >= |present| then []
    else (if present[k] then [k] else []) + Positions(present, k + 1)
  }

  /** Collecting fails exactly when some present attempt failed. */
  lemma {:induction false} CollectFailIff<T>(attempts: seq<Result<T>>, present: seq<bool>, k: nat)
    requires |present| == |attempts|
    ensures Collect(attempts, present, k).Ok? <==> forall j | k <= j < |attempts| && present[j] :: attempts[j].Ok?
    decreases |attempts| - k
  {
    if k < |attempts| {
      CollectFailIff(attempts, present, k + 1);
    }
  }

  lemma {:induction false} PositionsBounded(present: seq<bool>, k: nat)
    ensures forall i | 0 <= i < |Positions(present, k)| ::
      k <= Positions(present, k)[i] < |present| && present[Positions(present, k)[i]]
    decreases |present| - k
  {
    if k < |present| {
      PositionsBounded(present, k + 1);
      var idx, rest := Positions(present, k), Positions(present, k + 1);
      var n := if present[k] then 1 else 0;
      assert idx == (if present[k] then [k] else []) + rest;
      forall i | n <= i < |idx|
        ensures idx[i] == rest[i - n]
      {
      }
    }
  }

  predicate IncreasingIndices(s: seq<nat>) {
    forall i, j | 0 <= i < j < |s| :: s[i] < s[j]
  }

  lemma PrependSmaller(x: nat, s: seq<nat>)
    requires IncreasingIndices(s) && forall i | 0 <= i < |s| :: x < s[i]
    ensures IncreasingIndices([x] + s)
  {
    var t := [x] + s;
    forall i, j | 0 <= i < j < |t|
      ensures t[i] < t[j]
    {
      assert t[j] == s[j - 1];
      if i > 0 { assert t[i] == s[i - 1]; }
    }
  }

  lemma {:induction false} PositionsIncrease(present: seq<bool>, k: nat)
    ensures IncreasingIndices(Positions(present, k))
    decreases |present| - k
  {
    if k < |present| {
      PositionsIncrease(present, k + 1);
      PositionsBounded(present, k + 1);
      var rest := Positions(present, k + 1);
      if present[k] {
        PrependSmaller(k, rest);
      } else {
        assert Positions(present, k) == rest;
      }
    }
  }

  lemma {:induction false} PositionsComplete(present: seq<bool>, k: nat)
    ensures forall j | k <= j < |present| && present[j] :: j in Positions(present, k)
    decreases |present| - k
  {
    if k < |present| {
      PositionsComplete(present, k + 1);
    }
  }

  /** The i-th collected value is the attempt at the i-th present position. */
  lemma {:induction false} CollectFollowsPositions<T>(attempts: seq<Result<T>>, present: seq<bool>, k: nat)
    requires |present| == |attempts|
    ensures Collect(attempts, present, k).Ok? ==> |Collect(attempts, present, k).value| == |Positions(present, k)|
    ensures Collect(attempts, present, k).Ok? ==> forall i | 0 <= i < |Positions(present, k)| ::
      Positions(present, k)[i] < |attempts| &&
      attempts[Positions(present, k)[i]] == Ok(Collect(attempts, present, k).value[i])
    decreases |attempts| - k
  {
    if k < |attempts| {
      CollectFollowsPositions(attempts, present, k + 1);
      PositionsBounded(present, k);
      var r := Collect(attempts, present, k);
      var idx := Positions(present, k);
      var rest := Positions(present, k + 1);
      var tail := Collect(attempts, present, k + 1);
      if present[k] && r.Ok? {
        assert idx == [k] + rest;
        assert r.value == [attempts[k].value] + tail.value;
        forall i | 0 <= i < |idx|
          ensures attempts[idx[i]] == Ok(r.value[i])
        {
          if i > 0 { assert idx[i] == rest[i - 1] && r.value[i] == tail.value[i - 1]; }
        }
      }
    }
  }

  /** The generator's attempt for every type index, whether or not the type is allowed. */
  function Attempts(row: FamilyRow): seq<Result<Opcode>> {
    seq(VariantCount(row.family), k requires 0 <= k < VariantCount(row.family) => Variant(row, k))
  }

  /** Which type indices the generator defines, as flags. */
  function AllowedFlags(row: FamilyRow): seq<bool> {
    Presence(row.allowed)[..VariantCount(row.family)]
  }

  /** `DefineBinaryOperator`, `DefineAssignmentOperator` or `DefineArrayAssignmentOperator` for one row. */
  function Variants(row: FamilyRow): Result<seq<Opcode>> {
    Collect(Attempts(row), AllowedFlags(row), 0)
  }

  /** The type indices the generator defines a variant for, in increasing order. */
  function PresentIndices(row: FamilyRow): seq<nat> {
    Positions(AllowedFlags(row), 0)
  }

  /** Every value lies in [lo, hi). */
  predicate Within(ops: seq<Opcode>, lo: int, hi: int) {
    forall i | 0 <= i < |ops| :: lo <= ops[i].value < hi
  }

  predicate Increasing(ops: seq<Opcode>) {
    forall i, j | 0 <= i < j < |ops| :: ops[i].value < ops[j].value
  }

  predicate Distinct(ops: seq<Opcode>) {
    forall i, j | 0 <= i < j < |ops| :: ops[i].value != ops[j].value
  }

  /** A generator throws exactly when one of the variants it defines has a value beyond 16 bits. */
  lemma VariantsFailIff(row: FamilyRow)
    ensures Variants(row).Ok? <==> forall j | Present(row, j) :: row.base + j < 0x1_0000
  {
    CollectFailIff(Attempts(row), AllowedFlags(row), 0);
    forall j | 0 <= j < VariantCount(row.family)
      ensures AllowedFlags(row)[j] == Present(row, j)
      ensures Attempts(row)[j].Ok? <==> row.base + j < 0x1_0000
    {
      assert Attempts(row)[j] == Variant(row, j);
    }
  }

  /** The generator's i-th opcode is the variant of the i-th present type index. */
  lemma VariantsFollowIndices(row: FamilyRow)
    ensures Variants(row).Ok? ==> |Variants(row).value| == |PresentIndices(row)|
    ensures Variants(row).Ok? ==> forall i | 0 <= i < |PresentIndices(row)| ::
      PresentIndices(row)[i] < VariantCount(row.family) &&
      Variant(row, PresentIndices(row)[i]) == Ok(Variants(row).value[i])
  {
    CollectFollowsPositions(Attempts(row), AllowedFlags(row), 0);
    if Variants(row).Ok? {
      forall i | 0 <= i < |PresentIndices(row)|
        ensures Variant(row, PresentIndices(row)[i]) == Ok(Variants(row).value[i])
      {
        assert Attempts(row)[PresentIndices(row)[i]] == Variant(row, PresentIndices(row)[i]);
      }
    }
  }

  /** The i-th opcode a generator defines has value base plus the i-th present type index. */
  lemma VariantValues(row: FamilyRow)
    ensures Variants(row).Ok? ==> |Variants(row).value| == |PresentIndices(row)|
    ensures Variants(row).Ok? ==> forall i | 0 <= i < |PresentIndices(row)| ::
      Variants(row).value[i].value == row.base + PresentIndices(row)[i]
  {
    VariantsFollowIndices(row);
    var r := Variants(row);
    var idx := PresentIndices(row);
    if r.Ok? {
      forall i | 0 <= i < |idx|
        ensures r.value[i].value == row.base + idx[i]
      {
        assert Variant(row, idx[i]) == Ok(r.value[i]);
      }
    }
  }

  /** A generator's values increase and stay within base .. base + VariantCount. */
  lemma VariantsIncreaseWithin(row: FamilyRow)
    ensures Variants(row).Ok? ==> Increasing(Variants(row).value)
    ensures Variants(row).Ok? ==> Within(Variants(row).value, row.base, row.base + VariantCount(row.family))
  {
    VariantValues(row);
    PositionsIncrease(AllowedFlags(row), 0);
    PositionsBounded(AllowedFlags(row), 0);
  }

  /** Every opcode a generator defines is the variant of an allowed type index, at base plus that index. */
  lemma VariantsSound(row: FamilyRow)
    ensures Variants(row).Ok? ==> forall i | 0 <= i < |Variants(row).value| ::
      row.base <= Variants(row).value[i].value &&
      Present(row, Variants(row).value[i].value - row.base) &&
      Variant(row, Variants(row).value[i].value - row.base) == Ok(Variants(row).value[i])
  {
    var r := Variants(row);
    if r.Ok? {
      forall i | 0 <= i < |r.value|
        ensures row.base <= r.value[i].value && Present(row, r.value[i].value - row.base)
        ensures Variant(row, r.value[i].value - row.base) == Ok(r.value[i])
      {
        var k := VariantIndex(row, i);
        VariantAt(row, k, r.value[i]);
      }
    }
  }

  /** The type index of the i-th opcode a generator defines. */
  lemma {:induction false} VariantIndex(row: FamilyRow, i: nat) returns (k: nat)
    requires Variants(row).Ok? && i < |Variants(row).value|
    ensures k < |AllowedFlags(row)| && AllowedFlags(row)[k] && k < VariantCount(row.family)
    ensures Variants(row).value[i].value == row.base + k && Variant(row, k) == Ok(Variants(row).value[i])
  {
    VariantValues(row);
    VariantsFollowIndices(row);
    PositionsBounded(AllowedFlags(row), 0);
    k := PresentIndices(row)[i];
  }

  lemma {:induction false} VariantAt(row: FamilyRow, k: nat, op: Opcode)
    requires k < |AllowedFlags(row)| && AllowedFlags(row)[k]
    requires op.value == row.base + k && k < VariantCount(row.family) && Variant(row, k) == Ok(op)
    ensures row.base <= op.value && Present(row, op.value - row.base) && Variant(row, op.value - row.base) == Ok(op)
  {
    assert op.value - row.base == k;
  }

  /** Every allowed type index has its variant among the opcodes the generator defines. */
  lemma VariantsComplete(row: FamilyRow)
    ensures Variants(row).Ok? ==> forall j | Present(row, j) ::
      Variant(row, j).Ok? && Variant(row, j).value in Variants(row).value
  {
    VariantsFollowIndices(row);
    PositionsComplete(AllowedFlags(row), 0);
    var r := Variants(row);
    var idx := PresentIndices(row);
    if r.Ok? {
      forall j: nat | Present(row, j)
        ensures Variant(row, j).Ok? && Variant(row, j).value in r.value
      {
        assert AllowedFlags(row)[j];
        var i :| 0 <= i < |idx| && idx[i] == j;
        assert Variant(row, idx[i]) == Ok(r.value[i]);
      }
    }
  }

  /** Comparisons pop two operands of their type and push a boolean; arithmetic on arrays has no descriptor. */
  lemma BinaryTransitions(k: nat)
    requires k < 6
    ensures Transition(BinaryOperator(true), k)[2..] == ".b"
    ensures Transition(BinaryOperator(true), k)[0] == Transition(BinaryOperator(true), k)[1]
    ensures k < 3 ==> Transition(BinaryOperator(false), k)[..3] == Transition(BinaryOperator(true), k)[..2] + "."
    ensures k < 3 <==> Transition(BinaryOperator(false), k) != "-"
  {
  }

  /** A pop variant's descriptor ends at '.', and the other one pushes back the stored type. */
  lemma AssignmentTransitions(k: nat)
    requires k < 6
    ensures |Transition(AssignmentOperator(true), k)| == 2 && Transition(AssignmentOperator(true), k)[1] == '.'
    ensures Transition(AssignmentOperator(false), k)[..2] == Transition(AssignmentOperator(true), k)
    ensures |Transition(AssignmentOperator(false), k)| == 3
    ensures Encoding(AssignmentOperator(true)) == Encoding(AssignmentOperator(false)) == "fho"
  {
  }

  /** An array assignment pops the value, then the integer indices: one per array dimension. */
  lemma ArrayAssignmentTransitions(k: nat)
    requires k < 3
    ensures Transition(ArrayAssignmentOperator(true), k)[1..] == "[i#d]."
    ensures Transition(ArrayAssignmentOperator(true), k)[..1] == Transition(AssignmentOperator(true), k)[..1]
    ensures Transition(ArrayAssignmentOperator(false), k) ==
            Transition(ArrayAssignmentOperator(true), k) + Transition(AssignmentOperator(false), k)[2..]
  {
  }

  /** Each alias, with and without ".i", and nothing else, is among the paired names. */
  lemma {:induction false} PairedNames(aliases: seq<string>, bareFirst: bool)
    ensures forall x :: x in Paired(aliases, bareFirst) <==> x in aliases || x in Suffixed(aliases, ".i")
  {
    if aliases != [] {
      var a, rest := aliases[0], aliases[1..];
      PairedNames(rest, bareFirst);
      var pair := if bareFirst then [a, a + ".i"] else [a + ".i", a];
      assert Paired(aliases, bareFirst) == pair + Paired(rest, bareFirst);
      assert aliases == [a] + rest;
      assert Suffixed(aliases, ".i") == [a + ".i"] + Suffixed(rest, ".i");
    }
  }

  /**
   * Whether or not the family is Int-only, its Int variant answers to the same names: the bare
   * mnemonic, the mnemonic with ".i", and each alias with and without ".i". Only which one is
   * the primary mnemonic changes.
   */
  lemma IntVariantNames(row: FamilyRow, x: string)
    requires !row.family.ArrayAssignmentOperator?
    ensures x == VariantMnemonic(row.mnemonic, row.allowed, 0) ||
            x in VariantAliases(row.family, row.mnemonic, row.allowed, row.aliases, 0)
        <==> x == row.mnemonic || x == row.mnemonic + ".i" || x in row.aliases || x in Suffixed(row.aliases, ".i")
  {
    PairedNames(row.aliases, row.allowed == MaskInt);
  }

  // ---------------------------------------------------------------------------------------
  // The table

  function Expand(rows: seq<FamilyRow>): Result<seq<Opcode>> {
    if rows == [] then Ok([])
    else
      var head := Variants(rows[0]);
      var tail := Expand(rows[1..]);
      if head.Err? then head else if tail.Err? then tail else Ok(head.value + tail.value)
  }

  /** Consecutive families are at least eight values apart, and the last fits with room for six variants. */
  predicate Spaced(rows: seq<FamilyRow>) {
    && (forall i | 0 <= i < |rows| - 1 :: rows[i].base + 8 <= rows[i + 1].base)
    && (|rows| > 0 ==> rows[|rows| - 1].base + 8 <= 0x1_0000)
  }

  lemma AppendIncreasing(a: seq<Opcode>, b: seq<Opcode>, lo: int, mid: int, hi: int)
    requires lo <= mid <= hi
    requires Increasing(a) && Within(a, lo, mid) && Increasing(b) && Within(b, mid, hi)
    ensures Increasing(a + b) && Within(a + b, lo, hi)
  {
    var c := a + b;
    forall i, j | 0 <= i < j < |c|
      ensures c[i].value < c[j].value
    {
      if j < |a| {
      } else if i >= |a| {
        assert c[i] == b[i - |a|] && c[j] == b[j - |a|];
      } else {
        assert c[j] == b[j - |a|];
      }
    }
    forall i | 0 <= i < |c|
      ensures lo <= c[i].value < hi
    {
      if i >= |a| { assert c[i] == b[i - |a|]; }
    }
  }

  /** No value of a is a value of b. */
  predicate Apart(a: seq<Opcode>, b: seq<Opcode>) {
    forall i, j | 0 <= i < |a| && 0 <= j < |b| :: a[i].value != b[j].value
  }

  lemma ApartByRange(a: seq<Opcode>, b: seq<Opcode>, lo: int, mid: int, hi: int)
    requires (Within(a, lo, mid) && Within(b, mid, hi)) || (Within(b, lo, mid) && Within(a, mid, hi))
    ensures Apart(a, b)
  {
  }

  lemma ApartLeftAppend(a1: seq<Opcode>, a2: seq<Opcode>, b: seq<Opcode>)
    requires Apart(a1, b) && Apart(a2, b)
    ensures Apart(a1 + a2, b)
  {
    forall i, j | 0 <= i < |a1 + a2| && 0 <= j < |b|
      ensures (a1 + a2)[i].value != b[j].value
    {
      if i >= |a1| { assert (a1 + a2)[i] == a2[i - |a1|]; }
    }
  }

  lemma AppendDistinct(a: seq<Opcode>, b: seq<Opcode>)
    requires Distinct(a) && Distinct(b) && Apart(a, b)
    ensures Distinct(a + b)
  {
    var c := a + b;
    forall i, j | 0 <= i < j < |c|
      ensures c[i].value != c[j].value
    {
      if j < |a| {
      } else if i >= |a| {
        assert c[i] == b[i - |a|] && c[j] == b[j - |a|];
      } else {
        assert c[j] == b[j - |a|];
      }
    }
  }

  lemma WithinAppend(a: seq<Opcode>, b: seq<Opcode>, lo: int, hi: int)
    requires Within(a, lo, hi) && Within(b, lo, hi)
    ensures Within(a + b, lo, hi)
  {
    forall i | 0 <= i < |a + b|
      ensures lo <= (a + b)[i].value < hi
    {
      if i >= |a| { assert (a + b)[i] == b[i - |a|]; }
    }
  }

  lemma IncreasingIsDistinct(ops: seq<Opcode>)
    requires Increasing(ops)
    ensures Distinct(ops)
  {
  }

  /** Each value is below the next one. */
  predicate Ascending(ops: seq<Opcode>) {
    forall i | 0 <= i < |ops| - 1 :: ops[i].value < ops[i + 1].value
  }

  lemma {:induction false} AscendingIsIncreasing(ops: seq<Opcode>)
    requires Ascending(ops)
    ensures Increasing(ops) && Distinct(ops)
    decreases |ops|
  {
    if |ops| > 1 {
      var tail := ops[1..];
      assert Ascending(tail) by {
        forall i | 0 <= i < |tail| - 1
          ensures tail[i].value < tail[i + 1].value
        {
          assert tail[i] == ops[i + 1] && tail[i + 1] == ops[i + 2];
        }
      }
      AscendingIsIncreasing(tail);
      forall i, j | 0 <= i < j < |ops|
        ensures ops[i].value < ops[j].value
      {
        if i > 0 {
          assert ops[i] == tail[i - 1] && ops[j] == tail[j - 1];
        } else if j > 1 {
          assert ops[1] == tail[0] && ops[j] == tail[j - 1];
        }
      }
    }
  }

  /** The first family of well-spaced rows expands without error into increasing values below the next base. */
  lemma HeadLaidOut(rows: seq<FamilyRow>)
    requires Spaced(rows) && |rows| > 0
    ensures Variants(rows[0]).Ok?
    ensures Increasing(Variants(rows[0]).value)
    ensures Within(Variants(rows[0]).value, rows[0].base, rows[0].base + 8)
  {
    var row := rows[0];
    VariantsFailIff(row);
    VariantsIncreaseWithin(row);
    assert row.base + 8 <= 0x1_0000 by {
      if |rows| > 1 { assert rows[0].base + 8 <= rows[1].base; }
    }
  }

  lemma TailSpaced(rows: seq<FamilyRow>)
    requires Spaced(rows) && |rows| > 1
    ensures Spaced(rows[1..]) && rows[0].base + 8 <= rows[1].base
  {
    var tailRows := rows[1..];
    forall i | 0 <= i < |tailRows| - 1
      ensures tailRows[i].base + 8 <= tailRows[i + 1].base
    {
      assert tailRows[i] == rows[i + 1] && tailRows[i + 1] == rows[i + 2];
    }
  }

  /** Well-spaced family rows expand without error into increasing values inside their base range. */
  lemma {:induction false} ExpandLaidOut(rows: seq<FamilyRow>)
    requires Spaced(rows) && |rows| > 0
    ensures Expand(rows).Ok?
    ensures Increasing(Expand(rows).value)
    ensures Within(Expand(rows).value, rows[0].base, rows[|rows| - 1].base + 8)
    ensures rows[0].base <= rows[|rows| - 1].base
  {
    HeadLaidOut(rows);
    var head := Variants(rows[0]).value;
    if |rows| == 1 {
      assert Expand(rows[1..]) == Ok([]);
      assert Expand(rows) == Ok(head + []);
      assert head + [] == head;
    } else {
      var tailRows := rows[1..];
      TailSpaced(rows);
      ExpandLaidOut(tailRows);
      assert tailRows[0] == rows[1] && tailRows[|tailRows| - 1] == rows[|rows| - 1];
      assert Expand(rows) == Ok(head + Expand(tailRows).value);
      AppendIncreasing(head, Expand(tailRows).value, rows[0].base, rows[1].base, rows[|rows| - 1].base + 8);
    }
  }

  /** One `DefineBinaryOperator(baseValue, mnemonic, op, allowedTypes, isComparison, aliases)` call. */
  function BinaryOperatorRow(base: UInt16, mnemonic: string, operator: string, allowed: MjoTypeMask,
                             isComparison: bool, aliases: seq<string>): FamilyRow {
    FamilyRow(BinaryOperator(isComparison), base, mnemonic, operator, allowed, aliases)
  }

  /** One `DefineAssignmentOperator(baseValue, mnemonic, op, allowedTypes, pop)` call. */
  function AssignmentOperatorRow(base: UInt16, mnemonic: string, operator: string, allowed: MjoTypeMask,
                                 pop: bool): FamilyRow {
    FamilyRow(AssignmentOperator(pop), base, mnemonic, operator, allowed, [])
  }

  /** One `DefineArrayAssignmentOperator(baseValue, mnemonic, op, allowedTypes, pop)` call. */
  function ArrayAssignmentOperatorRow(base: UInt16, mnemonic: string, operator: string, allowed: MjoTypeMask,
                                      pop: bool): FamilyRow {
    FamilyRow(ArrayAssignmentOperator(pop), base, mnemonic, operator, allowed, [])
  }

  /** One `DefineOpcode` call of the table whose value is already known to fit in 16 bits. */
  function Op(value: UInt16, mnemonic: string, operator: Option<string>, encoding: string, transition: string,
              aliases: seq<string>): Opcode {
    Opcode(value, mnemonic, operator, encoding, transition, aliases)
  }

  function BinaryRows(): seq<FamilyRow> {
    [ BinaryOperatorRow(0x100, "mul", "*", MaskNumeric, false, []),
      BinaryOperatorRow(0x108, "div", "/", MaskNumeric, false, []),
      BinaryOperatorRow(0x110, "rem", "%", MaskInt, false, ["mod"]),
      BinaryOperatorRow(0x118, "add", "+", MaskPrimitive, false, []),
      BinaryOperatorRow(0x120, "sub", "-", MaskPrimitive, false, []),
      BinaryOperatorRow(0x128, "shr", ">>", MaskInt, false, []),
      BinaryOperatorRow(0x130, "shl", "<<", MaskInt, false, []),
      BinaryOperatorRow(0x138, "cle", "<=", MaskPrimitive, true, []),
      BinaryOperatorRow(0x140, "clt", "<", MaskPrimitive, true, []),
      BinaryOperatorRow(0x148, "cge", ">=", MaskPrimitive, true, []),
      BinaryOperatorRow(0x150, "cgt", ">", MaskPrimitive, true, []),
      BinaryOperatorRow(0x158, "ceq", "==", MaskAll, true, []),
      BinaryOperatorRow(0x160, "cne", "!=", MaskAll, true, []),
      BinaryOperatorRow(0x168, "xor", "^", MaskInt, false, []),
      BinaryOperatorRow(0x170, "andl", "&&", MaskInt, false, []),
      BinaryOperatorRow(0x178, "orl", "||", MaskInt, false, []),
      BinaryOperatorRow(0x180, "and", "&", MaskInt, false, []),
      BinaryOperatorRow(0x188, "or", "|", MaskInt, false, []) ]
  }

  function UnaryOperators(): seq<Opcode> {
    [ Op(0x190, "notl",    Some("!"), "", "i.i", []),
      Op(0x198, "not",     Some("~"), "", "i.i", []),
      Op(0x1a0, "neg.i",   Some("-"), "", "i.i", []),
      Op(0x1a1, "neg.r",   Some("-"), "", "f.f", []),
      Op(0x191, "nop.191", None,      "", "",    []),
      Op(0x1a8, "nop.1a8", None,      "", "",    []),
      Op(0x1a9, "nop.1a9", None,      "", "",    []) ]
  }

  function AssignmentRows(): seq<FamilyRow> {
    [ AssignmentOperatorRow(0x1b0, "st", "=", MaskAll, false),
      AssignmentOperatorRow(0x1b8, "st.mul", "*=", MaskNumeric, false),
      AssignmentOperatorRow(0x1c0, "st.div", "/=", MaskNumeric, false),
      AssignmentOperatorRow(0x1c8, "st.mod", "%=", MaskInt, false),
      AssignmentOperatorRow(0x1d0, "st.add", "+=", MaskPrimitive, false),
      AssignmentOperatorRow(0x1d8, "st.sub", "-=", MaskNumeric, false),
      AssignmentOperatorRow(0x1e0, "st.shl", "<<=", MaskInt, false),
      AssignmentOperatorRow(0x1e8, "st.shr", ">>=", MaskInt, false),
      AssignmentOperatorRow(0x1f0, "st.and", "&=", MaskInt, false),
      AssignmentOperatorRow(0x1f8, "st.xor", "^=", MaskInt, false),
      AssignmentOperatorRow(0x200, "st.or", "|=", MaskInt, false),
      AssignmentOperatorRow(0x210, "stp", "=", MaskAll, true),
      AssignmentOperatorRow(0x218, "stp.mul", "*=", MaskNumeric, true),
      AssignmentOperatorRow(0x220, "stp.div", "/=", MaskNumeric, true),
      AssignmentOperatorRow(0x228, "stp.mod", "%=", MaskInt, true),
      AssignmentOperatorRow(0x230, "stp.add", "+=", MaskPrimitive, true),
      AssignmentOperatorRow(0x238, "stp.sub", "-=", MaskNumeric, true),
      AssignmentOperatorRow(0x240, "stp.shl", "<<=", MaskInt, true),
      AssignmentOperatorRow(0x248, "stp.shr", ">>=", MaskInt, true),
      AssignmentOperatorRow(0x250, "stp.and", "&=", MaskInt, true),
      AssignmentOperatorRow(0x258, "stp.xor", "^=", MaskInt, true),
      AssignmentOperatorRow(0x260, "stp.or", "|=", MaskInt, true) ]
  }

  function ArrayAssignmentRows(): seq<FamilyRow> {
    [ ArrayAssignmentOperatorRow(0x270, "stelem", "=", MaskAll, false),
      ArrayAssignmentOperatorRow(0x278, "stelem.mul", "*=", MaskNumeric, false),
      ArrayAssignmentOperatorRow(0x280, "stelem.div", "/=", MaskNumeric, false),
      ArrayAssignmentOperatorRow(0x288, "stelem.mod", "%=", MaskInt, false),
      ArrayAssignmentOperatorRow(0x290, "stelem.add", "+=", MaskPrimitive, false),
      ArrayAssignmentOperatorRow(0x298, "stelem.sub", "-=", MaskNumeric, false),
      ArrayAssignmentOperatorRow(0x2a0, "stelem.shl", "<<=", MaskInt, false),
      ArrayAssignmentOperatorRow(0x2a8, "stelem.shr", ">>=", MaskInt, false),
      ArrayAssignmentOperatorRow(0x2b0, "stelem.and", "&=", MaskInt, false),
      ArrayAssignmentOperatorRow(0x2b8, "stelem.xor", "^=", MaskInt, false),
      ArrayAssignmentOperatorRow(0x2c0, "stelem.or", "|=", MaskInt, false),
      ArrayAssignmentOperatorRow(0x2d0, "stelemp", "=", MaskAll, true),
      ArrayAssignmentOperatorRow(0x2d8, "stelemp.mul", "*=", MaskNumeric, true),
      ArrayAssignmentOperatorRow(0x2e0, "stelemp.div", "/=", MaskNumeric, true),
      ArrayAssignmentOperatorRow(0x2e8, "stelemp.mod", "%=", MaskInt, true),
      ArrayAssignmentOperatorRow(0x2f0, "stelemp.add", "+=", MaskPrimitive, true),
      ArrayAssignmentOperatorRow(0x2f8, "stelemp.sub", "-=", MaskNumeric, true),
      ArrayAssignmentOperatorRow(0x300, "stelemp.shl", "<<=", MaskInt, true),
      ArrayAssignmentOperatorRow(0x308, "stelemp.shr", ">>=", MaskInt, true),
      ArrayAssignmentOperatorRow(0x310, "stelemp.and", "&=", MaskInt, true),
      ArrayAssignmentOperatorRow(0x318, "stelemp.xor", "^=", MaskInt, true),
      ArrayAssignmentOperatorRow(0x320, "stelemp.or", "|=", MaskInt, true) ]
  }

  /** The 0x800 range up to the fixed-target branches and `pop`, in ascending value order. */
  function LoadsAndBranches(): seq<Opcode> {
    [ Op(0x800, "ldc.i",   None, "i",   ".i",      []),
      Op(0x801, "ldstr",   None, "s",   ".s",      ["ld.s"]),
      Op(0x802, "ld",      None, "fho", ".#t",     ["ldvar"]),
      Op(0x803, "ldc.r",   None, "r",   ".f",      []),
      Op(0x80f, "call",    None, "h0a", "[*#a].*", []),
      Op(0x810, "callp",   None, "h0a", "[*#a].",  []),
      Op(0x829, "alloca",  None, "t",   ".[#t]",   []),
      Op(0x82b, "return",  None, "",    "[*].",    []),
      Op(0x82c, "br",      None, "j",   ".",       ["jmp"]),
      Op(0x82d, "brtrue",  None, "j",   "p.",      ["jnz", "jne"]),
      Op(0x82e, "brfalse", None, "j",   "p.",      ["brnull", "brzero", "jz", "je"]),
      Op(0x82f, "pop",     None, "",    "*.",      []),
      Op(0x830, "jmp.v",   None, "j",   "p.1",     []),
      Op(0x831, "jne.v",   None, "j",   "p.1",     []),
      Op(0x832, "jgt.v",   None, "j",   "p.1",     []),
      Op(0x833, "jge.v",   None, "j",   "p.1",     []) ]
  }

  /** The two value-comparing branches the source defines out of value order. */
  function LateBranches(): seq<Opcode> {
    [ Op(0x838, "jle.v", None, "j", "p.1", []),
      Op(0x839, "jlt.v", None, "j", "p.1", []) ]
  }

  function SystemCalls(): seq<Opcode> {
    [ Op(0x834, "syscall",  None, "ha", "[*#a].*",   []),
      Op(0x835, "syscallp", None, "ha", "[*#a].",    []),
      Op(0x836, "argcheck", None, "t",  ".",         []),
      Op(0x837, "ldelem",   None, "ha", "[i#d].~#t", []) ]
  }

  /** The rest of the 0x800 range, ascending; several of these have no known behaviour ("???"). */
  function LinesTextAndSwitch(): seq<Opcode> {
    [ Op(0x83a, "line",   None, "l", ".",   []),
      Op(0x83b, "op.83b", None, "j", "???", []),
      Op(0x83c, "op.83c", None, "j", "???", []),
      Op(0x83d, "op.83d", None, "j", "???", []),
      Op(0x83e, "conv.i", None, "",  "f.i", []),
      Op(0x83f, "conv.r", None, "",  "i.f", []),
      Op(0x840, "text",   None, "s", ".",   []),
      Op(0x841, "op.841", None, "",  "???", []),
      Op(0x842, "op.842", None, "s", "???", []),
      Op(0x843, "op.843", None, "j", ".",   []),
      Op(0x844, "op.844", None, "",  ".",   []),
      Op(0x845, "op.845", None, "j", ".",   []),
      Op(0x846, "op.846", None, "",  ".",   []),
      Op(0x847, "op.847", None, "j", ".",   []),
      Op(0x850, "switch", None, "c", "i.",  []) ]
  }

  /** The 0x800 range in the order the source defines it. */
  function HighOpcodes(): seq<Opcode> {
    LoadsAndBranches() + LateBranches() + SystemCalls() + LinesTextAndSwitch()
  }

  /** `Init`: the rows in the order the source defines them. */
  function Init(): Result<seq<Opcode>> {
    var binary := Expand(BinaryRows());
    var assignment := Expand(AssignmentRows());
    var arrayAssignment := Expand(ArrayAssignmentRows());
    if binary.Err? then binary
    else if assignment.Err? then assignment
    else if arrayAssignment.Err? then arrayAssignment
    else Ok(binary.value + UnaryOperators() + assignment.value + arrayAssignment.value + HighOpcodes())
  }

  /** `List.ToDictionary(op => op.Value)`: adds in order and throws on a value already present. */
  function ToDictionary(ops: seq<Opcode>): Result<map<UInt16, Opcode>>
  {
    if ops == [] then Ok(map[])
    else
      var d := ToDictionary(ops[..|ops| - 1]);
      var op := ops[|ops| - 1];
      if d.Err? then d
      else if op.value in d.value then Err(Thrown("An item with the same key has already been added."))
      else Ok(d.value[op.value := op])
  }

  /** The values a list defines. */
  function ValueSet(ops: seq<Opcode>): set<UInt16> {
    set i | 0 <= i < |ops| :: ops[i].value
  }

  lemma ValueSetSnoc(ops: seq<Opcode>)
    requires ops != []
    ensures ValueSet(ops) == ValueSet(ops[..|ops| - 1]) + {ops[|ops| - 1].value}
  {
    var front := ops[..|ops| - 1];
    forall v | v in ValueSet(ops)
      ensures v in ValueSet(front) + {ops[|ops| - 1].value}
    {
      var i :| 0 <= i < |ops| && ops[i].value == v;
      if i < |front| { assert front[i] == ops[i]; }
    }
    forall v | v in ValueSet(front)
      ensures v in ValueSet(ops)
    {
      var i :| 0 <= i < |front| && front[i].value == v;
      assert ops[i] == front[i];
    }
  }

  lemma DistinctSnoc(ops: seq<Opcode>)
    requires ops != []
    ensures Distinct(ops) <==> Distinct(ops[..|ops| - 1]) && ops[|ops| - 1].value !in ValueSet(ops[..|ops| - 1])
  {
    var front := ops[..|ops| - 1];
    if Distinct(ops) {
      forall i, j | 0 <= i < j < |front|
        ensures front[i].value != front[j].value
      {
        assert front[i] == ops[i] && front[j] == ops[j];
      }
      forall i | 0 <= i < |front|
        ensures front[i].value != ops[|ops| - 1].value
      {
        assert front[i] == ops[i];
      }
    }
    if Distinct(front) && ops[|ops| - 1].value !in ValueSet(front) {
      forall i, j | 0 <= i < j < |ops|
        ensures ops[i].value != ops[j].value
      {
        assert ops[i] == front[i];
        if j < |front| { assert ops[j] == front[j]; }
      }
    }
  }

  /** A dictionary built without error has exactly the listed values as keys. */
  lemma {:induction false} ToDictionaryKeys(ops: seq<Opcode>)
    ensures ToDictionary(ops).Ok? ==> ToDictionary(ops).value.Keys == ValueSet(ops)
  {
    if ops != [] {
      ToDictionaryKeys(ops[..|ops| - 1]);
      ValueSetSnoc(ops);
    }
  }

  /** The dictionary is built without error exactly when no value is listed twice. */
  lemma {:induction false} ToDictionaryOkIff(ops: seq<Opcode>)
    ensures ToDictionary(ops).Ok? <==> Distinct(ops)
  {
    if ops != [] {
      ToDictionaryOkIff(ops[..|ops| - 1]);
      ToDictionaryKeys(ops[..|ops| - 1]);
      DistinctSnoc(ops);
    }
  }

  /** A dictionary built without error maps each listed value to the opcode listed with it. */
  lemma {:induction false} ToDictionaryLookup(ops: seq<Opcode>)
    ensures ToDictionary(ops).Ok? ==> forall i | 0 <= i < |ops| ::
      ops[i].value in ToDictionary(ops).value && ToDictionary(ops).value[ops[i].value] == ops[i]
  {
    if ops != [] {
      var front := ops[..|ops| - 1];
      ToDictionaryLookup(front);
      if ToDictionary(ops).Ok? {
        forall i | 0 <= i < |front|
          ensures ops[i] == front[i]
        {
        }
      }
    }
  }

  /** The binary-operator families sit eight values apart from 0x100 up to 0x190. */
  lemma BinaryRowsSpaced()
    ensures Spaced(BinaryRows()) && BinaryRows()[0].base == 0x100 && BinaryRows()[17].base + 8 == 0x190
  {
    var rows := BinaryRows();
    forall i | 0 <= i < |rows| - 1
      ensures rows[i].base + 8 <= rows[i + 1].base
    {
      if i < 8 {
        if i < 4 {
          if i < 2 { } else { }
        } else {
          if i < 6 { } else { }
        }
      } else {
        if i < 12 {
          if i < 10 { } else { }
        } else {
          if i < 14 { } else { }
        }
      }
    }
  }

  /** The assignment families sit at least eight values apart from 0x1b0 up to 0x268. */
  lemma AssignmentRowsSpaced()
    ensures Spaced(AssignmentRows()) && AssignmentRows()[0].base == 0x1b0 && AssignmentRows()[21].base + 8 == 0x268
  {
    var rows := AssignmentRows();
    forall i | 0 <= i < |rows| - 1
      ensures rows[i].base + 8 <= rows[i + 1].base
    {
      if i < 10 {
        if i < 5 {
          if i < 2 { } else { }
        } else {
          if i < 7 { } else { }
        }
      } else {
        if i < 15 {
          if i < 12 { } else { }
        } else {
          if i < 18 { } else { }
        }
      }
    }
  }

  /** The array-assignment families sit at least eight values apart from 0x270 up to 0x328. */
  lemma ArrayAssignmentRowsSpaced()
    ensures Spaced(ArrayAssignmentRows()) && ArrayAssignmentRows()[0].base == 0x270 && ArrayAssignmentRows()[21].base + 8 == 0x328
  {
    var rows := ArrayAssignmentRows();
    forall i | 0 <= i < |rows| - 1
      ensures rows[i].base + 8 <= rows[i + 1].base
    {
      if i < 10 {
        if i < 5 {
          if i < 2 { } else { }
        } else {
          if i < 7 { } else { }
        }
      } else {
        if i < 15 {
          if i < 12 { } else { }
        } else {
          if i < 18 { } else { }
        }
      }
    }
  }

  /** The binary operators expand without error into increasing values in [0x100, 0x190). */
  lemma BinaryLaidOut()
    ensures Expand(BinaryRows()).Ok?
    ensures Increasing(Expand(BinaryRows()).value) && Within(Expand(BinaryRows()).value, 0x100, 0x190)
  {
    BinaryRowsSpaced();
    ExpandLaidOut(BinaryRows());
  }

  /** The assignment operators expand without error into increasing values in [0x1b0, 0x268). */
  lemma AssignmentLaidOut()
    ensures Expand(AssignmentRows()).Ok?
    ensures Increasing(Expand(AssignmentRows()).value) && Within(Expand(AssignmentRows()).value, 0x1b0, 0x268)
  {
    AssignmentRowsSpaced();
    ExpandLaidOut(AssignmentRows());
  }

  /** The array-assignment operators expand without error into increasing values in [0x270, 0x328). */
  lemma ArrayAssignmentLaidOut()
    ensures Expand(ArrayAssignmentRows()).Ok?
    ensures Increasing(Expand(ArrayAssignmentRows()).value) && Within(Expand(ArrayAssignmentRows()).value, 0x270, 0x328)
  {
    ArrayAssignmentRowsSpaced();
    ExpandLaidOut(ArrayAssignmentRows());
  }

  /** The unary operators and nops are seven different values in [0x190, 0x1b0). */
  lemma UnaryDistinct()
    ensures Distinct(UnaryOperators()) && Within(UnaryOperators(), 0x190, 0x1b0)
  {
  }

  /** Loads, calls and the fixed-target branches ascend inside [0x800, 0x834). */
  lemma LoadsAndBranchesAscend()
    ensures Increasing(LoadsAndBranches()) && Distinct(LoadsAndBranches()) && Within(LoadsAndBranches(), 0x800, 0x834)
  {
    var ops := LoadsAndBranches();
    assert Ascending(ops) by {
      forall i | 0 <= i < |ops| - 1
        ensures ops[i].value < ops[i + 1].value
      {
        if i < 7 {
          if i < 3 {
            if i < 1 { } else { }
          } else {
            if i < 5 { } else { }
          }
        } else {
          if i < 11 {
            if i < 9 { } else { }
          } else {
            if i < 13 { } else { }
          }
        }
      }
    }
    forall i | 0 <= i < |ops|
      ensures 0x800 <= ops[i].value < 0x834
    {
      if i < 8 {
        if i < 4 {
          if i < 2 { } else { }
        } else {
          if i < 6 { } else { }
        }
      } else {
        if i < 12 {
          if i < 10 { } else { }
        } else {
          if i < 14 { } else { }
        }
      }
    }
    AscendingIsIncreasing(ops);
  }

  /** `jle.v` and `jlt.v` ascend inside [0x838, 0x83a). */
  lemma LateBranchesAscend()
    ensures Increasing(LateBranches()) && Distinct(LateBranches()) && Within(LateBranches(), 0x838, 0x83a)
  {
    var ops := LateBranches();
    assert Ascending(ops) by {
      forall i | 0 <= i < |ops| - 1
        ensures ops[i].value < ops[i + 1].value
      { }
    }
    forall i | 0 <= i < |ops|
      ensures 0x838 <= ops[i].value < 0x83a
    { }
    AscendingIsIncreasing(ops);
  }

  /** The system calls ascend inside [0x834, 0x838). */
  lemma SystemCallsAscend()
    ensures Increasing(SystemCalls()) && Distinct(SystemCalls()) && Within(SystemCalls(), 0x834, 0x838)
  {
    var ops := SystemCalls();
    assert Ascending(ops) by {
      forall i | 0 <= i < |ops| - 1
        ensures ops[i].value < ops[i + 1].value
      { }
    }
    forall i | 0 <= i < |ops|
      ensures 0x834 <= ops[i].value < 0x838
    {
      if i < 2 { } else { }
    }
    AscendingIsIncreasing(ops);
  }

  /** The rest of the 0x800 range ascends inside [0x83a, 0x851). */
  lemma LinesTextAndSwitchAscend()
    ensures Increasing(LinesTextAndSwitch()) && Distinct(LinesTextAndSwitch()) && Within(LinesTextAndSwitch(), 0x83a, 0x851)
  {
    var ops := LinesTextAndSwitch();
    assert Ascending(ops) by {
      forall i | 0 <= i < |ops| - 1
        ensures ops[i].value < ops[i + 1].value
      {
        if i < 7 {
          if i < 3 {
            if i < 1 { } else { }
          } else {
            if i < 5 { } else { }
          }
        } else {
          if i < 10 {
            if i < 8 { } else { }
          } else {
            if i < 12 { } else { }
          }
        }
      }
    }
    forall i | 0 <= i < |ops|
      ensures 0x83a <= ops[i].value < 0x851
    {
      if i < 7 {
        if i < 3 {
          if i < 1 { } else { }
        } else {
          if i < 5 { } else { }
        }
      } else {
        if i < 11 {
          if i < 9 { } else { }
        } else {
          if i < 13 { } else { }
        }
      }
    }
    AscendingIsIncreasing(ops);
  }

  lemma WithinWiden(a: seq<Opcode>, lo: int, hi: int, lo': int, hi': int)
    requires Within(a, lo, hi) && lo' <= lo && hi <= hi'
    ensures Within(a, lo', hi')
  {
  }

  /** Four pieces that ascend inside the ranges the 0x800 block uses are together duplicate-free. */
  lemma HighPiecesDistinct(p1: seq<Opcode>, p2: seq<Opcode>, p3: seq<Opcode>, p4: seq<Opcode>)
    requires Distinct(p1) && Within(p1, 0x800, 0x834)
    requires Distinct(p2) && Within(p2, 0x838, 0x83a)
    requires Distinct(p3) && Within(p3, 0x834, 0x838)
    requires Distinct(p4) && Within(p4, 0x83a, 0x851)
    ensures Distinct(p1 + p2 + p3 + p4) && Within(p1 + p2 + p3 + p4, 0x800, 0x851)
  {
    WithinWiden(p2, 0x838, 0x83a, 0x834, 0x83a);
    ApartByRange(p1, p2, 0x800, 0x834, 0x83a);
    AppendDistinct(p1, p2);
    WithinWiden(p3, 0x834, 0x838, 0x800, 0x838);
    WithinWiden(p2, 0x838, 0x83a, 0x800, 0x83a);
    ApartByRange(p1, p3, 0x800, 0x834, 0x838);
    ApartByRange(p2, p3, 0x834, 0x838, 0x83a);
    ApartLeftAppend(p1, p2, p3);
    AppendDistinct(p1 + p2, p3);
    WithinWiden(p1, 0x800, 0x834, 0x800, 0x83a);
    WithinAppend(p1, p2, 0x800, 0x83a);
    WithinAppend(p1 + p2, p3, 0x800, 0x83a);
    ApartByRange(p1 + p2 + p3, p4, 0x800, 0x83a, 0x851);
    AppendDistinct(p1 + p2 + p3, p4);
    WithinWiden(p1 + p2 + p3, 0x800, 0x83a, 0x800, 0x851);
    WithinWiden(p4, 0x83a, 0x851, 0x800, 0x851);
    WithinAppend(p1 + p2 + p3, p4, 0x800, 0x851);
  }

  /** The 0x800 range defines no value twice, although its pieces are not in value order. */
  lemma HighDistinct()
    ensures Distinct(HighOpcodes()) && Within(HighOpcodes(), 0x800, 0x851)
  {
    LoadsAndBranchesAscend();
    LateBranchesAscend();
    SystemCallsAscend();
    LinesTextAndSwitchAscend();
    HighPiecesDistinct(LoadsAndBranches(), LateBranches(), SystemCalls(), LinesTextAndSwitch());
  }

  /** Five pieces in the disjoint ranges of the table are together duplicate-free. */
  lemma TablePiecesDistinct(b: seq<Opcode>, u: seq<Opcode>, a: seq<Opcode>, e: seq<Opcode>, h: seq<Opcode>)
    requires Distinct(b) && Within(b, 0x100, 0x190)
    requires Distinct(u) && Within(u, 0x190, 0x1b0)
    requires Distinct(a) && Within(a, 0x1b0, 0x268)
    requires Distinct(e) && Within(e, 0x270, 0x328)
    requires Distinct(h) && Within(h, 0x800, 0x851)
    ensures Distinct(b + u + a + e + h)
  {
    ApartByRange(b, u, 0x100, 0x190, 0x1b0);
    AppendDistinct(b, u);
    WithinWiden(b, 0x100, 0x190, 0x100, 0x1b0);
    WithinWiden(u, 0x190, 0x1b0, 0x100, 0x1b0);
    WithinAppend(b, u, 0x100, 0x1b0);
    ApartByRange(b + u, a, 0x100, 0x1b0, 0x268);
    AppendDistinct(b + u, a);
    WithinWiden(b + u, 0x100, 0x1b0, 0x100, 0x268);
    WithinWiden(a, 0x1b0, 0x268, 0x100, 0x268);
    WithinAppend(b + u, a, 0x100, 0x268);
    WithinWiden(e, 0x270, 0x328, 0x268, 0x328);
    ApartByRange(b + u + a, e, 0x100, 0x268, 0x328);
    AppendDistinct(b + u + a, e);
    WithinWiden(b + u + a, 0x100, 0x268, 0x100, 0x328);
    WithinWiden(e, 0x270, 0x328, 0x100, 0x328);
    WithinAppend(b + u + a, e, 0x100, 0x328);
    WithinWiden(h, 0x800, 0x851, 0x328, 0x851);
    ApartByRange(b + u + a + e, h, 0x100, 0x328, 0x851);
    AppendDistinct(b + u + a + e, h);
  }

  /** `Init` succeeds and defines no value twice, so `ByValue` can be built. */
  lemma InitIsDistinct()
    ensures Init().Ok? && Distinct(Init().value)
  {
    BinaryLaidOut();
    AssignmentLaidOut();
    ArrayAssignmentLaidOut();
    IncreasingIsDistinct(Expand(BinaryRows()).value);
    IncreasingIsDistinct(Expand(AssignmentRows()).value);
    IncreasingIsDistinct(Expand(ArrayAssignmentRows()).value);
    UnaryDistinct();
    HighDistinct();
    TablePiecesDistinct(Expand(BinaryRows()).value, UnaryOperators(), Expand(AssignmentRows()).value,
                        Expand(ArrayAssignmentRows()).value, HighOpcodes());
  }

  /** `Opcode.List`. */
  function List(): (r: seq<Opcode>)
    ensures Distinct(r)
  {
    InitIsDistinct();
    Init().value
  }

  /** `Opcode.ByValue`: every listed opcode under its own value, and no other key. */
  function ByValue(): (r: map<UInt16, Opcode>)
    ensures r.Keys == ValueSet(List())
    ensures forall i | 0 <= i < |List()| :: List()[i].value in r && r[List()[i].value] == List()[i]
  {
    ToDictionaryOkIff(List());
    ToDictionaryKeys(List());
    ToDictionaryLookup(List());
    ToDictionary(List()).value
  }

  /** The 0x800 block is part of the list. */
  lemma HighListed(op: Opcode)
    requires op in HighOpcodes()
    ensures op in List()
  {
    InitIsDistinct();
    assert List() == Expand(BinaryRows()).value + UnaryOperators() + Expand(AssignmentRows()).value
                     + Expand(ArrayAssignmentRows()).value + HighOpcodes();
  }

  /** `ByValue` finds every listed opcode under its own value. */
  lemma ListedByValue(op: Opcode)
    requires op in List()
    ensures op.value in ByValue() && ByValue()[op.value] == op
  {
    var i :| 0 <= i < |List()| && List()[i] == op;
  }

  /** `ByValue` finds every opcode of the 0x800 block under its own value. */
  lemma HighByValue(op: Opcode)
    requires op in HighOpcodes()
    ensures op.value in ByValue() && ByValue()[op.value] == op
  {
    HighListed(op);
    ListedByValue(op);
  }

  /** What `ByValue` gives for the value of opcode i of the 0x800 block: its name and encoding. */
  lemma {:induction false} HighAt(i: nat, v: UInt16, mnemonic: string, encoding: string)
    requires i < |HighOpcodes()| && HighOpcodes()[i].value == v
    requires HighOpcodes()[i].mnemonic == mnemonic && HighOpcodes()[i].encoding == encoding
    ensures v in ByValue() && ByValue()[v].mnemonic == mnemonic && ByValue()[v].encoding == encoding
  {
    HighByValue(HighOpcodes()[i]);
  }

  /** `switch` has encoding "c", so it is not a jump. */
  lemma {:induction false} SwitchIsNotJump()
    ensures 0x850 in ByValue() && ByValue()[0x850].mnemonic == "switch" && !IsJump(ByValue()[0x850])
  {
    HighAt(36, 0x850, "switch", "c");
  }

  /** `brtrue` has the jump encoding. */
  lemma {:induction false} BrTrueIsJump()
    ensures 0x82d in ByValue() && ByValue()[0x82d].mnemonic == "brtrue" && IsJump(ByValue()[0x82d])
  {
    HighAt(9, 0x82d, "brtrue", "j");
  }

  /** `brfalse` has the jump encoding. */
  lemma {:induction false} BrFalseIsJump()
    ensures 0x82e in ByValue() && ByValue()[0x82e].mnemonic == "brfalse" && IsJump(ByValue()[0x82e])
  {
    HighAt(10, 0x82e, "brfalse", "j");
  }

  /** The values of the opcodes whose stack behaviour is unknown. */
  predicate IsPlaceholderValue(v: int) {
    v == 0x83b || v == 0x83c || v == 0x83d || v == 0x841 || v == 0x842
  }

  /** An opcode carries the placeholder descriptor "???" exactly when its value is a placeholder value. */
  predicate PlaceholdersExactly(ops: seq<Opcode>) {
    forall i | 0 <= i < |ops| :: ops[i].transition == "???" <==> IsPlaceholderValue(ops[i].value)
  }

  predicate NoPlaceholder(ops: seq<Opcode>) {
    forall i | 0 <= i < |ops| :: ops[i].transition != "???"
  }

  lemma PlaceholdersExactlyAppend(a: seq<Opcode>, b: seq<Opcode>)
    requires PlaceholdersExactly(a) && PlaceholdersExactly(b)
    ensures PlaceholdersExactly(a + b)
  {
    forall i | |a| <= i < |a + b|
      ensures (a + b)[i] == b[i - |a|]
    {
    }
  }

  lemma NoPlaceholderAppend(a: seq<Opcode>, b: seq<Opcode>)
    requires NoPlaceholder(a) && NoPlaceholder(b)
    ensures NoPlaceholder(a + b)
  {
    forall i | |a| <= i < |a + b|
      ensures (a + b)[i] == b[i - |a|]
    {
    }
  }

  /** No family descriptor is the placeholder. */
  lemma TransitionIsKnown(f: Family, k: nat)
    requires k < VariantCount(f)
    ensures Transition(f, k) != "???"
  {
    assert Transition(f, k)[0] != '?';
  }

  lemma VariantsHaveNoPlaceholder(row: FamilyRow)
    ensures Variants(row).Ok? ==> NoPlaceholder(Variants(row).value)
  {
    VariantsSound(row);
    var r := Variants(row);
    if r.Ok? {
      forall i | 0 <= i < |r.value|
        ensures r.value[i].transition != "???"
      {
        var k := r.value[i].value - row.base;
        assert Variant(row, k) == Ok(r.value[i]);
        TransitionIsKnown(row.family, k);
      }
    }
  }

  lemma {:induction false} ExpandHasNoPlaceholder(rows: seq<FamilyRow>)
    ensures Expand(rows).Ok? ==> NoPlaceholder(Expand(rows).value)
  {
    if rows != [] && Expand(rows).Ok? {
      VariantsHaveNoPlaceholder(rows[0]);
      ExpandHasNoPlaceholder(rows[1..]);
      NoPlaceholderAppend(Variants(rows[0]).value, Expand(rows[1..]).value);
    }
  }

  lemma UnaryHasNoPlaceholder()
    ensures NoPlaceholder(UnaryOperators())
  {
  }

  lemma LoadsAndBranchesPlaceholders()
    ensures PlaceholdersExactly(LoadsAndBranches())
  {
    var ops := LoadsAndBranches();
    forall i | 0 <= i < |ops|
      ensures ops[i].transition == "???" <==> IsPlaceholderValue(ops[i].value)
    {
      if i < 8 {
        if i < 4 {
          if i < 2 { } else { }
        } else {
          if i < 6 { } else { }
        }
      } else {
        if i < 12 {
          if i < 10 { } else { }
        } else {
          if i < 14 { } else { }
        }
      }
    }
  }

  lemma LinesTextAndSwitchPlaceholders()
    ensures PlaceholdersExactly(LinesTextAndSwitch())
  {
    var ops := LinesTextAndSwitch();
    forall i | 0 <= i < |ops|
      ensures ops[i].transition == "???" <==> IsPlaceholderValue(ops[i].value)
    {
      if i < 7 {
        if i < 3 {
          if i < 1 { } else { }
        } else {
          if i < 5 { } else { }
        }
      } else {
        if i < 11 {
          if i < 9 { } else { }
        } else {
          if i < 13 { } else { }
        }
      }
    }
  }

  lemma HighPlaceholders()
    ensures PlaceholdersExactly(HighOpcodes())
  {
    var p1, p2, p3, p4 := LoadsAndBranches(), LateBranches(), SystemCalls(), LinesTextAndSwitch();
    LoadsAndBranchesPlaceholders();
    assert PlaceholdersExactly(p2);
    assert PlaceholdersExactly(p3);
    LinesTextAndSwitchPlaceholders();
    PlaceholdersExactlyAppend(p1, p2);
    PlaceholdersExactlyAppend(p1 + p2, p3);
    PlaceholdersExactlyAppend(p1 + p2 + p3, p4);
  }

  /** Values below the 0x800 block are never placeholder values. */
  lemma LowPlaceholders(ops: seq<Opcode>)
    requires NoPlaceholder(ops) && Within(ops, 0x100, 0x328)
    ensures PlaceholdersExactly(ops)
  {
  }

  /** Exactly the opcodes 0x83b-0x83d, 0x841 and 0x842 of the list carry the placeholder descriptor "???". */
  lemma ListPlaceholders()
    ensures PlaceholdersExactly(List())
  {
    InitIsDistinct();
    BinaryLaidOut();
    AssignmentLaidOut();
    ArrayAssignmentLaidOut();
    var b, u, a, e := Expand(BinaryRows()).value, UnaryOperators(), Expand(AssignmentRows()).value,
                      Expand(ArrayAssignmentRows()).value;
    ExpandHasNoPlaceholder(BinaryRows());
    ExpandHasNoPlaceholder(AssignmentRows());
    ExpandHasNoPlaceholder(ArrayAssignmentRows());
    UnaryHasNoPlaceholder();
    UnaryDistinct();
    FrontPlaceholders(b, u, a, e);
    HighPlaceholders();
    PlaceholdersExactlyAppend(b + u + a + e, HighOpcodes());
  }

  lemma FrontPlaceholders(b: seq<Opcode>, u: seq<Opcode>, a: seq<Opcode>, e: seq<Opcode>)
    requires NoPlaceholder(b) && Within(b, 0x100, 0x190)
    requires NoPlaceholder(u) && Within(u, 0x190, 0x1b0)
    requires NoPlaceholder(a) && Within(a, 0x1b0, 0x268)
    requires NoPlaceholder(e) && Within(e, 0x270, 0x328)
    ensures PlaceholdersExactly(b + u + a + e)
  {
    NoPlaceholderAppend(b, u);
    NoPlaceholderAppend(b + u, a);
    NoPlaceholderAppend(b + u + a, e);
    WithinWiden(b, 0x100, 0x190, 0x100, 0x328);
    WithinWiden(u, 0x190, 0x1b0, 0x100, 0x328);
    WithinWiden(a, 0x1b0, 0x268, 0x100, 0x328);
    WithinWiden(e, 0x270, 0x328, 0x100, 0x328);
    WithinAppend(b, u, 0x100, 0x328);
    WithinAppend(b + u, a, 0x100, 0x328);
    WithinAppend(b + u + a, e, 0x100, 0x328);
    LowPlaceholders(b + u + a + e);
  }
}

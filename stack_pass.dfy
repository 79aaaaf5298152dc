// The stack simulation of src/MajiroLib/Script/Analysis/StackTransition/StackTransitionPass.cs,
// which turns a control flow graph into SSA form and back.
//
// Every opcode carries a transition descriptor ("ii.i", "[*#a].*", "p.1", ...): the letters
// before the '.' are the masks of the operands the instruction pops, the letters after it the
// types of the values it pushes. The pass walks each function's blocks in pre-order, starts
// each block from its predecessors' end states (merging disagreeing slots through phi nodes),
// and records on every instruction the stack before it and the values it pops and pushes.
//
// The source also appends each instruction to the `Consumers` list of every value it pops.
// Those lists are not a separate field here: the consumers of a value are exactly the
// instructions whose popped values hold it (`Consumes`).

module StackTransitionPass {
  import opened Wrappers
  import opened Flags
  import opened Instructions
  import opened Graph
  import opened Scripts
  import Sorts
  import FunctionAnalysis

  // ---------------------------------------------------------------------------------------
  // Messages

  const ExpectedDot: string := "Expected a '.' in the stack transition descriptor"
  /** The prefix of the message for an unknown control code; the code's text follows it. */
  const UnrecognizedControlCode: string := "Unrecognized control code: "
  const PredecessorUnknown: string := "Predecessor state is unknown"
  /** `Single` over a sequence with more than one element. */
  const MoreThanOne: string := "Sequence contains more than one element"
  /** A string or array index past the end (`IndexOutOfRangeException`). */
  const OutsideBounds: string := "Index was outside the bounds of the array."
  const ToSsaFrom: string := "Unable to convert script to ssa graph representation from current state: "
  const ToCfgFrom: string := "Unable to convert script to control flow graph representation from current state: "

  function UnexpectedCharacter(c: char): string {
    "Unexpected character '" + [c] + "' in stack transition descriptor"
  }

  function InvalidRepeatCount(c: char): string {
    "Invalid repeat count specifier '" + [c] + "' in stack transition descriptor"
  }

  function InvalidRepeatType(c: char): string {
    "Invalid repeat type specifier '" + [c] + "' in stack transition descriptor"
  }

  // ---------------------------------------------------------------------------------------
  // The descriptor letters

  /** The `CharToTypeMask` table: the letters that stand for one operand. */
  function CharToTypeMask(c: char): (m: Option<MjoTypeMask>)
    ensures m.Some? <==> c in "bifsnpIFS*"
  {
    match c
    case 'b' => Some(MaskInt)
    case 'i' => Some(MaskInt)
    case 'f' => Some(MaskFloat)
    case 's' => Some(MaskString)
    case 'n' => Some(MaskNumeric)
    case 'p' => Some(MaskPrimitive)
    case 'I' => Some(MaskIntArray)
    case 'F' => Some(MaskFloatArray)
    case 'S' => Some(MaskStringArray)
    case '*' => Some(MaskAll)
    case _ => None
  }

  /** The `CharToType` table: the letters that stand for one pushed value of a known type. */
  function CharToType(c: char): (t: Option<MjoType>)
    ensures t.Some? <==> c in "bifsIFS"
    ensures t.Some? ==> CharToTypeMask(c) == Some(ToMask(t.value))
  {
    KnownTypeMasks();
    match c
    case 'b' => Some(Int)
    case 'i' => Some(Int)
    case 'f' => Some(Float)
    case 's' => Some(String)
    case 'I' => Some(IntArray)
    case 'F' => Some(FloatArray)
    case 'S' => Some(StringArray)
    case _ => None
  }

  /** `char.IsDigit`, on the ASCII digits the descriptors use. */
  predicate IsDigit(c: char) {
    '0' <= c <= '9'
  }

  function DigitValue(c: char): (d: int)
    requires IsDigit(c)
    ensures 0 <= d <= 9
  {
    c as int - '0' as int
  }

  /** A letter of the operand part that stands for one operand by itself. */
  predicate Simple(c: char) {
    CharToTypeMask(c).Some?
  }

  /** The masks of a run of simple operand letters. */
  function Masks(letters: string): (m: seq<MjoTypeMask>)
    requires forall k | 0 <= k < |letters| :: Simple(letters[k])
    ensures |m| == |letters| && forall k | 0 <= k < |letters| :: Simple(letters[k]) && m[k] == CharToTypeMask(letters[k]).value
  {
    seq(|letters|, k requires 0 <= k < |letters| && Simple(letters[k]) => CharToTypeMask(letters[k]).value)
  }

  /** The masks of a type list, one per type (`FlagHelpers.ToMask`). */
  function TypeMasks(types: seq<MjoType>): (m: seq<MjoTypeMask>)
    ensures |m| == |types| && forall k | 0 <= k < |types| :: m[k] == ToMask(types[k])
  {
    seq(|types|, k requires 0 <= k < |types| => ToMask(types[k]))
  }

  /** n copies of one mask (`Enumerable.Repeat`). */
  function Copies(m: MjoTypeMask, n: nat): (r: seq<MjoTypeMask>)
    ensures |r| == n && forall k | 0 <= k < n :: r[k] == m
  {
    seq(n, _ => m)
  }

  /**
   * The operands of a `ctrl` instruction (`[#s]`), chosen by its string operand, the control
   * code, compared as its bytes. An unknown code throws; the message then goes on with the
   * code's text, which the model does not decode.
   */
  function ControlCodeMasks(code: Option<seq<bv8>>): (r: Result<seq<MjoTypeMask>>)
    ensures code == Some([0x63]) || code == Some([0x6c]) || code == Some([0x6f]) ==> r == Ok(Copies(MaskInt, 2))
    ensures code == Some([0x73]) || code == Some([0x74]) ==> r == Ok([MaskInt])
    ensures code == Some([0x78]) ==> r == Ok([MaskString])
    ensures code == Some([0x64]) ==> r == Ok([MaskPrimitive])
    ensures code == Some([0x66]) ==> r == Ok(Copies(MaskInt, 4) + [MaskString])
    ensures code == Some([0x67]) ==> r == Ok(Copies(MaskInt, 6))
    ensures code == Some([0x6e]) || code == Some([0x4e]) || code == Some([0x70]) || code == Some([0x77]) ==> r == Ok([])
    ensures code.None? ==> r == Err(Thrown(UnrecognizedControlCode))
  {
    if code == Some([0x63]) || code == Some([0x6c]) || code == Some([0x6f]) then Ok(Copies(MaskInt, 2))  // c l o
    else if code == Some([0x73]) || code == Some([0x74]) then Ok([MaskInt])                              // s t
    else if code == Some([0x78]) then Ok([MaskString])                                                   // x
    else if code == Some([0x64]) then Ok([MaskPrimitive])                                                // d
    else if code == Some([0x66]) then Ok(Copies(MaskInt, 4) + [MaskString])                             // f
    else if code == Some([0x67]) then Ok(Copies(MaskInt, 6))                                             // g
    else if code == Some([0x6e]) || code == Some([0x4e]) || code == Some([0x70]) || code == Some([0x77]) then Ok([])  // n N p w
    else Err(Thrown(UnrecognizedControlCode))
  }

  // ---------------------------------------------------------------------------------------
  // DecodeOperandMask

  /**
   * Where one turn of the descriptor loop leaves it: on the index the turn ended on (the loop
   * then steps past it) with the masks so far, or finished at the '.' with the index after it.
   */
  datatype Scan = Continue(at: nat, masks: seq<MjoTypeMask>) | Done(index: nat, masks: seq<MjoTypeMask>)

  /** No '.' among the characters from i to j, both included. */
  predicate DotFree(t: string, i: int, j: int) {
    forall k | i <= k <= j && 0 <= k < |t| :: t[k] != '.'
  }

  /** The `[X#a]` and `[X#d]` repeats, from the index of X. */
  function Repeat(ins: Instruction, t: string, j: nat, m: MjoTypeMask, list: seq<MjoTypeMask>): (r: Result<Scan>)
    requires j < |t| && t[j] != '.'
    ensures r.Ok? ==> r.value.Continue? && j <= r.value.at && DotFree(t, j, r.value.at)
  {
    if j + 1 >= |t| then Err(Thrown(OutsideBounds))
    else if t[j + 1] != '#' then Err(AssertFailed("transition[++i] == '#'"))
    else if j + 2 >= |t| then Err(Thrown(OutsideBounds))
    else if t[j + 2] != 'a' && t[j + 2] != 'd' then Err(Thrown(InvalidRepeatCount(t[j + 2])))
    else
      var count := if t[j + 2] == 'a' then ins.argumentCount as nat else Dimension(ins.flags);
      if j + 3 >= |t| then Err(Thrown(OutsideBounds))
      else if t[j + 3] != ']' then Err(AssertFailed("transition[++i] == ']'"))
      else Ok(Continue(j + 3, list + Copies(m, count)))
  }

  /** The `[#s]` control-code operands and the `[#t]` type-list operands, from the index of '#'. */
  function Hashed(ins: Instruction, t: string, j: nat, list: seq<MjoTypeMask>): (r: Result<Scan>)
    requires j < |t| && t[j] == '#'
    ensures r.Ok? ==> r.value.Continue? && j <= r.value.at && DotFree(t, j, r.value.at)
  {
    if j + 1 >= |t| then Err(Thrown(OutsideBounds))
    else if t[j + 1] == 's' then
      if j + 2 >= |t| then Err(Thrown(OutsideBounds))
      else if t[j + 2] != ']' then Err(AssertFailed("transition[++i] == ']'"))
      else
        match ControlCodeMasks(ins.str)
        case Err(e) => Err(e)
        case Ok(m) => Ok(Continue(j + 2, list + m))
    else if t[j + 1] != 't' then Err(AssertFailed("transition[++i] == 't'"))
    else if j + 2 >= |t| then Err(Thrown(OutsideBounds))
    else if t[j + 2] != ']' then Err(AssertFailed("transition[++i] == ']'"))
    else Ok(Continue(j + 2, list + TypeMasks(ins.typeList)))
  }

  /** All masks up to the stack's size (`[*]`): what is already listed, then as many `All` as fit. */
  function Padded(list: seq<MjoTypeMask>, stackSize: nat): (r: seq<MjoTypeMask>)
    ensures |r| == if |list| < stackSize then stackSize else |list|
    ensures r[..|list|] == list && forall k | |list| <= k < |r| :: r[k] == MaskAll
  {
    if |list| < stackSize then list + Copies(MaskAll, stackSize - |list|) else list
  }

  /** A bracketed group of the operand part, from the index after '['. */
  function Bracket(ins: Instruction, stackSize: nat, t: string, j: nat, list: seq<MjoTypeMask>): (r: Result<Scan>)
    requires 0 < j <= |t| && t[j - 1] == '['
    ensures r.Ok? ==> r.value.Continue? && j <= r.value.at && DotFree(t, j, r.value.at)
  {
    if j >= |t| then Err(Thrown(OutsideBounds))
    else if t[j] == '#' then Hashed(ins, t, j, list)
    else if t[j] == '*' && j + 1 >= |t| then Err(Thrown(OutsideBounds))
    else if t[j] == '*' && t[j + 1] == ']' then
      if j + 2 >= |t| then Err(Thrown(OutsideBounds))
      else if t[j + 2] != '.' then Err(AssertFailed("transition[++i + 1] == '.'"))
      else Ok(Continue(j + 1, Padded(list, stackSize)))
    else if Simple(t[j]) then Repeat(ins, t, j, CharToTypeMask(t[j]).value, list)
    else Err(Thrown(InvalidRepeatType(t[j])))
  }

  /** One turn of the loop of `DecodeOperandMask`, at index i. */
  function MaskTurn(ins: Instruction, stackSize: nat, t: string, i: nat, list: seq<MjoTypeMask>): (r: Result<Scan>)
    requires i < |t|
    ensures r.Ok? && r.value.Continue? ==> i <= r.value.at && DotFree(t, i, r.value.at)
    ensures r.Ok? && r.value.Done? ==> t[i] == '.' && r.value.index == i + 1
  {
    var c := t[i];
    if c == '.' then Ok(Done(i + 1, list))
    else if c == '[' then Bracket(ins, stackSize, t, i + 1, list)
    else if IsDigit(c) then
      var k := DigitValue(c) - 1;
      if 0 <= k < |list| then Ok(Continue(i, list + [list[k]])) else Err(Thrown(IndexOutOfRange))
    else if Simple(c) then Ok(Continue(i, list + [CharToTypeMask(c).value]))
    else Err(Thrown(UnexpectedCharacter(c)))
  }

  /** The loop of `DecodeOperandMask` from index i: the masks and the index after the '.'. */
  function MaskFrom(ins: Instruction, stackSize: nat, t: string, i: nat, list: seq<MjoTypeMask>)
    : Result<(seq<MjoTypeMask>, nat)>
    decreases |t| - i
  {
    if i >= |t| then Err(Thrown(ExpectedDot))
    else
      match MaskTurn(ins, stackSize, t, i, list)
      case Err(e) => Err(e)
      case Ok(Done(index, masks)) => Ok((masks, index))
      case Ok(Continue(at, masks)) => MaskFrom(ins, stackSize, t, at + 1, masks)
  }

  /** `DecodeOperandMask`: the masks of the operands, and the index where the pushes start. */
  function OperandMask(ins: Instruction, stackSize: nat): Result<(seq<MjoTypeMask>, nat)> {
    MaskFrom(ins, stackSize, ins.opcode.transition, 0, [])
  }

  /** `DecodeOperandMask`, with its loop. */
  method DecodeOperandMask(ins: Instruction, stackSize: nat) returns (r: Result<(seq<MjoTypeMask>, nat)>)
    ensures r == OperandMask(ins, stackSize)
  {
    var t := ins.opcode.transition;
    var list := [];
    var i := 0;
    while i < |t|
      invariant MaskFrom(ins, stackSize, t, i, list) == OperandMask(ins, stackSize)
      decreases |t| - i
    {
      var turn := MaskTurn(ins, stackSize, t, i, list);
      if turn.Err? {
        return Err(turn.error);
      }
      match turn.value
      case Done(index, masks) =>
        return Ok((masks, index));
      case Continue(at, masks) =>
        i, list := at + 1, masks;
    }
    return Err(Thrown(ExpectedDot));
  }

  // Properties of the operand part.

  /** The loop stops at the first '.' from where it starts, or fails. */
  lemma {:induction false} MaskFromStopsAtDot(ins: Instruction, stackSize: nat, t: string, i: nat, list: seq<MjoTypeMask>)
    ensures MaskFrom(ins, stackSize, t, i, list).Ok? ==>
      var index := MaskFrom(ins, stackSize, t, i, list).value.1;
      i < index <= |t| && t[index - 1] == '.' && DotFree(t, i, index - 2)
    decreases |t| - i
  {
    if i < |t| {
      var turn := MaskTurn(ins, stackSize, t, i, list);
      if turn.Ok? && turn.value.Continue? {
        MaskFromStopsAtDot(ins, stackSize, t, turn.value.at + 1, turn.value.masks);
      }
    }
  }

  /**
   * The operand part ends at the first '.' of the descriptor: a successful decoding returns
   * the index after it, and a descriptor without a '.' never decodes.
   */
  lemma {:induction false} OperandsEndAtFirstDot(ins: Instruction, stackSize: nat)
    ensures OperandMask(ins, stackSize).Ok? ==>
      var t := ins.opcode.transition;
      var index := OperandMask(ins, stackSize).value.1;
      0 < index <= |t| && t[index - 1] == '.' && forall k | 0 <= k < index - 1 :: t[k] != '.'
    ensures (forall k | 0 <= k < |ins.opcode.transition| :: ins.opcode.transition[k] != '.') ==>
      OperandMask(ins, stackSize).Err?
  {
    MaskFromStopsAtDot(ins, stackSize, ins.opcode.transition, 0, []);
  }

  /** A run of simple letters, then '.', pops one operand per letter, in order. */
  lemma {:induction false} SimpleFrom(ins: Instruction, stackSize: nat, t: string, letters: string, i: nat, list: seq<MjoTypeMask>)
    requires forall k | 0 <= k < |letters| :: Simple(letters[k])
    requires |letters| < |t| && t[..|letters|] == letters && t[|letters|] == '.'
    requires i <= |letters| && list == Masks(letters[..i])
    ensures MaskFrom(ins, stackSize, t, i, list) == Ok((Masks(letters), |letters| + 1))
    decreases |letters| - i
  {
    if i < |letters| {
      assert t[i] == letters[i];
      assert letters[..i + 1] == letters[..i] + [letters[i]];
      SimpleFrom(ins, stackSize, t, letters, i + 1, list + [CharToTypeMask(t[i]).value]);
    } else {
      assert letters[..i] == letters;
    }
  }

  /** Operand letters without brackets or digits ("ii.", "*.", "p."): one mask per letter. */
  lemma {:induction false} SimpleOperands(ins: Instruction, stackSize: nat, letters: string)
    requires forall k | 0 <= k < |letters| :: Simple(letters[k])
    requires |letters| < |ins.opcode.transition| && ins.opcode.transition[..|letters|] == letters
    requires ins.opcode.transition[|letters|] == '.'
    ensures OperandMask(ins, stackSize) == Ok((Masks(letters), |letters| + 1))
  {
    assert letters[..0] == [];
    SimpleFrom(ins, stackSize, ins.opcode.transition, letters, 0, []);
  }

  /** `[*].` pops the whole stack, whatever its values' types. */
  lemma {:induction false} DrainedOperands(ins: Instruction, stackSize: nat)
    requires |ins.opcode.transition| >= 4 && ins.opcode.transition[..4] == "[*]."
    ensures OperandMask(ins, stackSize) == Ok((Copies(MaskAll, stackSize), 4))
  {
    var t := ins.opcode.transition;
    assert t[0] == '[' && t[1] == '*' && t[2] == ']' && t[3] == '.';
    var all := Copies(MaskAll, stackSize);
    assert Padded([], stackSize) == all;
    assert MaskTurn(ins, stackSize, t, 0, []) == Ok(Continue(2, all));
    assert MaskFrom(ins, stackSize, t, 3, all) == Ok((all, 4));
  }

  /**
   * `[X#a].` and `[X#d].` pop as many operands of mask X as the instruction's argument count
   * or its flags' dimension.
   */
  lemma {:induction false} RepeatedOperands(ins: Instruction, stackSize: nat, x: char, spec: char)
    requires Simple(x) && (spec == 'a' || spec == 'd')
    requires |ins.opcode.transition| >= 6 && ins.opcode.transition[..6] == ['[', x, '#', spec, ']', '.']
    ensures spec == 'a' ==> OperandMask(ins, stackSize) == Ok((Copies(CharToTypeMask(x).value, ins.argumentCount as nat), 6))
    ensures spec == 'd' ==> OperandMask(ins, stackSize) == Ok((Copies(CharToTypeMask(x).value, Dimension(ins.flags)), 6))
  {
    var t := ins.opcode.transition;
    assert t[0] == '[' && t[1] == x && t[2] == '#' && t[3] == spec && t[4] == ']' && t[5] == '.';
    var count := if spec == 'a' then ins.argumentCount as nat else Dimension(ins.flags);
    var m := CharToTypeMask(x).value;
    assert [] + Copies(m, count) == Copies(m, count);
    assert Repeat(ins, t, 1, m, []) == Ok(Continue(4, Copies(m, count)));
    assert MaskTurn(ins, stackSize, t, 0, []) == Ok(Continue(4, Copies(m, count)));
    assert MaskFrom(ins, stackSize, t, 5, Copies(m, count)) == Ok((Copies(m, count), 6));
  }

  /** `[#t].` pops one operand per entry of the type list, each matched by its type's mask. */
  lemma {:induction false} TypeListOperands(ins: Instruction, stackSize: nat)
    requires |ins.opcode.transition| >= 5 && ins.opcode.transition[..5] == "[#t]."
    ensures OperandMask(ins, stackSize) == Ok((TypeMasks(ins.typeList), 5))
  {
    var t := ins.opcode.transition;
    assert t[0] == '[' && t[1] == '#' && t[2] == 't' && t[3] == ']' && t[4] == '.';
    assert [] + TypeMasks(ins.typeList) == TypeMasks(ins.typeList);
    assert MaskTurn(ins, stackSize, t, 0, []) == Ok(Continue(3, TypeMasks(ins.typeList)));
    assert MaskFrom(ins, stackSize, t, 4, TypeMasks(ins.typeList)) == Ok((TypeMasks(ins.typeList), 5));
  }

  /** `[#s].` pops the operands its control code calls for, and an unknown code throws. */
  lemma {:induction false} ControlOperands(ins: Instruction, stackSize: nat)
    requires |ins.opcode.transition| >= 5 && ins.opcode.transition[..5] == "[#s]."
    ensures ControlCodeMasks(ins.str).Ok? ==> OperandMask(ins, stackSize) == Ok((ControlCodeMasks(ins.str).value, 5))
    ensures ControlCodeMasks(ins.str).Err? ==> OperandMask(ins, stackSize) == Err(ControlCodeMasks(ins.str).error)
  {
    var t := ins.opcode.transition;
    assert t[0] == '[' && t[1] == '#' && t[2] == 's' && t[3] == ']' && t[4] == '.';
    match ControlCodeMasks(ins.str)
    case Err(e) =>
    case Ok(m) =>
      assert [] + m == m;
      assert MaskTurn(ins, stackSize, t, 0, []) == Ok(Continue(3, m));
      assert MaskFrom(ins, stackSize, t, 4, m) == Ok((m, 5));
  }

  /** A descriptor that starts with '?' (the "???" of the opcodes whose transition is unknown) throws. */
  lemma {:induction false} PlaceholderOperands(ins: Instruction, stackSize: nat)
    requires |ins.opcode.transition| > 0 && ins.opcode.transition[0] == '?'
    ensures OperandMask(ins, stackSize) == Err(Thrown(UnexpectedCharacter('?')))
  {
  }

  // ---------------------------------------------------------------------------------------
  // PushResultValues

  /** A value the k-th instruction of a block pushes, as its position-th push: a fresh temporary. */
  function Produced(t: MjoType, id: BlockId, k: nat, position: nat): StackValue {
    StackValue(StackValueCategory.Temp, t, Pushed(id, k, position))
  }

  /** The stack and the values pushed so far. */
  datatype Pushing = Pushing(state: seq<StackValue>, pushed: seq<StackValue>)

  /** The local `Push`: a fresh value on the stack and in the pushed list. */
  function Push(t: MjoType, id: BlockId, k: nat, p: Pushing): Pushing {
    var v := Produced(t, id, k, |p.pushed|);
    Pushing(p.state + [v], p.pushed + [v])
  }

  /** One `Push` per type of a type list, in order. */
  function PushAll(types: seq<MjoType>, id: BlockId, k: nat, p: Pushing): Pushing
    decreases |types|
  {
    if types == [] then p else PushAll(types[1..], id, k, Push(types[0], id, k, p))
  }

  /** The pushes of a type list come after those before, one fresh value per type, also on the stack. */
  lemma {:induction false} PushAllShape(types: seq<MjoType>, id: BlockId, k: nat, p: Pushing)
    ensures var r := PushAll(types, id, k, p);
      |r.pushed| == |p.pushed| + |types| && r.pushed[..|p.pushed|] == p.pushed &&
      r.state == p.state + r.pushed[|p.pushed|..] &&
      forall j | 0 <= j < |types| :: r.pushed[|p.pushed| + j] == Produced(types[j], id, k, |p.pushed| + j)
    decreases |types|
  {
    if types == [] {
      assert p.pushed[..|p.pushed|] == p.pushed && p.pushed[|p.pushed|..] == [];
    } else {
      var q := Push(types[0], id, k, p);
      PushAllShape(types[1..], id, k, q);
      var r := PushAll(types[1..], id, k, q);
      assert r.pushed[..|p.pushed|] == q.pushed[..|q.pushed|][..|p.pushed|];
      assert r.pushed[|p.pushed|..] == [r.pushed[|p.pushed|]] + r.pushed[|q.pushed|..];
      assert forall j | 1 <= j < |types| :: types[j] == types[1..][j - 1];
    }
  }

  /**
   * One turn of the loop of `PushResultValues`, at index i: the index it ends on and the new
   * state. `ty` is the instruction's own type, `Type(ins.flags)`, which "#t" pushes.
   */
  function PushTurn(ins: Instruction, ty: MjoType, t: string, i: nat, popped: seq<StackValue>, id: BlockId, k: nat, p: Pushing)
    : (r: Result<(nat, Pushing)>)
    requires i < |t|
    ensures r.Ok? ==> i <= r.value.0
  {
    var c := t[i];
    if c == '[' then
      if i + 1 >= |t| then Err(Thrown(OutsideBounds))
      else if t[i + 1] != '#' then Err(AssertFailed("transition[++i] == '#'"))
      else if i + 2 >= |t| then Err(Thrown(OutsideBounds))
      else if t[i + 2] != 't' then Err(AssertFailed("transition[++i] == 't'"))
      else if i + 3 >= |t| then Err(Thrown(OutsideBounds))
      else if t[i + 3] != ']' then Err(AssertFailed("transition[++i] == ']'"))
      else Ok((i + 3, PushAll(ins.typeList, id, k, p)))
    else if c == '#' then
      if i + 1 >= |t| then Err(Thrown(OutsideBounds))
      else if t[i + 1] != 't' then Err(AssertFailed("transition[++i] == 't'"))
      else Ok((i + 1, Push(ty, id, k, p)))
    else if c == '*' then Ok((i, Push(Unknown, id, k, p)))
    else if IsDigit(c) then
      var d := DigitValue(c) - 1;
      if 0 <= d < |popped| then Ok((i, Pushing(p.state + [popped[d]], p.pushed)))
      else Err(Thrown(OutsideBounds))
    else if CharToType(c).Some? then Ok((i, Push(CharToType(c).value, id, k, p)))
    else Err(Thrown(UnexpectedCharacter(c)))
  }

  /** The loop of `PushResultValues` from index i. */
  function PushFrom(ins: Instruction, ty: MjoType, t: string, i: nat, popped: seq<StackValue>, id: BlockId, k: nat, p: Pushing)
    : Result<Pushing>
    decreases |t| - i
  {
    if i >= |t| then Ok(p)
    else
      match PushTurn(ins, ty, t, i, popped, id, k, p)
      case Err(e) => Err(e)
      case Ok((at, p')) => PushFrom(ins, ty, t, at + 1, popped, id, k, p')
  }

  /**
   * `PushResultValues` for the k-th instruction of block id, from the descriptor's index after
   * the '.': alloca and argcheck push nothing (the function's header handles them).
   */
  function PushResults(ins: Instruction, index: nat, popped: seq<StackValue>, id: BlockId, k: nat, state: seq<StackValue>)
    : Result<Pushing>
  {
    if IsAlloca(ins) || IsArgCheck(ins) then Ok(Pushing(state, []))
    else PushFrom(ins, Type(ins.flags), ins.opcode.transition, index, popped, id, k, Pushing(state, []))
  }

  /** `PushResultValues`, with its loop. */
  method PushResultValues(ins: Instruction, index: nat, popped: seq<StackValue>, id: BlockId, k: nat, state: seq<StackValue>)
    returns (r: Result<Pushing>)
    ensures r == PushResults(ins, index, popped, id, k, state)
  {
    if IsAlloca(ins) || IsArgCheck(ins) {
      return Ok(Pushing(state, []));
    }
    var t := ins.opcode.transition;
    var ty := Type(ins.flags);
    var p := Pushing(state, []);
    var i := index;
    while i < |t|
      invariant PushFrom(ins, ty, t, i, popped, id, k, p) == PushFrom(ins, ty, t, index, popped, id, k, Pushing(state, []))
      decreases |t| - i
    {
      var turn := PushTurn(ins, ty, t, i, popped, id, k, p);
      if turn.Err? {
        return Err(turn.error);
      }
      i, p := turn.value.0 + 1, turn.value.1;
    }
    return Ok(p);
  }

  // Properties of the pushes.

  /**
   * What the pushes keep: the stack below grows only at the top; the pushed list holds the
   * instruction's fresh temporaries, numbered in order; every value added to the stack is
   * one of them or one of the popped operands pushed back.
   */
  ghost predicate PushesFrom(base: seq<StackValue>, pushedBefore: seq<StackValue>, p: Pushing, popped: seq<StackValue>, id: BlockId, k: nat) {
    |base| <= |p.state| && p.state[..|base|] == base &&
    |pushedBefore| <= |p.pushed| && p.pushed[..|pushedBefore|] == pushedBefore &&
    Numbered(p.pushed, id, k) &&
    (forall j | |base| <= j < |p.state| :: p.state[j] in p.pushed[|pushedBefore|..] || p.state[j] in popped)
  }

  /** The instruction's pushes so far are its temporaries, numbered in order. */
  predicate Numbered(pushed: seq<StackValue>, id: BlockId, k: nat) {
    forall j | 0 <= j < |pushed| :: pushed[j].origin == Pushed(id, k, j) && pushed[j].category == StackValueCategory.Temp
  }

  lemma {:induction false} PushAllKeeps(types: seq<MjoType>, popped: seq<StackValue>, id: BlockId, k: nat, p: Pushing)
    requires Numbered(p.pushed, id, k)
    ensures PushesFrom(p.state, p.pushed, PushAll(types, id, k, p), popped, id, k)
  {
    PushAllShape(types, id, k, p);
    var p' := PushAll(types, id, k, p);
    var added := p'.pushed[|p.pushed|..];
    assert p'.state[..|p.state|] == p.state;
    forall j | |p.state| <= j < |p'.state| ensures p'.state[j] in added {
      assert p'.state[j] == added[j - |p.state|];
    }
    forall j | 0 <= j < |p'.pushed|
      ensures p'.pushed[j].origin == Pushed(id, k, j) && p'.pushed[j].category == StackValueCategory.Temp
    {
      if j < |p.pushed| {
        assert p'.pushed[j] == p'.pushed[..|p.pushed|][j];
      } else {
        assert p'.pushed[|p.pushed| + (j - |p.pushed|)] == Produced(types[j - |p.pushed|], id, k, j);
      }
    }
  }

  lemma {:induction false} PushKeeps(x: MjoType, popped: seq<StackValue>, id: BlockId, k: nat, p: Pushing)
    requires Numbered(p.pushed, id, k)
    ensures PushesFrom(p.state, p.pushed, Push(x, id, k, p), popped, id, k)
  {
    var p' := Push(x, id, k, p);
    assert p'.state[..|p.state|] == p.state;
    assert p'.pushed[..|p.pushed|] == p.pushed;
    assert p'.pushed[|p.pushed|..] == [p'.state[|p.state|]];
  }

  lemma {:induction false} RepushKeeps(v: StackValue, popped: seq<StackValue>, id: BlockId, k: nat, p: Pushing)
    requires Numbered(p.pushed, id, k) && v in popped
    ensures PushesFrom(p.state, p.pushed, Pushing(p.state + [v], p.pushed), popped, id, k)
  {
    assert (p.state + [v])[..|p.state|] == p.state;
    assert p.pushed[..|p.pushed|] == p.pushed;
  }

  lemma {:induction false} PushTurnKeeps(ins: Instruction, ty: MjoType, t: string, i: nat, popped: seq<StackValue>, id: BlockId, k: nat, p: Pushing)
    requires i < |t| && PushTurn(ins, ty, t, i, popped, id, k, p).Ok?
    requires Numbered(p.pushed, id, k)
    ensures PushesFrom(p.state, p.pushed, PushTurn(ins, ty, t, i, popped, id, k, p).value.1, popped, id, k)
  {
    var c := t[i];
    if c == '[' {
      PushAllKeeps(ins.typeList, popped, id, k, p);
    } else if c == '#' {
      PushKeeps(Type(ins.flags), popped, id, k, p);
    } else if c == '*' {
      PushKeeps(Unknown, popped, id, k, p);
    } else if IsDigit(c) {
      RepushKeeps(popped[DigitValue(c) - 1], popped, id, k, p);
    } else {
      PushKeeps(CharToType(c).value, popped, id, k, p);
    }
  }

  lemma {:induction false} PushesCompose(base: seq<StackValue>, b0: seq<StackValue>, p: Pushing, p': Pushing, popped: seq<StackValue>, id: BlockId, k: nat)
    requires PushesFrom(base, b0, p, popped, id, k) && PushesFrom(p.state, p.pushed, p', popped, id, k)
    ensures PushesFrom(base, b0, p', popped, id, k)
  {
    assert p'.state[..|base|] == p.state[..|p.state|][..|base|];
    assert p'.pushed[..|b0|] == p.pushed[..|p.pushed|][..|b0|];
    forall j | |base| <= j < |p'.state|
      ensures p'.state[j] in p'.pushed[|b0|..] || p'.state[j] in popped
    {
      if j < |p.state| {
        assert p'.state[j] == p.state[j];
        if p.state[j] in p.pushed[|b0|..] {
          var x :| |b0| <= x < |p.pushed| && p.pushed[x] == p.state[j];
          assert p'.pushed[x] == p.pushed[x];
        }
      } else if p'.state[j] in p'.pushed[|p.pushed|..] {
        var x :| |p.pushed| <= x < |p'.pushed| && p'.pushed[x] == p'.state[j];
        assert p'.pushed[|b0|..][x - |b0|] == p'.state[j];
      }
    }
  }

  lemma {:induction false} PushFromKeeps(ins: Instruction, ty: MjoType, t: string, i: nat, popped: seq<StackValue>, id: BlockId, k: nat, p: Pushing)
    requires PushFrom(ins, ty, t, i, popped, id, k, p).Ok?
    requires Numbered(p.pushed, id, k)
    ensures PushesFrom(p.state, p.pushed, PushFrom(ins, ty, t, i, popped, id, k, p).value, popped, id, k)
    decreases |t| - i
  {
    if i >= |t| {
      assert p.state[..|p.state|] == p.state && p.pushed[..|p.pushed|] == p.pushed;
    } else {
      var turn := PushTurn(ins, ty, t, i, popped, id, k, p).value;
      PushTurnKeeps(ins, ty, t, i, popped, id, k, p);
      PushFromKeeps(ins, ty, t, turn.0 + 1, popped, id, k, turn.1);
      PushesCompose(p.state, p.pushed, turn.1, PushFrom(ins, ty, t, i, popped, id, k, p).value, popped, id, k);
    }
  }

  /**
   * The pushes of an instruction leave the stack below untouched, push only fresh temporaries
   * produced by that instruction (the j-th push has origin j), and add nothing to the stack
   * but those and popped operands pushed back.
   */
  lemma {:induction false} PushesFresh(ins: Instruction, index: nat, popped: seq<StackValue>, id: BlockId, k: nat, state: seq<StackValue>)
    requires PushResults(ins, index, popped, id, k, state).Ok?
    ensures PushesFrom(state, [], PushResults(ins, index, popped, id, k, state).value, popped, id, k)
  {
    if IsAlloca(ins) || IsArgCheck(ins) {
      assert state[..|state|] == state;
    } else {
      PushFromKeeps(ins, Type(ins.flags), ins.opcode.transition, index, popped, id, k, Pushing(state, []));
    }
  }

  /** The types of a run of letters of known type. */
  function LetterTypes(letters: string): (types: seq<MjoType>)
    requires forall j | 0 <= j < |letters| :: CharToType(letters[j]).Some?
    ensures |types| == |letters|
  {
    if letters == [] then [] else [CharToType(letters[0]).value] + LetterTypes(letters[1..])
  }

  /** Letters of known type after the '.' ("ii.i", "nn.b") push one fresh value of each type. */
  lemma {:induction false} TypedPushesFrom(ins: Instruction, ty: MjoType, t: string, i: nat, popped: seq<StackValue>, id: BlockId, k: nat, p: Pushing)
    requires i <= |t| && forall j | i <= j < |t| :: CharToType(t[j]).Some?
    ensures PushFrom(ins, ty, t, i, popped, id, k, p) == Ok(PushAll(LetterTypes(t[i..]), id, k, p))
    decreases |t| - i
  {
    if i < |t| {
      var c := t[i];
      assert c != '[' && c != '#' && c != '*' && !IsDigit(c);
      var p' := Push(CharToType(c).value, id, k, p);
      assert PushTurn(ins, ty, t, i, popped, id, k, p) == Ok((i, p'));
      TypedPushesFrom(ins, ty, t, i + 1, popped, id, k, p');
      assert t[i..][1..] == t[i + 1..];
    } else {
      assert t[i..] == [];
    }
  }

  /**
   * A push part of letters of known type ("ii.i", "nn.b", "i.f") pushes one fresh temporary
   * per letter, of the letter's type, in order, on top of the stack.
   */
  lemma {:induction false} TypedPushes(ins: Instruction, index: nat, popped: seq<StackValue>, id: BlockId, k: nat, state: seq<StackValue>)
    requires !IsAlloca(ins) && !IsArgCheck(ins)
    requires var t := ins.opcode.transition; index <= |t| && forall j | index <= j < |t| :: CharToType(t[j]).Some?
    ensures var types := LetterTypes(ins.opcode.transition[index..]);
      PushResults(ins, index, popped, id, k, state) ==
      Ok(Pushing(state + seq(|types|, j requires 0 <= j < |types| => Produced(types[j], id, k, j)),
                 seq(|types|, j requires 0 <= j < |types| => Produced(types[j], id, k, j))))
  {
    var types := LetterTypes(ins.opcode.transition[index..]);
    var r := PushAll(types, id, k, Pushing(state, []));
    var vs := seq(|types|, j requires 0 <= j < |types| => Produced(types[j], id, k, j));
    assert r == Pushing(state + vs, vs) by {
      PushAllShape(types, id, k, Pushing(state, []));
      assert r.pushed == vs;
      assert r.pushed[0..] == r.pushed;
    }
    TypedPushesFrom(ins, Type(ins.flags), ins.opcode.transition, index, popped, id, k, Pushing(state, []));
  }

  /** An element load's push part, "~#t", throws: '~' is not a letter the push loop knows. */
  lemma {:induction false} TildeThrows(ins: Instruction, index: nat, popped: seq<StackValue>, id: BlockId, k: nat, state: seq<StackValue>)
    requires !IsAlloca(ins) && !IsArgCheck(ins)
    requires index < |ins.opcode.transition| && ins.opcode.transition[index] == '~'
    ensures PushResults(ins, index, popped, id, k, state) == Err(Thrown(UnexpectedCharacter('~')))
  {
  }

  // ---------------------------------------------------------------------------------------
  // SimulateTransition

  /** Each operand's type matches its mask (an Unknown value matches every mask). */
  predicate AllMatch(values: seq<StackValue>, masks: seq<MjoTypeMask>)
    requires |values| == |masks|
  {
    forall j | 0 <= j < |values| :: Matches(values[j].valueType, masks[j])
  }

  /** The stack after an instruction, and the instruction with its popped and pushed values. */
  datatype Step = Step(stack: seq<StackValue>, instruction: Instruction)

  /** `SimulateTransition` for the k-th instruction of block id, on the stack before it. */
  function Transition(stack: seq<StackValue>, ins: Instruction, id: BlockId, k: nat): Result<Step> {
    match OperandMask(ins, |stack|)
    case Err(e) => Err(e)
    case Ok((masks, index)) =>
      if |masks| > |stack| then Err(AssertFailed("mask.Count <= stack.Count"))
      else
        var offset := |stack| - |masks|;
        if !AllMatch(stack[offset..], masks) then Err(AssertFailed("value.Type.Matches(expected)"))
        else
          match PushResults(ins, index, stack[offset..], id, k, stack[..offset])
          case Err(e) => Err(e)
          case Ok(p) =>
            if ins.poppedValues.Some? then Err(AssertFailed("instruction.PoppedValues == null"))
            else if ins.pushedValues.Some? then Err(AssertFailed("instruction.PushedValues == null"))
            else Ok(Step(p.state, ins.(poppedValues := Some(stack[offset..]), pushedValues := Some(p.pushed))))
  }

  /** `SimulateTransition`, with its loop over the operands. */
  method SimulateTransition(stack: seq<StackValue>, ins: Instruction, id: BlockId, k: nat) returns (r: Result<Step>)
    ensures r == Transition(stack, ins, id, k)
  {
    var decoded := DecodeOperandMask(ins, |stack|);
    if decoded.Err? {
      return Err(decoded.error);
    }
    var masks, index := decoded.value.0, decoded.value.1;
    if |masks| > |stack| {
      return Err(AssertFailed("mask.Count <= stack.Count"));
    }
    var offset := |stack| - |masks|;
    var popped := [];
    for i := 0 to |masks|
      invariant popped == stack[offset..offset + i]
      invariant AllMatch(popped, masks[..i])
    {
      var value := stack[offset + i];
      if !Matches(value.valueType, masks[i]) {
        assert !AllMatch(stack[offset..], masks) by {
          assert stack[offset..][i] == value;
        }
        return Err(AssertFailed("value.Type.Matches(expected)"));
      }
      popped := popped + [value];
    }
    assert popped == stack[offset..] && masks[..|masks|] == masks;
    var pushed := PushResultValues(ins, index, popped, id, k, stack[..offset]);
    if pushed.Err? {
      return Err(pushed.error);
    }
    if ins.poppedValues.Some? {
      return Err(AssertFailed("instruction.PoppedValues == null"));
    }
    if ins.pushedValues.Some? {
      return Err(AssertFailed("instruction.PushedValues == null"));
    }
    return Ok(Step(pushed.value.state, ins.(poppedValues := Some(popped), pushedValues := Some(pushed.value.pushed))));
  }

  /**
   * An instruction pops exactly the operands its descriptor names, from the top of the stack,
   * each matching its mask; the values below stay as they were; the instruction records the
   * popped values and its fresh pushes; and everything new on the stack is one of its pushes or
   * a popped value pushed back.
   */
  lemma {:induction false} TransitionPops(stack: seq<StackValue>, ins: Instruction, id: BlockId, k: nat)
    requires Transition(stack, ins, id, k).Ok?
    ensures OperandMask(ins, |stack|).Ok?
    ensures var masks := OperandMask(ins, |stack|).value.0;
      var s := Transition(stack, ins, id, k).value;
      var offset := |stack| - |masks|;
      |masks| <= |stack| && AllMatch(stack[offset..], masks) &&
      s.instruction.poppedValues == Some(stack[offset..]) && s.instruction.pushedValues.Some? &&
      PushesFrom(stack[..offset], [], Pushing(s.stack, s.instruction.pushedValues.value), stack[offset..], id, k)
    ensures ins.poppedValues.None? && ins.pushedValues.None?
    ensures Transition(stack, ins, id, k).value.instruction ==
      ins.(poppedValues := Transition(stack, ins, id, k).value.instruction.poppedValues,
           pushedValues := Transition(stack, ins, id, k).value.instruction.pushedValues)
  {
    var masks, index := OperandMask(ins, |stack|).value.0, OperandMask(ins, |stack|).value.1;
    var offset := |stack| - |masks|;
    PushesFresh(ins, index, stack[offset..], id, k, stack[..offset]);
  }

  /**
   * The consumers of a value among a block's simulated instructions: the source appends an
   * instruction to a value's `Consumers` exactly when it pops that value.
   */
  predicate Consumes(ins: Instruction, v: StackValue) {
    ins.poppedValues.Some? && v in ins.poppedValues.value
  }

  // ---------------------------------------------------------------------------------------
  // CheckStateCompatibility

  /** The states that are set (`Where(s => s != null)`), in order. */
  function Present(ws: seq<Option<seq<StackValue>>>): (r: seq<seq<StackValue>>)
    ensures |r| <= |ws|
    ensures forall s :: s in r <==> Some(s) in ws
    ensures |ws| > 0 && ws[0].Some? ==> |r| > 0 && r[0] == ws[0].value
  {
    if ws == [] then []
    else
      var rest := Present(ws[1..]);
      assert forall w | w in ws[1..] :: w in ws;
      assert forall w | w in ws && w != ws[0] :: w in ws[1..];
      if ws[0].Some? then [ws[0].value] + rest else rest
  }

  /** Every state has the first one's height. */
  predicate SameLengths(states: seq<seq<StackValue>>)
    requires |states| > 0
  {
    forall j | 0 <= j < |states| :: |states[j]| == |states[0]|
  }

  /** Slot i of every state. */
  function Column(states: seq<seq<StackValue>>, i: nat): (values: seq<StackValue>)
    requires forall j | 0 <= j < |states| :: i < |states[j]|
    ensures |values| == |states| && forall j | 0 <= j < |states| :: values[j] == states[j][i]
  {
    seq(|states|, j requires 0 <= j < |states| => states[j][i])
  }

  /** No two values differ (`!values.Distinct().Skip(1).Any()`). */
  predicate Agree(values: seq<StackValue>) {
    forall j | 0 <= j < |values| :: values[j] == values[0]
  }

  /** All values have one category, so `Distinct().Single()` finds it. */
  predicate OneCategory(values: seq<StackValue>) {
    forall j | 0 <= j < |values| :: values[j].category == values[0].category
  }

  /** The distinct types other than Unknown among some values: none, one, or several. */
  datatype Known = NoneKnown | Only(t: MjoType) | Several

  function KnownTypes(values: seq<StackValue>): Known {
    if values == [] then NoneKnown
    else
      var t := values[0].valueType;
      var rest := KnownTypes(values[1..]);
      if t == Unknown then rest
      else match rest
        case NoneKnown => Only(t)
        case Only(u) => if u == t then Only(t) else Several
        case Several => Several
  }

  /** The type of a phi: the one type other than Unknown among the values, else Unknown. */
  function PhiType(values: seq<StackValue>): MjoType {
    match KnownTypes(values)
    case Only(t) => t
    case _ => Unknown
  }

  lemma {:induction false} KnownTypesAre(values: seq<StackValue>)
    ensures KnownTypes(values).NoneKnown? <==> forall j | 0 <= j < |values| :: values[j].valueType == Unknown
    ensures KnownTypes(values).Only? ==> (KnownTypes(values).t != Unknown &&
      (exists j | 0 <= j < |values| :: values[j].valueType == KnownTypes(values).t) &&
      forall j | 0 <= j < |values| :: values[j].valueType == KnownTypes(values).t || values[j].valueType == Unknown)
    ensures KnownTypes(values).Several? ==> exists j, j' | 0 <= j < |values| && 0 <= j' < |values| ::
      values[j].valueType != Unknown && values[j'].valueType != Unknown && values[j].valueType != values[j'].valueType
    decreases |values|
  {
    if values != [] {
      var rest := values[1..];
      KnownTypesAre(rest);
      assert forall j | 1 <= j < |values| :: values[j] == rest[j - 1];
      assert forall j | 0 <= j < |rest| :: rest[j] == values[j + 1];
      var kr := KnownTypes(rest);
      if values[0].valueType != Unknown && kr.Only? && kr.t != values[0].valueType {
        var j :| 0 <= j < |rest| && rest[j].valueType == kr.t;
        assert values[j + 1].valueType == kr.t;
      }
      if kr.Several? {
        var j, j' :| 0 <= j < |rest| && 0 <= j' < |rest| &&
          rest[j].valueType != Unknown && rest[j'].valueType != Unknown && rest[j].valueType != rest[j'].valueType;
        assert values[j + 1] == rest[j] && values[j' + 1] == rest[j'];
      }
    }
  }

  /**
   * The phi type rule: a phi gets type t other than Unknown exactly when some merged value has
   * type t and every other merged value has type t or Unknown; otherwise it is Unknown.
   */
  lemma {:induction false} PhiTypeRule(values: seq<StackValue>, t: MjoType)
    requires t != Unknown
    ensures PhiType(values) == t <==>
      (exists j | 0 <= j < |values| :: values[j].valueType == t) &&
      forall j | 0 <= j < |values| :: values[j].valueType == t || values[j].valueType == Unknown
  {
    KnownTypesAre(values);
    var known := KnownTypes(values);
    if (exists j | 0 <= j < |values| :: values[j].valueType == t) &&
      forall j | 0 <= j < |values| :: values[j].valueType == t || values[j].valueType == Unknown
    {
      var j :| 0 <= j < |values| && values[j].valueType == t;
      if known.Only? {
        assert values[j].valueType == known.t;
      }
    }
  }

  /** The merge of slot i: nothing when every state holds the same value, else a phi. */
  function MergeSlot(id: BlockId, states: seq<seq<StackValue>>, i: nat): (r: Result<Option<StackValue>>)
    requires |states| > 0 && forall j | 0 <= j < |states| :: i < |states[j]|
  {
    var values := Column(states, i);
    if Agree(values) then Ok(None)
    else if !OneCategory(values) then Err(Thrown(MoreThanOne))
    else Ok(Some(StackValue(values[0].category, PhiType(values), Phi(id, i))))
  }

  /** The loop over the slots, from slot i. */
  function MergeFrom(id: BlockId, states: seq<seq<StackValue>>, i: nat, merged: seq<StackValue>, phis: seq<PhiInstruction>)
    : Result<(seq<StackValue>, seq<PhiInstruction>)>
    requires |states| > 0 && SameLengths(states) && |merged| == |states[0]| && i <= |merged|
    decreases |merged| - i
  {
    if i == |merged| then Ok((merged, phis))
    else
      match MergeSlot(id, states, i)
      case Err(e) => Err(e)
      case Ok(None) => MergeFrom(id, states, i + 1, merged, phis)
      case Ok(Some(v)) => MergeFrom(id, states, i + 1, merged[i := v], phis + [PhiInstruction(id, i)])
  }

  /**
   * `CheckStateCompatibility` with merging, for block id: the states that are set must be
   * there and of one height; one state is copied; otherwise each disagreeing slot gets a phi.
   */
  function Merge(id: BlockId, ws: seq<Option<seq<StackValue>>>): Result<(seq<StackValue>, seq<PhiInstruction>)> {
    var states := Present(ws);
    if |states| == 1 then Ok((states[0], []))
    else if |states| == 0 then Err(AssertFailed("states.Any()"))
    else if !SameLengths(states) then Err(AssertFailed("states.All(stack => stack.Length == states[0].Length)"))
    else if |states[0]| == 0 then Ok((states[0], []))
    else MergeFrom(id, states, 0, states[0], [])
  }

  /** `CheckStateCompatibility` without merging: the states that are set must be there and of one height. */
  function Compatible(ws: seq<Option<seq<StackValue>>>): Result<()> {
    var states := Present(ws);
    if |states| == 1 then Ok(())
    else if |states| == 0 then Err(AssertFailed("states.Any()"))
    else if !SameLengths(states) then Err(AssertFailed("states.All(stack => stack.Length == states[0].Length)"))
    else Ok(())
  }

  /** The check succeeds exactly when some state is set and all set states have one height. */
  lemma {:induction false} CompatibleIff(ws: seq<Option<seq<StackValue>>>)
    ensures Compatible(ws).Ok? <==>
      (exists j | 0 <= j < |ws| :: ws[j].Some?) &&
      forall j, j' | 0 <= j < |ws| && 0 <= j' < |ws| && ws[j].Some? && ws[j'].Some? :: |ws[j].value| == |ws[j'].value|
  {
    var states := Present(ws);
    if exists j | 0 <= j < |ws| :: ws[j].Some? {
      var j :| 0 <= j < |ws| && ws[j].Some?;
      assert ws[j].value in states;
    }
    if |states| > 0 {
      assert states[0] in states;
      var j0 :| 0 <= j0 < |ws| && ws[j0] == Some(states[0]);
      if SameLengths(states) {
        forall j | 0 <= j < |ws| && ws[j].Some? ensures |ws[j].value| == |states[0]| {
          assert ws[j].value in states;
        }
      } else {
        var x :| 0 <= x < |states| && |states[x]| != |states[0]|;
        assert states[x] in states;
        var j1 :| 0 <= j1 < |ws| && ws[j1] == Some(states[x]);
      }
    }
  }

  /** A disagreeing slot whose values have more than one category, which `Single` rejects. */
  predicate Clash(states: seq<seq<StackValue>>, x: nat)
    requires forall j | 0 <= j < |states| :: x < |states[j]|
  {
    !Agree(Column(states, x)) && !OneCategory(Column(states, x))
  }

  /**
   * What a merge of states of one height gives: an agreeing slot keeps the common value; a
   * disagreeing one becomes the block's phi for that slot, of the values' common category
   * and their phi type; and there is one phi node per disagreeing slot, and no other.
   */
  ghost predicate SlotsMerged(states: seq<seq<StackValue>>, id: BlockId, m: seq<StackValue>, ps: seq<PhiInstruction>)
    requires |states| > 0 && SameLengths(states)
  {
    |m| == |states[0]| &&
    (forall x | 0 <= x < |m| :: Agree(Column(states, x)) ==> m[x] == states[0][x]) &&
    (forall x | 0 <= x < |m| :: !Agree(Column(states, x)) ==>
      OneCategory(Column(states, x)) && m[x] == StackValue(states[0][x].category, PhiType(Column(states, x)), Phi(id, x))) &&
    (forall x | 0 <= x < |m| :: PhiInstruction(id, x) in ps <==> !Agree(Column(states, x))) &&
    (forall p | p in ps :: p.block == id && p.stackBaseOffset < |m|)
  }

  /** The values the slot loop leaves, from slot i on, while those slots still hold the first state's values. */
  ghost predicate ValuesFrom(states: seq<seq<StackValue>>, id: BlockId, i: nat, merged: seq<StackValue>, m: seq<StackValue>)
    requires |states| > 0 && SameLengths(states) && |merged| == |states[0]|
  {
    |m| == |merged| && (forall x | 0 <= x < i && x < |m| :: m[x] == merged[x]) &&
    (forall x | i <= x < |m| :: Agree(Column(states, x)) ==> m[x] == states[0][x]) &&
    (forall x | i <= x < |m| :: !Agree(Column(states, x)) ==>
      OneCategory(Column(states, x)) && m[x] == StackValue(states[0][x].category, PhiType(Column(states, x)), Phi(id, x)))
  }

  /** The phi nodes the slot loop adds from slot i on. */
  ghost predicate PhisFrom(states: seq<seq<StackValue>>, id: BlockId, i: nat, phis: seq<PhiInstruction>, ps: seq<PhiInstruction>)
    requires |states| > 0 && SameLengths(states)
  {
    |phis| <= |ps| && ps[..|phis|] == phis &&
    (forall x | i <= x < |states[0]| :: PhiInstruction(id, x) in ps[|phis|..] <==> !Agree(Column(states, x))) &&
    (forall p | p in ps[|phis|..] :: p.block == id && i <= p.stackBaseOffset < |states[0]|)
  }

  /** One slot's new value and phi list, as the slot loop's turn computes them. */
  function SlotTurn(id: BlockId, states: seq<seq<StackValue>>, i: nat, merged: seq<StackValue>, phis: seq<PhiInstruction>)
    : (seq<StackValue>, seq<PhiInstruction>)
    requires |states| > 0 && SameLengths(states) && |merged| == |states[0]| && i < |merged|
    requires MergeSlot(id, states, i).Ok?
  {
    match MergeSlot(id, states, i).value
    case None => (merged, phis)
    case Some(v) => (merged[i := v], phis + [PhiInstruction(id, i)])
  }

  lemma {:induction false} MergeFromValues(id: BlockId, states: seq<seq<StackValue>>, i: nat, merged: seq<StackValue>, phis: seq<PhiInstruction>)
    requires |states| > 0 && SameLengths(states) && |merged| == |states[0]| && i <= |merged|
    requires MergeFrom(id, states, i, merged, phis).Ok?
    requires forall x | i <= x < |merged| :: merged[x] == states[0][x]
    ensures ValuesFrom(states, id, i, merged, MergeFrom(id, states, i, merged, phis).value.0)
    decreases |merged| - i
  {
    if i < |merged| {
      var next := SlotTurn(id, states, i, merged, phis);
      assert MergeFrom(id, states, i, merged, phis) == MergeFrom(id, states, i + 1, next.0, next.1);
      MergeFromValues(id, states, i + 1, next.0, next.1);
    }
  }

  lemma {:induction false} MergeFromPhis(id: BlockId, states: seq<seq<StackValue>>, i: nat, merged: seq<StackValue>, phis: seq<PhiInstruction>)
    requires |states| > 0 && SameLengths(states) && |merged| == |states[0]| && i <= |merged|
    requires MergeFrom(id, states, i, merged, phis).Ok?
    ensures PhisFrom(states, id, i, phis, MergeFrom(id, states, i, merged, phis).value.1)
    decreases |merged| - i
  {
    var ps := MergeFrom(id, states, i, merged, phis).value.1;
    if i == |merged| {
      assert phis[..|phis|] == phis && phis[|phis|..] == [];
    } else {
      var next := SlotTurn(id, states, i, merged, phis);
      assert MergeFrom(id, states, i, merged, phis) == MergeFrom(id, states, i + 1, next.0, next.1);
      MergeFromPhis(id, states, i + 1, next.0, next.1);
      var added := ps[|phis|..];
      assert ps[..|phis|] == ps[..|next.1|][..|phis|];
      if MergeSlot(id, states, i).value.Some? {
        assert added == [PhiInstruction(id, i)] + ps[|next.1|..];
      } else {
        assert added == ps[|next.1|..];
      }
    }
  }

  /**
   * The merge of block id's incoming states. On success some state was set, every set state
   * has the height of the result, one state is taken as it is, and several are merged slot by
   * slot as `SlotsMerged` says.
   */
  lemma {:induction false} MergeMeets(id: BlockId, ws: seq<Option<seq<StackValue>>>)
    requires Merge(id, ws).Ok?
    ensures |Present(ws)| > 0
    ensures forall j | 0 <= j < |ws| && ws[j].Some? :: |ws[j].value| == |Merge(id, ws).value.0|
    ensures |Present(ws)| == 1 ==> Merge(id, ws).value == (Present(ws)[0], [])
    ensures |Present(ws)| >= 2 ==> (SameLengths(Present(ws)) &&
      SlotsMerged(Present(ws), id, Merge(id, ws).value.0, Merge(id, ws).value.1))
  {
    var states := Present(ws);
    var r := Merge(id, ws).value;
    forall j | 0 <= j < |ws| && ws[j].Some? ensures |ws[j].value| == |states[0]| {
      assert ws[j].value in states;
    }
    if |states| >= 2 {
      if |states[0]| > 0 {
        MergeFromValues(id, states, 0, states[0], []);
        MergeFromPhis(id, states, 0, states[0], []);
        assert r.1[0..] == r.1;
      }
    }
  }

  lemma {:induction false} MergeFromFails(id: BlockId, states: seq<seq<StackValue>>, i: nat, merged: seq<StackValue>, phis: seq<PhiInstruction>)
    requires |states| > 0 && SameLengths(states) && |merged| == |states[0]| && i <= |merged|
    ensures MergeFrom(id, states, i, merged, phis).Err? <==> exists x | i <= x < |merged| :: Clash(states, x)
    decreases |merged| - i
  {
    if i < |merged| {
      var slot := MergeSlot(id, states, i);
      if slot.Ok? {
        var merged', phis' := if slot.value.Some? then merged[i := slot.value.value] else merged,
          if slot.value.Some? then phis + [PhiInstruction(id, i)] else phis;
        MergeFromFails(id, states, i + 1, merged', phis');
        assert !Clash(states, i);
      } else {
        assert Clash(states, i);
      }
    }
  }

  /**
   * The merge fails exactly when no state is set, or when several are and they differ in
   * height or have a disagreeing slot whose values differ in category.
   */
  lemma {:induction false} MergeFails(id: BlockId, ws: seq<Option<seq<StackValue>>>)
    ensures Merge(id, ws).Err? <==>
      |Present(ws)| == 0 ||
      (|Present(ws)| >= 2 && (!SameLengths(Present(ws)) || exists x | 0 <= x < |Present(ws)[0]| :: Clash(Present(ws), x)))
  {
    var states := Present(ws);
    if |states| >= 2 && SameLengths(states) && |states[0]| > 0 {
      MergeFromFails(id, states, 0, states[0], []);
    }
  }

  /** `Present` of one more state. */
  lemma {:induction false} PresentSnoc(ws: seq<Option<seq<StackValue>>>, w: Option<seq<StackValue>>)
    ensures Present(ws + [w]) == Present(ws) + (if w.Some? then [w.value] else [])
    decreases |ws|
  {
    if ws == [] {
      assert ws + [w] == [w] && [w][1..] == [];
    } else {
      assert (ws + [w])[1..] == ws[1..] + [w];
      PresentSnoc(ws[1..], w);
    }
  }

  /** `CheckStateCompatibility`, with its loops: merging for a block's start state, checking only otherwise. */
  method CheckStateCompatibility(id: BlockId, statesWithNull: seq<Option<seq<StackValue>>>, merge: bool)
    returns (r: Result<(seq<StackValue>, seq<PhiInstruction>)>)
    ensures merge ==> r == Merge(id, statesWithNull)
    ensures !merge ==> (r.Ok? <==> Compatible(statesWithNull).Ok?) && (r.Err? ==> Compatible(statesWithNull) == Err(r.error))
  {
    var states := [];
    for i := 0 to |statesWithNull|
      invariant states == Present(statesWithNull[..i])
    {
      PresentSnoc(statesWithNull[..i], statesWithNull[i]);
      assert statesWithNull[..i + 1] == statesWithNull[..i] + [statesWithNull[i]];
      if statesWithNull[i].Some? {
        states := states + [statesWithNull[i].value];
      }
    }
    assert statesWithNull[..|statesWithNull|] == statesWithNull;
    if |states| == 1 {
      return Ok((states[0], []));
    }
    if |states| == 0 {
      return Err(AssertFailed("states.Any()"));
    }
    if !SameLengths(states) {
      return Err(AssertFailed("states.All(stack => stack.Length == states[0].Length)"));
    }
    if !merge {
      return Ok(([], []));
    }
    if |states[0]| == 0 {
      return Ok((states[0], []));
    }
    var merged := states[0];
    var phis := [];
    for i := 0 to |merged|
      invariant |merged| == |states[0]|
      invariant MergeFrom(id, states, i, merged, phis) == MergeFrom(id, states, 0, states[0], [])
    {
      var slot := MergeSlot(id, states, i);
      if slot.Err? {
        return Err(slot.error);
      }
      if slot.value.Some? {
        merged := merged[i := slot.value.value];
        phis := phis + [PhiInstruction(id, i)];
      }
    }
    return Ok((merged, phis));
  }

  // ---------------------------------------------------------------------------------------
  // InitStartState

  /** The end states of some blocks of the arena, in order. */
  function EndStates(arena: seq<BasicBlock>, ids: seq<BlockId>): (r: seq<Option<seq<StackValue>>>)
    requires InArena(ids, |arena|)
    ensures |r| == |ids| && forall j | 0 <= j < |ids| :: r[j] == arena[ids[j]].endState
  {
    seq(|ids|, j requires 0 <= j < |ids| => arena[ids[j]].endState)
  }

  /** The start states of some blocks of the arena, in order. */
  function StartStates(arena: seq<BasicBlock>, ids: seq<BlockId>): (r: seq<Option<seq<StackValue>>>)
    requires InArena(ids, |arena|)
    ensures |r| == |ids| && forall j | 0 <= j < |ids| :: r[j] == arena[ids[j]].startState
  {
    seq(|ids|, j requires 0 <= j < |ids| => arena[ids[j]].startState)
  }

  /** The edge lists of every block name blocks of the arena. */
  predicate Linked(arena: seq<BasicBlock>) {
    forall k | 0 <= k < |arena| :: InArena(arena[k].predecessors, |arena|) && InArena(arena[k].successors, |arena|)
  }

  /**
   * `InitStartState`: an entry with no predecessors starts empty; a block with one starts
   * from its end state, which must be known; a block with several merges theirs.
   */
  function StartState(arena: seq<BasicBlock>, id: BlockId): Result<(seq<StackValue>, seq<PhiInstruction>)>
    requires id < |arena| && Linked(arena)
  {
    var preds := arena[id].predecessors;
    if |preds| == 0 then Ok(([], []))
    else if |preds| == 1 then
      match arena[preds[0]].endState
      case None => Err(Thrown(PredecessorUnknown))
      case Some(s) => Ok((s, []))
    else Merge(id, EndStates(arena, preds))
  }

  method InitStartState(arena: seq<BasicBlock>, id: BlockId) returns (r: Result<(seq<StackValue>, seq<PhiInstruction>)>)
    requires id < |arena| && Linked(arena)
    ensures r == StartState(arena, id)
  {
    var preds := arena[id].predecessors;
    if |preds| == 0 {
      return Ok(([], []));
    }
    if |preds| == 1 {
      var s := arena[preds[0]].endState;
      if s.None? {
        return Err(Thrown(PredecessorUnknown));
      }
      return Ok((s.value, []));
    }
    r := CheckStateCompatibility(id, EndStates(arena, preds), true);
  }

  // ---------------------------------------------------------------------------------------
  // The blocks of a function

  /** The instruction loop of a block, from its k-th instruction: the simulated instructions and the end state. */
  function RunFrom(instructions: seq<Instruction>, id: BlockId, k: nat, stack: seq<StackValue>, done: seq<Instruction>)
    : Result<(seq<Instruction>, seq<StackValue>)>
    requires k <= |instructions|
    decreases |instructions| - k
  {
    if k == |instructions| then Ok((done, stack))
    else
      var ins := instructions[k];
      if ins.beforeValues.Some? then Err(AssertFailed("instruction.BeforeValues == null"))
      else
        match Transition(stack, ins.(beforeValues := Some(stack)), id, k)
        case Err(e) => Err(e)
        case Ok(step) => RunFrom(instructions, id, k + 1, step.stack, done + [step.instruction])
  }

  /**
   * The turn of `ToSsaGraph(Function)` for block id: its start state and phi nodes, its
   * instructions simulated, its end state, and the check that the end state fits the start
   * states its successors already have.
   */
  function BlockSimulated(arena: seq<BasicBlock>, id: BlockId): Result<seq<BasicBlock>>
    requires id < |arena| && Linked(arena)
  {
    var b := arena[id];
    match StartState(arena, id)
    case Err(e) => Err(e)
    case Ok((start, phis)) =>
      match RunFrom(b.instructions, id, 0, start, [])
      case Err(e) => Err(e)
      case Ok((done, end)) =>
        var a := arena[id := b.(instructions := done, phiNodes := Some(phis), startState := Some(start), endState := Some(end))];
        match Compatible([Some(end)] + StartStates(a, b.successors))
        case Err(e) => Err(e)
        case Ok(_) => Ok(a)
  }

  /**
   * The turn of `ToSsaGraph(Function)` for block id as written: the loop that prints the
   * block's phi nodes runs whatever `Verbose` says, and the print reads the `BeforeValues` of
   * each phi node, which no phi node is ever given, so a turn with a phi node throws there.
   */
  function BlockSimulatedAsWritten(arena: seq<BasicBlock>, id: BlockId): Result<seq<BasicBlock>>
    requires id < |arena| && Linked(arena)
  {
    match StartState(arena, id)
    case Err(e) => Err(e)
    case Ok((_, phis)) => if |phis| > 0 then Err(Thrown(NullReference)) else BlockSimulated(arena, id)
  }

  /**
   * A block whose predecessors' end states merge with a disagreeing slot x gets a phi node for
   * x, so its turn as written throws, whatever else the block holds.
   */
  lemma PhiPrintThrows(arena: seq<BasicBlock>, id: BlockId, x: nat)
    requires id < |arena| && Linked(arena) && |arena[id].predecessors| >= 2
    requires Merge(id, EndStates(arena, arena[id].predecessors)).Ok?
    requires |Present(EndStates(arena, arena[id].predecessors))| >= 2
    requires SameLengths(Present(EndStates(arena, arena[id].predecessors)))
    requires x < |Present(EndStates(arena, arena[id].predecessors))[0]|
    requires !Agree(Column(Present(EndStates(arena, arena[id].predecessors)), x))
    ensures StartState(arena, id).Ok? && PhiInstruction(id, x) in StartState(arena, id).value.1
    ensures BlockSimulatedAsWritten(arena, id) == Err(Thrown(NullReference))
  {
    MergeMeets(id, EndStates(arena, arena[id].predecessors));
  }

  /**
   * The turn as intended keeps what the merge made of a disagreeing slot x: when the turn
   * succeeds, the block's phi nodes include the one for x, and slot x of its start state is
   * that phi's value, of the slot's common category.
   */
  lemma PhiMergeKept(arena: seq<BasicBlock>, id: BlockId, x: nat)
    requires id < |arena| && Linked(arena) && |arena[id].predecessors| >= 2
    requires Merge(id, EndStates(arena, arena[id].predecessors)).Ok?
    requires |Present(EndStates(arena, arena[id].predecessors))| >= 2
    requires SameLengths(Present(EndStates(arena, arena[id].predecessors)))
    requires x < |Present(EndStates(arena, arena[id].predecessors))[0]|
    requires !Agree(Column(Present(EndStates(arena, arena[id].predecessors)), x))
    requires BlockSimulated(arena, id).Ok?
    ensures var b := BlockSimulated(arena, id).value[id];
      b.phiNodes.Some? && PhiInstruction(id, x) in b.phiNodes.value &&
      b.startState.Some? && x < |b.startState.value| && b.startState.value[x].origin == Phi(id, x) &&
      b.startState.value[x].category == Present(EndStates(arena, arena[id].predecessors))[0][x].category
  {
    MergeMeets(id, EndStates(arena, arena[id].predecessors));
  }

  /** The block in control-flow form: no stack states, no phi nodes, no stack values on its instructions. */
  function Stripped(b: BasicBlock): BasicBlock {
    b.(instructions := StripAll(b.instructions), phiNodes := None, startState := None, endState := None)
  }

  function Strip(ins: Instruction): Instruction {
    ins.(beforeValues := None, poppedValues := None, pushedValues := None)
  }

  function StripAll(s: seq<Instruction>): (r: seq<Instruction>)
    ensures |r| == |s| && forall j | 0 <= j < |s| :: r[j] == Strip(s[j])
  {
    seq(|s|, j requires 0 <= j < |s| => Strip(s[j]))
  }

  /** Two arenas that differ at most in stack states, phi nodes and instructions' stack values. */
  predicate SameShape(a: seq<BasicBlock>, b: seq<BasicBlock>) {
    |a| == |b| && forall x | 0 <= x < |a| :: Stripped(a[x]) == Stripped(b[x])
  }

  /** An instruction as the simulation leaves it: its stack values all recorded. */
  predicate Simulated(ins: Instruction) {
    ins.beforeValues.Some? && ins.poppedValues.Some? && ins.pushedValues.Some?
  }

  /** The instruction loop's output from k on: the input's instructions, each with its stack values recorded. */
  predicate RanAs(instructions: seq<Instruction>, k: nat, done: seq<Instruction>, out: seq<Instruction>) {
    k <= |instructions| && |out| == |instructions| && k <= |out| && out[..k] == done &&
    forall j | k <= j < |instructions| :: Strip(out[j]) == Strip(instructions[j]) && Simulated(out[j])
  }

  lemma {:induction false} RunFromShape(instructions: seq<Instruction>, id: BlockId, k: nat, stack: seq<StackValue>, done: seq<Instruction>)
    requires k <= |instructions| && |done| == k && RunFrom(instructions, id, k, stack, done).Ok?
    ensures RanAs(instructions, k, done, RunFrom(instructions, id, k, stack, done).value.0)
    decreases |instructions| - k
  {
    var out := RunFrom(instructions, id, k, stack, done).value.0;
    if k == |instructions| {
      assert done[..|done|] == done;
    } else {
      var ins := instructions[k];
      var step := Transition(stack, ins.(beforeValues := Some(stack)), id, k).value;
      assert out == RunFrom(instructions, id, k + 1, step.stack, done + [step.instruction]).value.0;
      RunFromShape(instructions, id, k + 1, step.stack, done + [step.instruction]);
      StripTransition(stack, ins, id, k);
      RanAsStep(instructions, k, done, step.instruction, out);
    }
  }

  /** One more instruction, recorded with its stack values, extends what the loop ran. */
  lemma RanAsStep(instructions: seq<Instruction>, k: nat, done: seq<Instruction>, x: Instruction, out: seq<Instruction>)
    requires k < |instructions| && RanAs(instructions, k + 1, done + [x], out)
    requires Strip(x) == Strip(instructions[k]) && Simulated(x)
    ensures RanAs(instructions, k, done, out)
  {
    assert out[..k] == out[..k + 1][..k];
    assert out[k] == out[..k + 1][k] == x;
  }

  lemma {:induction false} StripTransition(stack: seq<StackValue>, ins: Instruction, id: BlockId, k: nat)
    requires Transition(stack, ins.(beforeValues := Some(stack)), id, k).Ok?
    ensures Strip(Transition(stack, ins.(beforeValues := Some(stack)), id, k).value.instruction) == Strip(ins)
    ensures Simulated(Transition(stack, ins.(beforeValues := Some(stack)), id, k).value.instruction)
  {
    TransitionPops(stack, ins.(beforeValues := Some(stack)), id, k);
  }

  /** Simulating a block changes only that block, and only its stack states, phi nodes and stack values. */
  lemma {:induction false} BlockShape(arena: seq<BasicBlock>, id: BlockId)
    requires id < |arena| && Linked(arena) && BlockSimulated(arena, id).Ok?
    ensures SameShape(BlockSimulated(arena, id).value, arena)
    ensures forall x | 0 <= x < |arena| && x != id :: BlockSimulated(arena, id).value[x] == arena[x]
  {
    var b := arena[id];
    var start := StartState(arena, id).value.0;
    RunFromShape(b.instructions, id, 0, start, []);
    var done := RunFrom(b.instructions, id, 0, start, []).value.0;
    assert StripAll(done) == StripAll(b.instructions);
  }

  lemma {:induction false} ShapeLinked(a: seq<BasicBlock>, b: seq<BasicBlock>)
    requires SameShape(a, b) && Linked(b)
    ensures Linked(a)
  {
    forall x | 0 <= x < |a| ensures a[x].successors == b[x].successors && a[x].predecessors == b[x].predecessors {
      assert Stripped(a[x]) == Stripped(b[x]);
    }
  }

  /** The block loop of `ToSsaGraph(Function)`, from the j-th block of the pre-order. */
  function BlocksSimulated(arena: seq<BasicBlock>, order: seq<BlockId>, j: nat): (r: Result<seq<BasicBlock>>)
    requires Linked(arena) && InArena(order, |arena|) && j <= |order|
    ensures r.Ok? ==> SameShape(r.value, arena)
    decreases |order| - j
  {
    if j == |order| then Ok(arena)
    else
      match BlockSimulated(arena, order[j])
      case Err(e) => Err(e)
      case Ok(a) =>
        BlockShape(arena, order[j]);
        ShapeLinked(a, arena);
        BlocksSimulated(a, order, j + 1)
  }

  /** The successor lists the pre-order walk follows. */
  function Successors(arena: seq<BasicBlock>): BlockId -> seq<BlockId> {
    (id: BlockId) => if id < |arena| then arena[id].successors else []
  }

  /**
   * `ToSsaGraph(Function)`: the function's blocks in pre-order along successor edges, each
   * simulated in turn. The function's own block list keeps its order (the walk sorts a copy).
   * A block id outside the arena, which object references cannot express, throws as an index
   * out of range.
   */
  function SsaFunction(f: Function): Result<Function> {
    if f.blocks.None? then Err(Thrown(NullReference))
    else if !InArena(f.blocks.value, |f.arena|) || !Linked(f.arena) then Err(Thrown(IndexOutOfRange))
    else if !Distinct(f.blocks.value) then Err(Thrown(DuplicateKey))
    else
      var walk := Sorts.PreOrder(f.blocks.value, Successors(f.arena));
      if walk.error.Some? then Err(walk.error.value)
      else
        Sorts.PreOrderPermutes(f.blocks.value, Successors(f.arena));
        PermutedInArena(f.blocks.value, walk.out, |f.arena|);
        match BlocksSimulated(f.arena, walk.out, 0)
        case Err(e) => Err(e)
        case Ok(a) => Ok(f.(arena := a))
  }

  lemma {:induction false} PermutedInArena(ids: seq<BlockId>, order: seq<BlockId>, size: nat)
    requires InArena(ids, size) && multiset(order) == multiset(ids)
    ensures InArena(order, size)
  {
    forall k | 0 <= k < |order| ensures order[k] < size {
      assert order[k] in multiset(order);
      assert order[k] in ids;
    }
  }

  /** The instruction loop of a block's turn, from its start state. */
  method RunInstructions(instructions: seq<Instruction>, id: BlockId, start: seq<StackValue>)
    returns (r: Result<(seq<Instruction>, seq<StackValue>)>)
    ensures r == RunFrom(instructions, id, 0, start, [])
  {
    var state := start;
    var done := [];
    for k := 0 to |instructions|
      invariant RunFrom(instructions, id, k, state, done) == RunFrom(instructions, id, 0, start, [])
    {
      var ins := instructions[k];
      if ins.beforeValues.Some? {
        return Err(AssertFailed("instruction.BeforeValues == null"));
      }
      var step := SimulateTransition(state, ins.(beforeValues := Some(state)), id, k);
      if step.Err? {
        return Err(step.error);
      }
      state, done := step.value.stack, done + [step.value.instruction];
    }
    return Ok((done, state));
  }

  /** The turn of `ToSsaGraph(Function)` for one block. */
  method SimulateBlock(arena: seq<BasicBlock>, id: BlockId) returns (r: Result<seq<BasicBlock>>)
    requires id < |arena| && Linked(arena)
    ensures r == BlockSimulated(arena, id)
  {
    var start := InitStartState(arena, id);
    if start.Err? {
      return Err(start.error);
    }
    var block := arena[id];
    var ran := RunInstructions(block.instructions, id, start.value.0);
    if ran.Err? {
      return Err(ran.error);
    }
    var a := arena[id := block.(instructions := ran.value.0, phiNodes := Some(start.value.1),
                                 startState := Some(start.value.0), endState := Some(ran.value.1))];
    var check := CheckStateCompatibility(id, [Some(ran.value.1)] + StartStates(a, block.successors), false);
    if check.Err? {
      return Err(check.error);
    }
    return Ok(a);
  }

  /** `ToSsaGraph(Function)`, with its loop over the blocks. */
  method ToSsaGraphFunction(f: Function) returns (r: Result<Function>)
    ensures r == SsaFunction(f)
  {
    if f.blocks.None? {
      return Err(Thrown(NullReference));
    }
    if !InArena(f.blocks.value, |f.arena|) || !Linked(f.arena) {
      return Err(Thrown(IndexOutOfRange));
    }
    var blocks := new Sorts.NodeList(f.blocks.value);
    var sorted := blocks.PreOrderSort(Successors(f.arena));
    if sorted.Err? {
      return Err(sorted.error);
    }
    var order := blocks.items;
    Sorts.PreOrderPermutes(f.blocks.value, Successors(f.arena));
    PermutedInArena(f.blocks.value, order, |f.arena|);
    var arena := f.arena;
    for j := 0 to |order|
      invariant Linked(arena) && |arena| == |f.arena|
      invariant BlocksSimulated(arena, order, j) == BlocksSimulated(f.arena, order, 0)
    {
      var next := SimulateBlock(arena, order[j]);
      if next.Err? {
        return Err(next.error);
      }
      BlockShape(arena, order[j]);
      ShapeLinked(next.value, arena);
      arena := next.value;
    }
    return Ok(f.(arena := arena));
  }

  // ---------------------------------------------------------------------------------------
  // What the simulation leaves behind

  /** A block in SSA form: its stack states and phi nodes known, every instruction simulated. */
  predicate BlockInSsa(b: BasicBlock) {
    b.startState.Some? && b.endState.Some? && b.phiNodes.Some? &&
    forall j | 0 <= j < |b.instructions| :: Simulated(b.instructions[j])
  }

  /** The block a turn simulates is left in SSA form. */
  lemma {:induction false} BlockSets(arena: seq<BasicBlock>, id: BlockId)
    requires id < |arena| && Linked(arena) && BlockSimulated(arena, id).Ok?
    ensures BlockInSsa(BlockSimulated(arena, id).value[id])
  {
    var b := arena[id];
    var start := StartState(arena, id).value.0;
    RunFromShape(b.instructions, id, 0, start, []);
  }

  /** One turn of the block loop: block order[j] is simulated, and nothing but it changes. */
  lemma {:induction false} BlocksStep(arena: seq<BasicBlock>, order: seq<BlockId>, j: nat)
    requires Linked(arena) && InArena(order, |arena|) && j < |order| && BlocksSimulated(arena, order, j).Ok?
    ensures BlockSimulated(arena, order[j]).Ok?
    ensures Linked(BlockSimulated(arena, order[j]).value) && |BlockSimulated(arena, order[j]).value| == |arena|
    ensures BlocksSimulated(arena, order, j) == BlocksSimulated(BlockSimulated(arena, order[j]).value, order, j + 1)
    ensures BlockInSsa(BlockSimulated(arena, order[j]).value[order[j]])
    ensures forall x | 0 <= x < |arena| && x != order[j] :: BlockSimulated(arena, order[j]).value[x] == arena[x]
  {
    BlockShape(arena, order[j]);
    BlockSets(arena, order[j]);
    ShapeLinked(BlockSimulated(arena, order[j]).value, arena);
  }

  /** The block loop from j leaves every block not listed from j on as it was. */
  lemma {:induction false} BlocksKeep(arena: seq<BasicBlock>, order: seq<BlockId>, j: nat)
    requires Linked(arena) && InArena(order, |arena|) && j <= |order| && BlocksSimulated(arena, order, j).Ok?
    ensures forall x | 0 <= x < |arena| && x !in order[j..] :: BlocksSimulated(arena, order, j).value[x] == arena[x]
    decreases |order| - j
  {
    if j < |order| {
      BlocksStep(arena, order, j);
      var a := BlockSimulated(arena, order[j]).value;
      BlocksKeep(a, order, j + 1);
      var r := BlocksSimulated(a, order, j + 1).value;
      forall x | 0 <= x < |arena| && x !in order[j..] ensures r[x] == arena[x] {
        assert x != order[j] by { assert order[j] == order[j..][0]; }
      }
    }
  }

  /** After the block loop from j, every block listed from j on is in SSA form. */
  lemma {:induction false} BlocksSets(arena: seq<BasicBlock>, order: seq<BlockId>, j: nat)
    requires Linked(arena) && InArena(order, |arena|) && j <= |order| && BlocksSimulated(arena, order, j).Ok?
    ensures forall x | 0 <= x < |arena| && x in order[j..] :: BlockInSsa(BlocksSimulated(arena, order, j).value[x])
    decreases |order| - j
  {
    if j < |order| {
      BlocksStep(arena, order, j);
      var a := BlockSimulated(arena, order[j]).value;
      BlocksSets(a, order, j + 1);
      BlocksKeep(a, order, j + 1);
      SetsCombine(a, BlocksSimulated(a, order, j + 1).value, order, j);
    }
  }

  /**
   * Blocks order[j + 1..] are in SSA form after the rest of the loop, which leaves the others
   * as turn j left them, with block order[j] in SSA form: then all of order[j..] are.
   */
  lemma SetsCombine(a: seq<BasicBlock>, r: seq<BasicBlock>, order: seq<BlockId>, j: nat)
    requires j < |order| && order[j] < |a| == |r| && BlockInSsa(a[order[j]])
    requires forall x | 0 <= x < |a| && x in order[j + 1..] :: BlockInSsa(r[x])
    requires forall x | 0 <= x < |a| && x !in order[j + 1..] :: r[x] == a[x]
    ensures forall x | 0 <= x < |a| && x in order[j..] :: BlockInSsa(r[x])
  {
    forall x | 0 <= x < |a| && x in order[j..] ensures BlockInSsa(r[x]) {
      if x !in order[j + 1..] {
        assert x == order[j] by { assert order[j..] == [order[j]] + order[j + 1..]; }
      }
    }
  }

  /**
   * `ToSsaGraph(Function)` changes only the function's blocks: their edges and instructions
   * stay, every listed block ends in SSA form with each instruction's stack values recorded,
   * and a block the function does not list is untouched.
   */
  lemma {:induction false} SsaShape(f: Function)
    requires SsaFunction(f).Ok?
    ensures f.blocks.Some? && InArena(f.blocks.value, |f.arena|)
    ensures SsaFunction(f).value == f.(arena := SsaFunction(f).value.arena)
    ensures SameShape(SsaFunction(f).value.arena, f.arena)
    ensures forall k | 0 <= k < |f.blocks.value| :: BlockInSsa(SsaFunction(f).value.arena[f.blocks.value[k]])
    ensures forall x | 0 <= x < |f.arena| && x !in f.blocks.value :: SsaFunction(f).value.arena[x] == f.arena[x]
  {
    var ids := f.blocks.value;
    var walk := Sorts.PreOrder(ids, Successors(f.arena));
    Sorts.PreOrderPermutes(ids, Successors(f.arena));
    PermutedInArena(ids, walk.out, |f.arena|);
    BlocksSets(f.arena, walk.out, 0);
    BlocksKeep(f.arena, walk.out, 0);
    assert walk.out[0..] == walk.out;
    forall x ensures x in ids <==> x in walk.out {
      assert x in multiset(ids) <==> x in multiset(walk.out);
    }
  }

  /** With its type lists set, a function `ToSsaGraph` succeeds on passes the SSA form's `SanityCheck`. */
  lemma {:induction false} SsaSane(f: Function)
    requires SsaFunction(f).Ok? && f.parameterTypes.Some? && f.localTypes.Some?
    ensures FunctionSanityCheck(SsaFunction(f).value, SsaGraph).Ok?
  {
    SsaShape(f);
    var g := SsaFunction(f).value;
    var _ := BlocksSanityCheck(g.arena, g.blocks.value, SsaGraph, 0);
  }

  // ---------------------------------------------------------------------------------------
  // Stack heights along edges

  /** Both ends of the edge x -> s have stack states, and the end state of x has the height of the start state of s. */
  predicate EdgeBalanced(a: seq<BasicBlock>, x: BlockId, s: BlockId)
    requires x < |a| && s < |a|
  {
    a[x].endState.Some? && a[s].startState.Some? && |a[x].endState.value| == |a[s].startState.value|
  }

  /** Midway through the block loop: exactly the blocks in done have stack states, and every edge between two of them is balanced. */
  ghost predicate Balanced(a: seq<BasicBlock>, done: set<BlockId>) {
    (forall y | 0 <= y < |a| :: (y in done <==> a[y].startState.Some?) && (y in done <==> a[y].endState.Some?)) &&
    forall x, s | 0 <= x < |a| && 0 <= s < |a| && x in done && s in done && s in a[x].successors :: EdgeBalanced(a, x, s)
  }

  lemma {:induction false} ShapeSymmetric(a: seq<BasicBlock>, b: seq<BasicBlock>)
    requires SameShape(a, b) && FunctionAnalysis.Symmetric(b)
    ensures FunctionAnalysis.Symmetric(a)
  {
    forall x | 0 <= x < |a| ensures a[x].successors == b[x].successors && a[x].predecessors == b[x].predecessors {
      assert Stripped(a[x]) == Stripped(b[x]);
    }
  }

  /** The parts of a block's turn: its start state, its end state, and the check against its successors. */
  lemma {:induction false} BlockParts(arena: seq<BasicBlock>, id: BlockId)
    requires id < |arena| && Linked(arena) && BlockSimulated(arena, id).Ok?
    ensures StartState(arena, id).Ok?
    ensures |BlockSimulated(arena, id).value| == |arena|
    ensures BlockSimulated(arena, id).value[id].startState == Some(StartState(arena, id).value.0)
    ensures BlockSimulated(arena, id).value[id].endState.Some?
    ensures BlockSimulated(arena, id).value[id].successors == arena[id].successors
    ensures InArena(arena[id].successors, |BlockSimulated(arena, id).value|)
    ensures Compatible([BlockSimulated(arena, id).value[id].endState] +
      StartStates(BlockSimulated(arena, id).value, arena[id].successors)).Ok?
  {
  }

  /** The edges out of a simulated block are balanced with every successor that has a start state. */
  lemma {:induction false} BalancedOut(arena: seq<BasicBlock>, id: BlockId, s: BlockId)
    requires id < |arena| && Linked(arena) && BlockSimulated(arena, id).Ok?
    requires s < |arena| && s in arena[id].successors && BlockSimulated(arena, id).value[s].startState.Some?
    ensures EdgeBalanced(BlockSimulated(arena, id).value, id, s)
  {
    BlockParts(arena, id);
    var a := BlockSimulated(arena, id).value;
    var succ := arena[id].successors;
    var ws := [a[id].endState] + StartStates(a, succ);
    CompatibleIff(ws);
    var m :| 0 <= m < |succ| && succ[m] == s;
    assert ws[m + 1] == a[s].startState;
    assert ws[0] == a[id].endState;
  }

  /** The edge into a simulated block from a predecessor with an end state is balanced. */
  lemma {:induction false} BalancedIn(arena: seq<BasicBlock>, id: BlockId, x: BlockId)
    requires id < |arena| && Linked(arena) && BlockSimulated(arena, id).Ok?
    requires x < |arena| && x != id && x in arena[id].predecessors && arena[x].endState.Some?
    ensures EdgeBalanced(BlockSimulated(arena, id).value, x, id)
  {
    BlockParts(arena, id);
    BlockShape(arena, id);
    StartMeets(arena, id, x);
  }

  /** A block's start state is as deep as the end state of each predecessor that has one. */
  lemma {:induction false} StartMeets(arena: seq<BasicBlock>, id: BlockId, x: BlockId)
    requires id < |arena| && Linked(arena) && StartState(arena, id).Ok?
    requires x < |arena| && x in arena[id].predecessors && arena[x].endState.Some?
    ensures |arena[x].endState.value| == |StartState(arena, id).value.0|
  {
    var preds := arena[id].predecessors;
    if |preds| >= 2 {
      var ws := EndStates(arena, preds);
      MergeMeets(id, ws);
      var m :| 0 <= m < |preds| && preds[m] == x;
      assert ws[m] == arena[x].endState;
    }
  }

  /** One turn of the block loop keeps the edges balanced, counting the block it simulates as done. */
  lemma {:induction false} BalancedStep(arena: seq<BasicBlock>, done: set<BlockId>, id: BlockId)
    requires id < |arena| && Linked(arena) && FunctionAnalysis.Symmetric(arena)
    requires Balanced(arena, done) && id !in done && BlockSimulated(arena, id).Ok?
    ensures Balanced(BlockSimulated(arena, id).value, done + {id})
  {
    var a := BlockSimulated(arena, id).value;
    BlockShape(arena, id);
    BlockParts(arena, id);
    ShapeLinked(a, arena);
    forall x, s | 0 <= x < |a| && 0 <= s < |a| && x in done + {id} && s in done + {id} && s in a[x].successors
      ensures EdgeBalanced(a, x, s)
    {
      assert Stripped(a[x]) == Stripped(arena[x]);
      if x == id {
        BalancedOut(arena, id, s);
      } else if s == id {
        BalancedIn(arena, id, x);
      } else {
        assert EdgeBalanced(arena, x, s);
      }
    }
  }

  /** The blocks listed from j on. */
  function Listed(order: seq<BlockId>, j: nat): (r: set<BlockId>)
    ensures forall x :: x in r <==> exists m | j <= m < |order| :: order[m] == x
  {
    set m | j <= m < |order| :: order[m]
  }

  /** The block loop from j, over blocks listed once and not yet done, keeps the edges balanced. */
  lemma {:induction false} BlocksBalanced(arena: seq<BasicBlock>, order: seq<BlockId>, j: nat, done: set<BlockId>)
    requires Linked(arena) && FunctionAnalysis.Symmetric(arena) && InArena(order, |arena|) && j <= |order|
    requires Distinct(order) && (forall m | j <= m < |order| :: order[m] !in done)
    requires Balanced(arena, done) && BlocksSimulated(arena, order, j).Ok?
    ensures Balanced(BlocksSimulated(arena, order, j).value, done + Listed(order, j))
    decreases |order| - j
  {
    if j == |order| {
      assert Listed(order, j) == {};
    } else {
      BlocksStep(arena, order, j);
      var a := BlockSimulated(arena, order[j]).value;
      BlockShape(arena, order[j]);
      ShapeSymmetric(a, arena);
      BalancedStep(arena, done, order[j]);
      BlocksBalanced(a, order, j + 1, done + {order[j]});
      assert done + {order[j]} + Listed(order, j + 1) == done + Listed(order, j);
    }
  }

  /** The block loop over the pre-order, started with no stack states, leaves exactly the listed blocks with balanced states. */
  lemma {:induction false} SsaBalanced(f: Function)
    requires SsaFunction(f).Ok? && FunctionAnalysis.Symmetric(f.arena)
    requires forall y | 0 <= y < |f.arena| :: f.arena[y].startState.None? && f.arena[y].endState.None?
    ensures f.blocks.Some? && Balanced(SsaFunction(f).value.arena, Listed(f.blocks.value, 0))
  {
    var ids := f.blocks.value;
    var walk := Sorts.PreOrder<BlockId>(ids, Successors(f.arena));
    Sorts.PreOrderPermutes<BlockId>(ids, Successors(f.arena));
    PermutedInArena(ids, walk.out, |f.arena|);
    assert Balanced(f.arena, {});
    BlocksBalanced(f.arena, walk.out, 0, {});
    ListedPermuted(ids, walk.out);
  }

  /** Two orders of the same blocks list the same set. */
  lemma ListedPermuted(ids: seq<BlockId>, order: seq<BlockId>)
    requires multiset(order) == multiset(ids)
    ensures Listed(ids, 0) == {} + Listed(order, 0)
  {
    forall x ensures x in Listed(ids, 0) <==> x in Listed(order, 0) {
      assert x in multiset(ids) <==> x in multiset(order);
    }
  }

  /** The pre-order walk succeeded, so every successor of a listed block is listed. */
  lemma {:induction false} SsaClosed(f: Function)
    requires SsaFunction(f).Ok?
    ensures f.blocks.Some? && Sorts.Closed(f.blocks.value, Successors(f.arena))
  {
    Sorts.PreOrderPermutes<BlockId>(f.blocks.value, Successors(f.arena));
  }

  /**
   * From a control flow graph whose edges are recorded both ways and whose blocks have no stack
   * states yet, `ToSsaGraph(Function)` leaves every edge out of a listed block leading to a
   * listed block, with the end state of the one as high as the start state of the other.
   */
  lemma {:induction false} EdgesBalanced(f: Function)
    requires SsaFunction(f).Ok? && FunctionAnalysis.Symmetric(f.arena)
    requires forall y | 0 <= y < |f.arena| :: f.arena[y].startState.None? && f.arena[y].endState.None?
    ensures f.blocks.Some? && |SsaFunction(f).value.arena| == |f.arena|
    ensures forall k, s | 0 <= k < |f.blocks.value| && f.blocks.value[k] < |f.arena| && s in SsaFunction(f).value.arena[f.blocks.value[k]].successors ::
      s < |f.arena| && s in f.blocks.value && EdgeBalanced(SsaFunction(f).value.arena, f.blocks.value[k], s)
  {
    var ids := f.blocks.value;
    var g := SsaFunction(f).value;
    SsaShape(f);
    SsaClosed(f);
    SsaBalanced(f);
    forall k, s | 0 <= k < |ids| && ids[k] < |f.arena| && s in g.arena[ids[k]].successors
      ensures s < |f.arena| && s in ids && EdgeBalanced(g.arena, ids[k], s)
    {
      assert Stripped(g.arena[ids[k]]) == Stripped(f.arena[ids[k]]);
      assert s in Successors(f.arena)(ids[k]);
      assert s in ids;
      assert ids[k] in Listed(ids, 0);
      var m :| 0 <= m < |ids| && ids[m] == s;
      assert s in Listed(ids, 0);
    }
  }

  // ---------------------------------------------------------------------------------------
  // Back to a control flow graph

  /** The arena with the blocks in ids stripped of their stack states, phi nodes and stack values. */
  function StripListed(arena: seq<BasicBlock>, ids: seq<BlockId>): (r: seq<BasicBlock>)
    ensures |r| == |arena|
    ensures forall x | 0 <= x < |arena| :: r[x] == if x in ids then Stripped(arena[x]) else arena[x]
  {
    seq(|arena|, x requires 0 <= x < |arena| => if x in ids then Stripped(arena[x]) else arena[x])
  }

  /**
   * The block loop of `ToControlFlowGraph(MjoScript)` for one function, as evidently intended:
   * every listed block loses its start and end states and phi nodes, and every instruction in
   * it its stack values.
   */
  function CfgFunction(f: Function): Result<Function> {
    if f.blocks.None? then Err(Thrown(NullReference))
    else if !InArena(f.blocks.value, |f.arena|) then Err(Thrown(IndexOutOfRange))
    else Ok(f.(arena := StripListed(f.arena, f.blocks.value)))
  }

  /** A block already in control-flow form. */
  predicate BlockInCfg(b: BasicBlock) {
    b == Stripped(b)
  }

  lemma {:induction false} StrippedTwice(b: BasicBlock)
    ensures BlockInCfg(Stripped(b))
  {
    assert StripAll(StripAll(b.instructions)) == StripAll(b.instructions);
  }

  /** Stripping leaves every listed block in control-flow form and changes nothing else. */
  lemma {:induction false} CfgShape(f: Function)
    requires CfgFunction(f).Ok?
    ensures f.blocks.Some? && InArena(f.blocks.value, |f.arena|)
    ensures CfgFunction(f).value == f.(arena := CfgFunction(f).value.arena)
    ensures SameShape(CfgFunction(f).value.arena, f.arena)
    ensures forall k | 0 <= k < |f.blocks.value| :: BlockInCfg(CfgFunction(f).value.arena[f.blocks.value[k]])
    ensures forall x | 0 <= x < |f.arena| && x !in f.blocks.value :: CfgFunction(f).value.arena[x] == f.arena[x]
  {
    var a := CfgFunction(f).value.arena;
    forall x | 0 <= x < |f.arena| ensures Stripped(a[x]) == Stripped(f.arena[x]) {
      StrippedTwice(f.arena[x]);
    }
    forall k | 0 <= k < |f.blocks.value| ensures BlockInCfg(a[f.blocks.value[k]]) {
      StrippedTwice(f.arena[f.blocks.value[k]]);
    }
  }

  /** With its type lists set, a function stripped this way passes the control flow graph's `SanityCheck`. */
  lemma {:induction false} CfgSane(f: Function)
    requires CfgFunction(f).Ok? && f.parameterTypes.Some? && f.localTypes.Some?
    ensures FunctionSanityCheck(CfgFunction(f).value, ControlFlowGraph).Ok?
  {
    CfgShape(f);
    var g := CfgFunction(f).value;
    var _ := BlocksSanityCheck(g.arena, g.blocks.value, ControlFlowGraph, 0);
  }

  /** Converting to SSA form and back gives what stripping the original gives. */
  lemma {:induction false} SsaThenCfg(f: Function)
    requires SsaFunction(f).Ok?
    ensures CfgFunction(SsaFunction(f).value) == CfgFunction(f)
  {
    var g := SsaFunction(f).value;
    SsaShape(f);
    var a := StripListed(g.arena, g.blocks.value);
    var b := StripListed(f.arena, f.blocks.value);
    forall x | 0 <= x < |a| ensures a[x] == b[x] {
      assert Stripped(g.arena[x]) == Stripped(f.arena[x]);
    }
    assert a == b;
  }

  /** A function whose listed blocks are in control-flow form comes back from SSA form exactly as it was. */
  lemma {:induction false} RoundTrip(f: Function)
    requires SsaFunction(f).Ok?
    requires forall k | 0 <= k < |f.blocks.value| :: f.blocks.value[k] < |f.arena| && BlockInCfg(f.arena[f.blocks.value[k]])
    ensures CfgFunction(SsaFunction(f).value) == Ok(f)
  {
    SsaThenCfg(f);
    var a := StripListed(f.arena, f.blocks.value);
    forall x | 0 <= x < |f.arena| ensures a[x] == f.arena[x] {
      if x in f.blocks.value {
        var k :| 0 <= k < |f.blocks.value| && f.blocks.value[k] == x;
      }
    }
    assert a == f.arena;
  }

  /** The block with its stack states and phi nodes cleared; its instructions keep their stack values. */
  function StatesCleared(b: BasicBlock): BasicBlock {
    b.(phiNodes := None, startState := None, endState := None)
  }

  /** The arena with the blocks in ids cleared of their stack states and phi nodes only. */
  function ClearListed(arena: seq<BasicBlock>, ids: seq<BlockId>): (r: seq<BasicBlock>)
    ensures |r| == |arena|
    ensures forall x | 0 <= x < |arena| :: r[x] == if x in ids then StatesCleared(arena[x]) else arena[x]
  {
    seq(|arena|, x requires 0 <= x < |arena| => if x in ids then StatesCleared(arena[x]) else arena[x])
  }

  /**
   * The block loop of `ToControlFlowGraph(MjoScript)` for one function, as written: it clears
   * the blocks' start and end states and phi nodes, and nothing else. The stack values of the
   * blocks' instructions are left to the loop over `script.Instructions`, which does not hold
   * them in a script read in graph form.
   */
  function CfgFunctionAsWritten(f: Function): Result<Function> {
    if f.blocks.None? then Err(Thrown(NullReference))
    else if !InArena(f.blocks.value, |f.arena|) then Err(Thrown(IndexOutOfRange))
    else Ok(f.(arena := ClearListed(f.arena, f.blocks.value)))
  }

  /**
   * The as-written block loop keeps every instruction of every block, stack values and all,
   * and leaves the listed blocks without stack states and phi nodes; stripping the result is
   * stripping the original.
   */
  lemma {:induction false} ClearedKeepsValues(f: Function)
    requires CfgFunctionAsWritten(f).Ok?
    ensures var a := CfgFunctionAsWritten(f).value.arena;
      |a| == |f.arena| && SameShape(a, f.arena) &&
      (forall x | 0 <= x < |a| :: a[x].instructions == f.arena[x].instructions) &&
      forall k | 0 <= k < |f.blocks.value| ::
        a[f.blocks.value[k]].startState.None? && a[f.blocks.value[k]].endState.None? && a[f.blocks.value[k]].phiNodes.None?
    ensures CfgFunction(CfgFunctionAsWritten(f).value) == CfgFunction(f)
  {
    var a := CfgFunctionAsWritten(f).value.arena;
    forall x | 0 <= x < |a| ensures Stripped(a[x]) == Stripped(f.arena[x]) {
    }
    forall k | 0 <= k < |f.blocks.value|
      ensures a[f.blocks.value[k]].startState.None? && a[f.blocks.value[k]].endState.None? && a[f.blocks.value[k]].phiNodes.None?
    {
      assert f.blocks.value[k] in f.blocks.value;
    }
    var s1 := StripListed(a, f.blocks.value);
    var s2 := StripListed(f.arena, f.blocks.value);
    forall x | 0 <= x < |s1| ensures s1[x] == s2[x] {
      if x in f.blocks.value {
        assert Stripped(a[x]) == Stripped(f.arena[x]);
      }
    }
    assert s1 == s2;
  }

  /**
   * A block whose first instruction still carries its `BeforeValues` cannot be simulated: once
   * its start state is known, the instruction loop fails `Debug.Assert(instruction.BeforeValues == null)`.
   */
  lemma {:induction false} StaleBlockRejected(arena: seq<BasicBlock>, id: BlockId)
    requires id < |arena| && Linked(arena) && StartState(arena, id).Ok?
    requires |arena[id].instructions| > 0 && arena[id].instructions[0].beforeValues.Some?
    ensures BlockSimulated(arena, id) == Err(AssertFailed("instruction.BeforeValues == null"))
  {
    var start := StartState(arena, id).value.0;
    assert RunFrom(arena[id].instructions, id, 0, start, []) == Err(AssertFailed("instruction.BeforeValues == null"));
  }

  /** A block whose first instruction, if it has one, still carries its `BeforeValues`. */
  predicate Stale(b: BasicBlock) {
    |b.instructions| > 0 ==> b.instructions[0].beforeValues.Some?
  }

  /**
   * The block loop from j fails when every block still to be visited is stale and some block
   * still to be visited has instructions.
   */
  lemma {:induction false} StaleBlocksRejected(arena: seq<BasicBlock>, order: seq<BlockId>, j: nat)
    requires Linked(arena) && InArena(order, |arena|) && j <= |order| && Distinct(order)
    requires forall k | j <= k < |order| :: Stale(arena[order[k]])
    requires exists k | j <= k < |order| :: |arena[order[k]].instructions| > 0
    ensures BlocksSimulated(arena, order, j).Err?
    decreases |order| - j
  {
    var id := order[j];
    if |arena[id].instructions| > 0 {
      if StartState(arena, id).Ok? {
        StaleBlockRejected(arena, id);
      }
    } else {
      var s := BlockSimulated(arena, id);
      if s.Ok? {
        var a := s.value;
        BlockShape(arena, id);
        ShapeLinked(a, arena);
        var w :| j <= w < |order| && |arena[order[w]].instructions| > 0;
        forall k | j + 1 <= k < |order| ensures a[order[k]] == arena[order[k]] {
          assert order[k] != order[j];
        }
        assert a[order[w]] == arena[order[w]];
        StaleBlocksRejected(a, order, j + 1);
      }
    }
  }

  /**
   * After a conversion to SSA form and the as-written way back, the function has its blocks
   * linked as before, and every listed block keeps its instructions and is stale.
   */
  lemma {:induction false} StaleAfterRoundTrip(f: Function)
    requires SsaFunction(f).Ok?
    ensures CfgFunctionAsWritten(SsaFunction(f).value).Ok?
    ensures var h := CfgFunctionAsWritten(SsaFunction(f).value).value;
      f.blocks.Some? && h.blocks == f.blocks && InArena(f.blocks.value, |f.arena|) &&
      |h.arena| == |f.arena| && Linked(h.arena) && Distinct(h.blocks.value) &&
      forall k | 0 <= k < |f.blocks.value| ::
        |h.arena[f.blocks.value[k]].instructions| == |f.arena[f.blocks.value[k]].instructions| &&
        Stale(h.arena[f.blocks.value[k]])
  {
    var g := SsaFunction(f).value;
    SsaShape(f);
    ClearedKeepsValues(g);
    var h := CfgFunctionAsWritten(g).value;
    ShapeLinked(h.arena, f.arena);
    forall k | 0 <= k < |f.blocks.value|
      ensures |h.arena[f.blocks.value[k]].instructions| == |f.arena[f.blocks.value[k]].instructions|
      ensures Stale(h.arena[f.blocks.value[k]])
    {
      var x := f.blocks.value[k];
      assert Stripped(g.arena[x]) == Stripped(f.arena[x]);
      assert BlockInSsa(g.arena[x]);
    }
  }

  /**
   * A function whose listed blocks are all stale cannot be converted to SSA form when one of
   * them has an instruction.
   */
  lemma {:induction false} StaleFunctionRejected(h: Function)
    requires h.blocks.Some? && InArena(h.blocks.value, |h.arena|) && Distinct(h.blocks.value)
    requires forall k | 0 <= k < |h.blocks.value| :: Stale(h.arena[h.blocks.value[k]])
    requires exists k | 0 <= k < |h.blocks.value| :: |h.arena[h.blocks.value[k]].instructions| > 0
    ensures SsaFunction(h).Err?
  {
    var ids := h.blocks.value;
    if Linked(h.arena) {
      var walk := Sorts.PreOrder<BlockId>(ids, Successors(h.arena));
      Sorts.PreOrderPermutes<BlockId>(ids, Successors(h.arena));
      if walk.error.None? {
        PermutedInArena(ids, walk.out, |h.arena|);
        var w :| 0 <= w < |ids| && |h.arena[ids[w]].instructions| > 0;
        assert ids[w] in multiset(walk.out);
        var v :| 0 <= v < |walk.out| && walk.out[v] == ids[w];
        forall k | 0 <= k < |walk.out| ensures Stale(h.arena[walk.out[k]]) {
          assert walk.out[k] in multiset(ids);
          var i :| 0 <= i < |ids| && ids[i] == walk.out[k];
        }
        StaleBlocksRejected(h.arena, walk.out, 0);
      }
    }
  }

  /**
   * A function converted to SSA form and back by the as-written block loop cannot be converted
   * to SSA form again when one of its listed blocks has an instruction: the instructions keep
   * their `BeforeValues`, and the simulation meets one of them, if no earlier block fails first.
   */
  lemma {:induction false} SecondSsaRejected(f: Function)
    requires SsaFunction(f).Ok?
    requires exists k | 0 <= k < |f.blocks.value| :: f.blocks.value[k] < |f.arena| && |f.arena[f.blocks.value[k]].instructions| > 0
    ensures CfgFunctionAsWritten(SsaFunction(f).value).Ok?
    ensures SsaFunction(CfgFunctionAsWritten(SsaFunction(f).value).value).Err?
  {
    StaleAfterRoundTrip(f);
    var h := CfgFunctionAsWritten(SsaFunction(f).value).value;
    var w :| 0 <= w < |f.blocks.value| && f.blocks.value[w] < |f.arena| && |f.arena[f.blocks.value[w]].instructions| > 0;
    assert |h.arena[h.blocks.value[w]].instructions| > 0;
    StaleFunctionRejected(h);
  }

  // ---------------------------------------------------------------------------------------
  // The script

  /**
   * `foreach(var function in script.Functions) step(function)` from the k-th function, each
   * function replaced by what the step makes of it: how the loop ended and the list as far as
   * it got. An exception leaves the functions before it converted and the rest as they were.
   */
  function EachFrom(step: Function -> Result<Function>, fs: seq<Function>, k: nat): (r: (Result<()>, seq<Function>))
    requires k <= |fs|
    ensures |r.1| == |fs|
    decreases |fs| - k
  {
    if k == |fs| then (Ok(()), fs)
    else
      match step(fs[k])
      case Err(e) => (Err(e), fs)
      case Ok(g) => EachFrom(step, fs[k := g], k + 1)
  }

  /** The loop from k stopped at function i: the ones from k up to it converted, it and the rest untouched. */
  ghost predicate StoppedAt(step: Function -> Result<Function>, fs: seq<Function>, k: nat, i: nat, r: (Result<()>, seq<Function>))
    requires k <= i < |fs| && |r.1| == |fs|
  {
    r.0.Err? && step(fs[i]) == Err(r.0.error) &&
    (forall j | k <= j < i :: step(fs[j]) == Ok(r.1[j])) &&
    forall j | i <= j < |fs| :: r.1[j] == fs[j]
  }

  /**
   * The loop from k leaves the functions before k alone; when it finishes, every later function
   * is what the step made of it, and when it throws, some function's step threw that exception.
   */
  lemma {:induction false} EachFromMeets(step: Function -> Result<Function>, fs: seq<Function>, k: nat)
    requires k <= |fs|
    ensures forall j | 0 <= j < k :: EachFrom(step, fs, k).1[j] == fs[j]
    ensures EachFrom(step, fs, k).0.Ok? ==> forall j | k <= j < |fs| :: step(fs[j]) == Ok(EachFrom(step, fs, k).1[j])
    ensures EachFrom(step, fs, k).0.Err? ==> exists i | k <= i < |fs| :: StoppedAt(step, fs, k, i, EachFrom(step, fs, k))
    decreases |fs| - k
  {
    if k < |fs| && step(fs[k]).Ok? {
      var fs' := fs[k := step(fs[k]).value];
      var r := EachFrom(step, fs', k + 1);
      EachFromMeets(step, fs', k + 1);
      assert r == EachFrom(step, fs, k);
      if r.0.Err? {
        var i :| k + 1 <= i < |fs| && StoppedAt(step, fs', k + 1, i, r);
        assert StoppedAt(step, fs, k, i, r);
      }
    } else if k < |fs| {
      assert StoppedAt(step, fs, k, k, EachFrom(step, fs, k));
    }
  }

  /** A loop whose every step from k on succeeds with the given results ends with those results. */
  lemma {:induction false} EachFromAll(step: Function -> Result<Function>, fs: seq<Function>, gs: seq<Function>, k: nat)
    requires k <= |fs| == |gs|
    requires forall j | 0 <= j < k :: gs[j] == fs[j]
    requires forall j | k <= j < |fs| :: step(fs[j]) == Ok(gs[j])
    ensures EachFrom(step, fs, k) == (Ok(()), gs)
    decreases |fs| - k
  {
    if k == |fs| {
      assert fs == gs;
    } else {
      EachFromAll(step, fs[k := gs[k]], gs, k + 1);
    }
  }

  /** After a successful conversion to SSA form, every function whose type lists were set passes `SanityCheck`. */
  lemma {:induction false} SsaScriptSane(fs: seq<Function>)
    requires EachFrom(SsaFunction, fs, 0).0.Ok?
    requires forall j | 0 <= j < |fs| :: fs[j].parameterTypes.Some? && fs[j].localTypes.Some?
    ensures forall j | 0 <= j < |fs| :: FunctionSanityCheck(EachFrom(SsaFunction, fs, 0).1[j], SsaGraph).Ok?
  {
    EachFromMeets(SsaFunction, fs, 0);
    forall j | 0 <= j < |fs| ensures FunctionSanityCheck(EachFrom(SsaFunction, fs, 0).1[j], SsaGraph).Ok? {
      SsaSane(fs[j]);
    }
  }

  /** Functions in control-flow form, converted to SSA form and back, come back exactly as they were. */
  lemma {:induction false} ScriptRoundTrip(fs: seq<Function>)
    requires EachFrom(SsaFunction, fs, 0).0.Ok?
    requires forall j, k | 0 <= j < |fs| && fs[j].blocks.Some? && 0 <= k < |fs[j].blocks.value| ::
      fs[j].blocks.value[k] < |fs[j].arena| && BlockInCfg(fs[j].arena[fs[j].blocks.value[k]])
    ensures EachFrom(CfgFunction, EachFrom(SsaFunction, fs, 0).1, 0) == (Ok(()), fs)
  {
    var gs := EachFrom(SsaFunction, fs, 0).1;
    EachFromMeets(SsaFunction, fs, 0);
    forall j | 0 <= j < |gs| ensures CfgFunction(gs[j]) == Ok(fs[j]) {
      SsaShape(fs[j]);
      RoundTrip(fs[j]);
    }
    EachFromAll(CfgFunction, gs, fs, 0);
  }

  /** The function loop of `ToSsaGraph(MjoScript)`, over the script's own list. */
  method SsaFunctions(script: MjoScript) returns (r: Result<()>)
    requires script.functions.Some?
    modifies script`functions
    ensures script.functions.Some? && (r, script.functions.value) == EachFrom(SsaFunction, old(script.functions.value), 0)
  {
    ghost var fs0 := script.functions.value;
    var k := 0;
    while k < |script.functions.value|
      invariant script.functions.Some? && k <= |script.functions.value| == |fs0|
      invariant EachFrom(SsaFunction, script.functions.value, k) == EachFrom(SsaFunction, fs0, 0)
      decreases |script.functions.value| - k
    {
      var fs := script.functions.value;
      var g := ToSsaGraphFunction(fs[k]);
      if g.Err? {
        return Err(g.error);
      }
      script.functions := Some(fs[k := g.value]);
      k := k + 1;
    }
    return Ok(());
  }

  /**
   * `ToSsaGraph(MjoScript)`. A script in SSA form is left as it is, and one neither in SSA form
   * nor a control flow graph throws. A control flow graph goes into transition, has each of its
   * functions converted in turn, and is in SSA form once all are.
   */
  method ToSsaGraph(script: MjoScript) returns (r: Result<()>)
    modifies script
    ensures old(script.representation) == SsaGraph ==> r == Ok(()) && unchanged(script)
    ensures old(script.representation) != SsaGraph && old(script.representation) != ControlFlowGraph ==>
      r == Err(Thrown(ToSsaFrom + RepresentationName(old(script.representation)))) && unchanged(script)
    ensures old(script.representation) == ControlFlowGraph ==>
      unchanged(script`entryPointOffset, script`functionIndex, script`instructions, script`entryPointFunction, script`enableReadMark, script`instructionsNull)
    ensures old(script.representation) == ControlFlowGraph && old(script.functions).None? ==>
      r == Err(Thrown(NullReference)) && script.representation == InTransition && script.functions.None?
    ensures old(script.representation) == ControlFlowGraph && old(script.functions).Some? ==>
      script.functions.Some? && (r, script.functions.value) == EachFrom(SsaFunction, old(script.functions.value), 0) &&
      script.representation == if r.Ok? then SsaGraph else InTransition
  {
    if script.representation == SsaGraph {
      return Ok(());
    }
    if script.representation != ControlFlowGraph {
      return Err(Thrown(ToSsaFrom + RepresentationName(script.representation)));
    }
    script.representation := InTransition;
    if script.functions.None? {
      return Err(Thrown(NullReference));
    }
    r := SsaFunctions(script);
    if r.Ok? {
      script.representation := SsaGraph;
    }
  }

  /**
   * The block loop of `ToControlFlowGraph(MjoScript)`, function by function, with the clearing
   * of one function given: `CfgFunction` as evidently intended, `CfgFunctionAsWritten` as written.
   */
  method CfgFunctions(script: MjoScript, clear: Function -> Result<Function>) returns (r: Result<()>)
    requires script.functions.Some?
    modifies script`functions
    ensures script.functions.Some? && (r, script.functions.value) == EachFrom(clear, old(script.functions.value), 0)
  {
    ghost var fs0 := script.functions.value;
    var k := 0;
    while k < |script.functions.value|
      invariant script.functions.Some? && k <= |script.functions.value| == |fs0|
      invariant EachFrom(clear, script.functions.value, k) == EachFrom(clear, fs0, 0)
      decreases |script.functions.value| - k
    {
      var fs := script.functions.value;
      var g := clear(fs[k]);
      if g.Err? {
        return Err(g.error);
      }
      script.functions := Some(fs[k := g.value]);
      k := k + 1;
    }
    return Ok(());
  }

  /**
   * `ToControlFlowGraph(MjoScript)` as evidently intended: a control flow graph is left as it
   * is, a script neither a graph nor in SSA form throws, and an SSA graph has the stack states
   * and phi nodes of its blocks and the stack values of their instructions cleared.
   */
  method ToControlFlowGraph(script: MjoScript) returns (r: Result<()>)
    modifies script
    ensures old(script.representation) == ControlFlowGraph ==> r == Ok(()) && unchanged(script)
    ensures old(script.representation) != ControlFlowGraph && old(script.representation) != SsaGraph ==>
      r == Err(Thrown(ToCfgFrom + RepresentationName(old(script.representation)))) && unchanged(script)
    ensures old(script.representation) == SsaGraph ==>
      unchanged(script`entryPointOffset, script`functionIndex, script`instructions, script`entryPointFunction, script`enableReadMark, script`instructionsNull)
    ensures old(script.representation) == SsaGraph && old(script.functions).None? ==>
      r == Err(Thrown(NullReference)) && script.representation == InTransition && script.functions.None?
    ensures old(script.representation) == SsaGraph && old(script.functions).Some? ==>
      script.functions.Some? && (r, script.functions.value) == EachFrom(CfgFunction, old(script.functions.value), 0) &&
      script.representation == if r.Ok? then ControlFlowGraph else InTransition
  {
    if script.representation == ControlFlowGraph {
      return Ok(());
    }
    if script.representation != SsaGraph {
      return Err(Thrown(ToCfgFrom + RepresentationName(script.representation)));
    }
    script.representation := InTransition;
    if script.functions.None? {
      return Err(Thrown(NullReference));
    }
    r := CfgFunctions(script, CfgFunction);
    if r.Ok? {
      script.representation := ControlFlowGraph;
    }
  }

  /**
   * The first loop of `ToControlFlowGraph(MjoScript)`: every instruction of the script's own
   * list loses its stack values.
   */
  method ClearListValues(script: MjoScript)
    modifies script`instructions
    ensures script.instructions == StripAll(old(script.instructions))
  {
    var k := 0;
    while k < |script.instructions|
      invariant k <= |script.instructions| == |old(script.instructions)|
      invariant forall j | 0 <= j < k :: script.instructions[j] == Strip(old(script.instructions)[j])
      invariant forall j | k <= j < |script.instructions| :: script.instructions[j] == old(script.instructions)[j]
      decreases |script.instructions| - k
    {
      script.instructions := script.instructions[k := Strip(script.instructions[k])];
      k := k + 1;
    }
  }

  /**
   * `ToControlFlowGraph(MjoScript)` as written. Its first loop walks the script's own instruction
   * list. A script the control flow pass made from an instruction list has that list set to null
   * (ControlFlowPass.cs:63), so once in SSA form it goes into transition and the loop throws. A
   * script read in graph form has a list, which the loop clears; the block loop then clears only
   * the blocks' stack states and phi nodes, and the blocks' instructions keep their stack values
   * (see `SecondSsaRejected`).
   */
  method ToControlFlowGraphAsWritten(script: MjoScript) returns (r: Result<()>)
    modifies script
    ensures old(script.representation) == ControlFlowGraph ==> r == Ok(()) && unchanged(script)
    ensures old(script.representation) != ControlFlowGraph && old(script.representation) != SsaGraph ==>
      r == Err(Thrown(ToCfgFrom + RepresentationName(old(script.representation)))) && unchanged(script)
    ensures old(script.representation) == SsaGraph && old(script.instructionsNull) ==>
      r == Err(Thrown(NullReference)) && script.representation == InTransition &&
      unchanged(script`entryPointOffset, script`functionIndex, script`instructions, script`functions, script`entryPointFunction, script`enableReadMark, script`instructionsNull)
    ensures old(script.representation) == SsaGraph && !old(script.instructionsNull) ==>
      script.instructions == StripAll(old(script.instructions)) &&
      unchanged(script`entryPointOffset, script`functionIndex, script`entryPointFunction, script`enableReadMark, script`instructionsNull)
    ensures old(script.representation) == SsaGraph && !old(script.instructionsNull) && old(script.functions).None? ==>
      r == Err(Thrown(NullReference)) && script.representation == InTransition && script.functions.None?
    ensures old(script.representation) == SsaGraph && !old(script.instructionsNull) && old(script.functions).Some? ==>
      script.functions.Some? && (r, script.functions.value) == EachFrom(CfgFunctionAsWritten, old(script.functions.value), 0) &&
      script.representation == if r.Ok? then ControlFlowGraph else InTransition
  {
    if script.representation == ControlFlowGraph {
      return Ok(());
    }
    if script.representation != SsaGraph {
      return Err(Thrown(ToCfgFrom + RepresentationName(script.representation)));
    }
    script.representation := InTransition;
    if script.instructionsNull {
      return Err(Thrown(NullReference));
    }
    ClearListValues(script);
    if script.functions.None? {
      return Err(Thrown(NullReference));
    }
    r := CfgFunctions(script, CfgFunctionAsWritten);
    if r.Ok? {
      script.representation := ControlFlowGraph;
    }
  }

}

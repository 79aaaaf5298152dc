// The control-flow pass of src/MajiroLib/Script/Analysis/ControlFlow/ControlFlowPass.cs:
// `ToControlFlowGraph` splits an instruction-list script into functions, each function into
// basic blocks, links the blocks and drops the edges out of unreachable blocks. Blocks live in
// the function's arena (module Graph), which this pass fills in the order the source sorts its
// block list to, so the `Blocks` list is the identity order.

module ControlFlow {
  import opened Wrappers
  import opened Flags
  import opened Instructions
  import opened Graph
  import opened Scripts
  import Numerals

  /** A C# cast to `uint` of an integer: its low 32 bits. */
  function Low32(x: int): UInt32 {
    x % 0x1_0000_0000
  }

  // ---------------------------------------------------------------------------------------
  // Where control goes after an instruction (`PossibleNextInstructionOffsets`)

  /** `(uint)(Offset + Size + JumpOffset)`: where a jump lands. */
  function JumpDestination(i: Instruction): UInt32
    requires i.offset.Some? && i.size.Some? && i.jumpOffset.Some?
  {
    Low32(i.offset.value + i.size.value + i.jumpOffset.value)
  }

  /** `Offset + Size`: the instruction after this one. */
  function FallThrough(i: Instruction): UInt32
    requires i.offset.Some? && i.size.Some?
  {
    Low32(i.offset.value + i.size.value)
  }

  /**
   * Case k of a switch at offset continues at offset + 4 + 4k + 4 + cases[k]: past the opcode
   * and the case count, then past its own slot, to which the displacement is relative.
   */
  function CaseDestinations(offset: UInt32, cases: seq<Int32>): (r: seq<UInt32>)
    ensures |r| == |cases|
    ensures forall k | 0 <= k < |cases| :: r[k] == Low32(offset + 4 + 4 * k + 4 + cases[k])
  {
    seq(|cases|, k requires 0 <= k < |cases| => Low32(offset + 4 + 4 * k + 4 + cases[k]))
  }

  /** The offsets end with one destination per case: the switch's cases are set, and its offset when there are any. */
  predicate SwitchesTo(i: Instruction, offsets: seq<UInt32>) {
    i.switchOffsets.Some? && |offsets| == |i.switchOffsets.value| + (if IsJump(i) then 1 else 0) &&
    (|i.switchOffsets.value| > 0 ==>
       (i.offset.Some? &&
        offsets[|offsets| - |i.switchOffsets.value|..] == CaseDestinations(i.offset.value, i.switchOffsets.value)))
  }

  /**
   * `PossibleNextInstructionOffsets`: nothing after a return; a jump's destination, and after
   * it the next instruction unless the jump is unconditional; one destination per switch
   * case and no fall-through; otherwise the next instruction. Reading an unset offset, size
   * or displacement throws, as does a switch without its case list.
   */
  function NextOffsets(i: Instruction): (r: Result<seq<UInt32>>)
    ensures IsReturn(i) ==> r == Ok([])
    ensures r.Ok? && !IsReturn(i) && IsJump(i) ==>
      i.offset.Some? && i.size.Some? && i.jumpOffset.Some? && |r.value| > 0 && r.value[0] == JumpDestination(i)
    ensures r.Ok? && !IsReturn(i) && IsJump(i) && IsUnconditionalJump(i) ==> |r.value| == 1
    ensures r.Ok? && !IsReturn(i) && !(IsJump(i) && IsUnconditionalJump(i)) && IsSwitch(i) ==> SwitchesTo(i, r.value)
    ensures r.Ok? && !IsReturn(i) && !(IsJump(i) && IsUnconditionalJump(i)) && !IsSwitch(i) ==>
      i.offset.Some? && i.size.Some? && |r.value| == (if IsJump(i) then 2 else 1) && r.value[|r.value| - 1] == FallThrough(i)
  {
    if IsReturn(i) then Ok([])
    else if IsJump(i) && (i.offset.None? || i.size.None? || i.jumpOffset.None?) then Err(Thrown(NullableWithoutValue))
    else
      var jump := if IsJump(i) then [JumpDestination(i)] else [];
      if IsJump(i) && IsUnconditionalJump(i) then Ok(jump)
      else if IsSwitch(i) then
        if i.switchOffsets.None? then Err(Thrown(NullReference))
        else if |i.switchOffsets.value| == 0 then Ok(jump)
        else if i.offset.None? then Err(Thrown(NullableWithoutValue))
        else Ok(jump + CaseDestinations(i.offset.value, i.switchOffsets.value))
      else if i.offset.None? || i.size.None? then Err(Thrown(NullableWithoutValue))
      else Ok(jump + [FallThrough(i)])
  }

  /** A switch that is not a jump continues only at its cases. */
  lemma NextOffsetsSwitch(i: Instruction)
    requires !IsReturn(i) && !IsJump(i) && IsSwitch(i) && NextOffsets(i).Ok?
    ensures i.switchOffsets.Some? && i.offset.Some? ==>
      NextOffsets(i).value == CaseDestinations(i.offset.value, i.switchOffsets.value)
    ensures i.switchOffsets.Some? && |i.switchOffsets.value| > 0 ==> i.offset.Some?
  {
    if i.switchOffsets.Some? && |i.switchOffsets.value| == 0 && i.offset.Some? {
      assert CaseDestinations(i.offset.value, i.switchOffsets.value) == [];
    }
  }

  /** With its offset and size set, and its displacement or its cases where it has them, an instruction's successors can be read. */
  lemma NextOffsetsOk(i: Instruction)
    requires i.offset.Some? && i.size.Some?
    requires IsJump(i) ==> i.jumpOffset.Some?
    requires IsSwitch(i) ==> i.switchOffsets.Some?
    ensures NextOffsets(i).Ok?
  {
  }

  // ---------------------------------------------------------------------------------------
  // Function ends

  /**
   * The loop that finds a function's last instruction: the first index from first on that is
   * the script's last or is followed by another function's start; -1 when first is past the end.
   */
  method FindLastInstruction(starts: seq<nat>, count: nat, first: nat) returns (last: int)
    ensures last == -1 <==> first >= count
    ensures last != -1 ==> first <= last < count && (last + 1 == count || last + 1 in starts)
    ensures forall i | first < i <= last :: i != count && i !in starts
  {
    if first >= count {
      return -1;
    }
    var i := first;
    while i + 1 != count && i + 1 !in starts
      invariant first <= i < count
      invariant forall j | first < j <= i :: j != count && j !in starts
      decreases count - i
    {
      i := i + 1;
    }
    return i;
  }

  // ---------------------------------------------------------------------------------------
  // Block starts

  /** What the boundary scan of `AnalyzeFunction` collects. */
  datatype Marks = Marks(
    /** The keys of `blockStarts`, in the order they were added. */
    starts: seq<nat>,
    parameterTypes: Option<seq<MjoType>>,
    localTypes: Option<seq<MjoType>>)

  /** The scan looks at the successors of jumps and switches. */
  predicate Branch(i: Instruction) {
    IsJump(i) || IsSwitch(i)
  }

  /** The scan takes its parameter types from an argument check that is no branch. */
  predicate ArgCheckAt(instructions: seq<Instruction>, i: nat)
    requires i < |instructions|
  {
    !Branch(instructions[i]) && IsArgCheck(instructions[i])
  }

  /** ... and its local types from an alloca that is neither. */
  predicate AllocaAt(instructions: seq<Instruction>, i: nat)
    requires i < |instructions|
  {
    !Branch(instructions[i]) && !IsArgCheck(instructions[i]) && IsAlloca(instructions[i])
  }

  /**
   * The offsets the scan marks for the branch at i: its successors, then the instruction
   * after it unless it is the function's last.
   */
  function MarkedOffsets(instructions: seq<Instruction>, i: nat, last: nat): Result<seq<UInt32>>
    requires i < |instructions|
  {
    match NextOffsets(instructions[i])
    case Err(e) => Err(e)
    case Ok(next) =>
      if i == last then Ok(next)
      else if instructions[i].offset.None? || instructions[i].size.None? then Err(Thrown(NullableWithoutValue))
      else Ok(next + [FallThrough(instructions[i])])
  }

  /** Every offset is the offset of an instruction. */
  predicate AllFound(instructions: seq<Instruction>, offsets: seq<UInt32>) {
    forall k | 0 <= k < |offsets| :: IndexFromOffset(instructions, offsets[k]) != -1
  }

  /** The scan gets past instruction i: a branch's marked offsets can be read and are all instructions. */
  predicate ScanOk(instructions: seq<Instruction>, i: nat, last: nat)
    requires i < |instructions|
  {
    Branch(instructions[i]) ==> MarkedOffsets(instructions, i, last).Ok? && AllFound(instructions, MarkedOffsets(instructions, i, last).value)
  }

  /** `Debug.Assert(ParameterTypes == null)` and the same for the local types: each is met at most once in [first, i). */
  predicate TypeListsOnce(instructions: seq<Instruction>, first: nat, i: nat)
    requires i <= |instructions|
  {
    (forall j, k | first <= j < k < i :: !(ArgCheckAt(instructions, j) && ArgCheckAt(instructions, k))) &&
    (forall j, k | first <= j < k < i :: !(AllocaAt(instructions, j) && AllocaAt(instructions, k)))
  }

  /** The indices the offsets resolve to. */
  function IndicesOf(instructions: seq<Instruction>, offsets: seq<UInt32>): set<int> {
    if |offsets| == 0 then {}
    else IndicesOf(instructions, offsets[..|offsets| - 1]) + {IndexFromOffset(instructions, offsets[|offsets| - 1])}
  }

  /** The indices the branches in [first, i) mark. */
  function MarkedIndices(instructions: seq<Instruction>, first: nat, last: nat, i: nat): set<int>
    requires first <= i <= |instructions|
  {
    Accumulated(MarksOf(instructions, last), first, i)
  }

  /** The indices the instruction at i marks: those of its next offsets when it is a branch. */
  function MarkedBy(instructions: seq<Instruction>, i: nat, last: nat): set<int>
    requires i < |instructions|
  {
    if Branch(instructions[i]) && MarkedOffsets(instructions, i, last).Ok?
    then IndicesOf(instructions, MarkedOffsets(instructions, i, last).value) else {}
  }

  /** What each instruction marks. */
  function MarksOf(instructions: seq<Instruction>, last: nat): (r: seq<set<int>>)
    ensures |r| == |instructions| && forall k | 0 <= k < |instructions| :: r[k] == MarkedBy(instructions, k, last)
  {
    seq(|instructions|, k requires 0 <= k < |instructions| => MarkedBy(instructions, k, last))
  }

  /** The union of marks[first..i]. */
  function Accumulated(marks: seq<set<int>>, first: nat, i: nat): set<int>
    requires first <= i <= |marks|
    decreases i - first
  {
    if i == first then {} else Accumulated(marks, first, i - 1) + marks[i - 1]
  }

  /** The union only grows as it takes more sets in. */
  lemma {:induction false} AccumulatedGrows(marks: seq<set<int>>, first: nat, i: nat, j: nat)
    requires first <= i <= j <= |marks|
    ensures Accumulated(marks, first, i) <= Accumulated(marks, first, j)
    decreases j - i
  {
    if i < j {
      AccumulatedGrows(marks, first, i, j - 1);
    }
  }

  /** An index an offset resolves to is an instruction with that offset. */
  lemma {:induction false} IndicesFound(instructions: seq<Instruction>, offsets: seq<UInt32>)
    requires AllFound(instructions, offsets)
    ensures forall s | s in IndicesOf(instructions, offsets) :: 0 <= s < |instructions| && instructions[s].offset.Some?
  {
    if |offsets| > 0 {
      IndicesFound(instructions, offsets[..|offsets| - 1]);
    }
  }

  /** Once the scan gets through, every index it marks is an instruction with an offset. */
  lemma {:induction false} MarkedFound(instructions: seq<Instruction>, first: nat, last: nat, i: nat)
    requires first <= i <= last + 1 <= |instructions|
    requires forall j | first <= j < i :: ScanOk(instructions, j, last)
    ensures forall s | s in MarkedIndices(instructions, first, last, i) :: 0 <= s < |instructions| && instructions[s].offset.Some?
  {
    if i > first {
      MarkedFound(instructions, first, last, i - 1);
      MarkedFoundAt(instructions, i - 1, last);
    }
  }

  lemma MarkedFoundAt(instructions: seq<Instruction>, i: nat, last: nat)
    requires i < |instructions| && ScanOk(instructions, i, last)
    ensures Branch(instructions[i]) && MarkedOffsets(instructions, i, last).Ok? ==>
      forall s | s in IndicesOf(instructions, MarkedOffsets(instructions, i, last).value) :: 0 <= s < |instructions| && instructions[s].offset.Some?
  {
    if Branch(instructions[i]) {
      IndicesFound(instructions, MarkedOffsets(instructions, i, last).value);
    }
  }

  /** The type list the scan keeps: that of the first instruction in [first, i) the test picks. */
  function TypesFound(instructions: seq<Instruction>, first: nat, i: nat, alloca: bool): Option<seq<MjoType>>
    requires first <= i <= |instructions|
    decreases i - first
  {
    if i == first then None
    else if (if alloca then AllocaAt(instructions, i - 1) else ArgCheckAt(instructions, i - 1))
    then
      var before := TypesFound(instructions, first, i - 1, alloca);
      if before.Some? then before else Some(instructions[i - 1].typeList)
    else TypesFound(instructions, first, i - 1, alloca)
  }

  /** What the scan has established once it has looked at [first, i). */
  ghost predicate Scanned(instructions: seq<Instruction>, first: nat, last: nat, i: nat, m: Marks)
    requires first <= i <= last + 1 <= |instructions|
  {
    (forall j | first <= j < i :: ScanOk(instructions, j, last)) && TypeListsOnce(instructions, first, i) &&
    |m.starts| > 0 && m.starts[0] == first && Distinct(m.starts) &&
    (forall s: nat :: s in m.starts <==> s == first || s in MarkedIndices(instructions, first, last, i)) &&
    (forall s | s in m.starts :: s < |instructions|) &&
    m.parameterTypes == TypesFound(instructions, first, i, false) &&
    m.localTypes == TypesFound(instructions, first, i, true)
  }

  /** The scan over [first, last] gets through: every branch resolves, and each type list occurs at most once. */
  ghost predicate ScanClean(instructions: seq<Instruction>, first: nat, last: nat)
    requires first <= last < |instructions|
  {
    (forall i | first <= i <= last :: ScanOk(instructions, i, last)) && TypeListsOnce(instructions, first, last + 1)
  }

  /**
   * The scan over [first, last] of `AnalyzeFunction`, with `MarkBasicBlockStart`: the
   * function start, then each index a branch marks, each once, in the order met. It fails
   * exactly when a marked offset cannot be read or is no instruction's, or when a function
   * has two argument checks or two allocas; the type lists are those of the one it has.
   */
  method MarkBlockStarts(instructions: seq<Instruction>, first: nat, last: nat) returns (r: Result<Marks>)
    requires first <= last < |instructions|
    ensures r.Ok? <==> ScanClean(instructions, first, last)
    ensures r.Ok? ==> |r.value.starts| > 0 && r.value.starts[0] == first && Distinct(r.value.starts)
    ensures r.Ok? ==> forall s: nat :: s in r.value.starts <==> s == first || s in MarkedIndices(instructions, first, last, last + 1)
    ensures r.Ok? ==> forall s | s in r.value.starts :: s < |instructions|
    ensures r.Ok? ==> r.value.parameterTypes == TypesFound(instructions, first, last + 1, false)
    ensures r.Ok? ==> r.value.localTypes == TypesFound(instructions, first, last + 1, true)
  {
    var m := Marks([first], None, None);
    ScannedStart(instructions, first, last);
    var i := first;
    while i <= last
      invariant first <= i <= last + 1
      invariant Scanned(instructions, first, last, i, m)
    {
      var step := ScanStep(instructions, first, last, i, m);
      if step.Err? {
        return Err(step.error);
      }
      m := step.value;
      i := i + 1;
    }
    ScannedEnd(instructions, first, last, m);
    return Ok(m);
  }

  lemma ScannedStart(instructions: seq<Instruction>, first: nat, last: nat)
    requires first <= last < |instructions|
    ensures Scanned(instructions, first, last, first, Marks([first], None, None))
  {
  }

  /** A scan that has looked at the whole function got through it, with the marks it promises. */
  lemma ScannedEnd(instructions: seq<Instruction>, first: nat, last: nat, m: Marks)
    requires first <= last < |instructions| && Scanned(instructions, first, last, last + 1, m)
    ensures ScanClean(instructions, first, last)
    ensures |m.starts| > 0 && m.starts[0] == first && Distinct(m.starts)
    ensures forall s: nat :: s in m.starts <==> s == first || s in MarkedIndices(instructions, first, last, last + 1)
    ensures forall s | s in m.starts :: s < |instructions|
    ensures m.parameterTypes == TypesFound(instructions, first, last + 1, false)
    ensures m.localTypes == TypesFound(instructions, first, last + 1, true)
  {
  }

  /** One turn of the scan, at instruction i. */
  method ScanStep(instructions: seq<Instruction>, first: nat, last: nat, i: nat, m: Marks) returns (r: Result<Marks>)
    requires first <= i <= last < |instructions| && Scanned(instructions, first, last, i, m)
    ensures r.Ok? ==> Scanned(instructions, first, last, i + 1, r.value)
    ensures r.Err? ==> !ScanClean(instructions, first, last)
  {
    var instruction := instructions[i];
    if Branch(instruction) {
      r := ScanBranch(instructions, first, last, i, m);
    } else if IsArgCheck(instruction) {
      if m.parameterTypes.Some? {
        PickedTwice(instructions, first, last, i, m, false);
        return Err(AssertFailed("function.ParameterTypes == null"));
      }
      Picked(instructions, first, last, i, m, false);
      r := Ok(m.(parameterTypes := Some(instruction.typeList)));
    } else if IsAlloca(instruction) {
      if m.localTypes.Some? {
        PickedTwice(instructions, first, last, i, m, true);
        return Err(AssertFailed("function.LocalTypes == null"));
      }
      Picked(instructions, first, last, i, m, true);
      r := Ok(m.(localTypes := Some(instruction.typeList)));
    } else {
      NotPicked(instructions, first, i);
      ScanOkExtends(instructions, first, last, i);
      assert MarkedIndices(instructions, first, last, i + 1) == MarkedIndices(instructions, first, last, i);
      r := Ok(m);
    }
  }

  /** The type list of the chosen kind at i, and the first of its kind, is taken. */
  lemma Picked(instructions: seq<Instruction>, first: nat, last: nat, i: nat, m: Marks, alloca: bool)
    requires first <= i <= last < |instructions| && Scanned(instructions, first, last, i, m)
    requires if alloca then AllocaAt(instructions, i) && m.localTypes.None? else ArgCheckAt(instructions, i) && m.parameterTypes.None?
    ensures alloca ==> Scanned(instructions, first, last, i + 1, m.(localTypes := Some(instructions[i].typeList)))
    ensures !alloca ==> Scanned(instructions, first, last, i + 1, m.(parameterTypes := Some(instructions[i].typeList)))
  {
    TypesFoundNone(instructions, first, i, alloca);
    ScanOkExtends(instructions, first, last, i);
    assert MarkedIndices(instructions, first, last, i + 1) == MarkedIndices(instructions, first, last, i);
  }

  /** A second type list of the same kind fails the scan. */
  lemma PickedTwice(instructions: seq<Instruction>, first: nat, last: nat, i: nat, m: Marks, alloca: bool)
    requires first <= i <= last < |instructions| && Scanned(instructions, first, last, i, m)
    requires if alloca then AllocaAt(instructions, i) && m.localTypes.Some? else ArgCheckAt(instructions, i) && m.parameterTypes.Some?
    ensures !ScanClean(instructions, first, last)
  {
    TypesFoundSome(instructions, first, i, alloca);
    var j :| first <= j < i && if alloca then AllocaAt(instructions, j) else ArgCheckAt(instructions, j);
    assert !TypeListsOnce(instructions, first, last + 1);
  }

  /** The turn at a branch: its marked offsets are added to the starts. */
  method ScanBranch(instructions: seq<Instruction>, first: nat, last: nat, i: nat, m: Marks) returns (r: Result<Marks>)
    requires first <= i <= last < |instructions| && Scanned(instructions, first, last, i, m)
    requires Branch(instructions[i])
    ensures r.Ok? ==> Scanned(instructions, first, last, i + 1, r.value)
    ensures r.Err? ==> !ScanClean(instructions, first, last)
  {
    var offsets := MarkedOffsets(instructions, i, last);
    if offsets.Err? {
      assert !ScanOk(instructions, i, last);
      return Err(offsets.error);
    }
    var marked := MarkOffsets(instructions, offsets.value, m.starts);
    if marked.Err? {
      assert !ScanOk(instructions, i, last);
      return Err(marked.error);
    }
    BranchScanned(instructions, first, last, i, m, offsets.value, marked.value);
    r := Ok(m.(starts := marked.value));
  }

  /** The starts the branch at i adds extend what the scan has established to [first, i + 1). */
  lemma BranchScanned(instructions: seq<Instruction>, first: nat, last: nat, i: nat, m: Marks, offsets: seq<UInt32>, starts: seq<nat>)
    requires first <= i <= last < |instructions| && Scanned(instructions, first, last, i, m)
    requires Branch(instructions[i]) && MarkedOffsets(instructions, i, last) == Ok(offsets) && AllFound(instructions, offsets)
    requires |starts| >= |m.starts| && starts[..|m.starts|] == m.starts && Distinct(starts)
    requires forall s: nat :: s in starts <==> s in m.starts || s in IndicesOf(instructions, offsets)
    requires forall s | s in starts && s !in m.starts :: s < |instructions|
    ensures Scanned(instructions, first, last, i + 1, m.(starts := starts))
  {
    ScanOkExtends(instructions, first, last, i);
    StartsGrow(instructions, first, last, i, m.starts, starts, offsets);
    NotPicked(instructions, first, i);
  }

  lemma ScanOkExtends(instructions: seq<Instruction>, first: nat, last: nat, i: nat)
    requires first <= i <= last < |instructions|
    requires forall j | first <= j < i :: ScanOk(instructions, j, last)
    requires ScanOk(instructions, i, last)
    ensures forall j | first <= j < i + 1 :: ScanOk(instructions, j, last)
  {
  }

  lemma StartsGrow(instructions: seq<Instruction>, first: nat, last: nat, i: nat, starts: seq<nat>, starts': seq<nat>, offsets: seq<UInt32>)
    requires first <= i <= last < |instructions| && Branch(instructions[i]) && MarkedOffsets(instructions, i, last) == Ok(offsets)
    requires forall s: nat :: s in starts <==> s == first || s in MarkedIndices(instructions, first, last, i)
    requires forall s: nat :: s in starts' <==> s in starts || s in IndicesOf(instructions, offsets)
    ensures forall s: nat :: s in starts' <==> s == first || s in MarkedIndices(instructions, first, last, i + 1)
  {
    assert MarkedIndices(instructions, first, last, i + 1) ==
      MarkedIndices(instructions, first, last, i) + IndicesOf(instructions, offsets);
  }

  /** An instruction the type-list tests do not pick leaves both type lists and their uniqueness as they were. */
  lemma NotPicked(instructions: seq<Instruction>, first: nat, i: nat)
    requires first <= i < |instructions| && !ArgCheckAt(instructions, i) && !AllocaAt(instructions, i)
    requires TypeListsOnce(instructions, first, i)
    ensures TypeListsOnce(instructions, first, i + 1)
    ensures TypesFound(instructions, first, i + 1, false) == TypesFound(instructions, first, i, false)
    ensures TypesFound(instructions, first, i + 1, true) == TypesFound(instructions, first, i, true)
  {
  }

  /** The inner loop: `MarkBasicBlockStart` for each offset in turn. */
  method MarkOffsets(instructions: seq<Instruction>, offsets: seq<UInt32>, starts: seq<nat>) returns (r: Result<seq<nat>>)
    requires Distinct(starts)
    ensures r.Ok? <==> AllFound(instructions, offsets)
    ensures r.Ok? ==> |r.value| >= |starts| && r.value[..|starts|] == starts && Distinct(r.value)
    ensures r.Ok? ==> forall s: nat :: s in r.value <==> s in starts || s in IndicesOf(instructions, offsets)
    ensures r.Ok? ==> forall s | s in r.value && s !in starts :: s < |instructions|
  {
    var current: seq<nat> := starts;
    for k := 0 to |offsets|
      invariant MarkedSoFar(instructions, offsets, k, starts, current)
    {
      var index := IndexFromOffset(instructions, offsets[k]);
      if index == -1 {
        return Err(Thrown("Unable to determine jump target"));
      }
      var at: nat := index;
      var next := if at in current then current else current + [at];
      MarkOne(instructions, offsets, k, starts, current, next);
      current := next;
    }
    assert offsets[..|offsets|] == offsets;
    return Ok(current);
  }

  /** What the inner loop has established after k offsets. */
  ghost predicate MarkedSoFar(instructions: seq<Instruction>, offsets: seq<UInt32>, k: nat, starts: seq<nat>, current: seq<nat>)
    requires k <= |offsets|
  {
    (forall j | 0 <= j < k :: IndexFromOffset(instructions, offsets[j]) != -1) &&
    |current| >= |starts| && current[..|starts|] == starts && Distinct(current) &&
    (forall s: nat :: s in current <==> s in starts || s in IndicesOf(instructions, offsets[..k])) &&
    (forall s | s in current && s !in starts :: s < |instructions|)
  }

  /** Marking offset k adds its index at the end unless it is already a start. */
  lemma MarkOne(instructions: seq<Instruction>, offsets: seq<UInt32>, k: nat, starts: seq<nat>, current: seq<nat>, next: seq<nat>)
    requires k < |offsets| && MarkedSoFar(instructions, offsets, k, starts, current)
    requires IndexFromOffset(instructions, offsets[k]) != -1
    requires next == var at := IndexFromOffset(instructions, offsets[k]) as nat; if at in current then current else current + [at]
    ensures MarkedSoFar(instructions, offsets, k + 1, starts, next)
  {
    var at := IndexFromOffset(instructions, offsets[k]);
    IndicesOfStep(instructions, offsets, k);
    if at in current {
      MarkKnown(instructions, offsets, k, starts, current);
    } else {
      MarkNew(instructions, offsets, k, starts, current);
    }
  }

  lemma MarkKnown(instructions: seq<Instruction>, offsets: seq<UInt32>, k: nat, starts: seq<nat>, current: seq<nat>)
    requires k < |offsets| && MarkedSoFar(instructions, offsets, k, starts, current)
    requires IndexFromOffset(instructions, offsets[k]) in current
    requires IndicesOf(instructions, offsets[..k + 1]) == IndicesOf(instructions, offsets[..k]) + {IndexFromOffset(instructions, offsets[k])}
    ensures MarkedSoFar(instructions, offsets, k + 1, starts, current)
  {
  }

  lemma MarkNew(instructions: seq<Instruction>, offsets: seq<UInt32>, k: nat, starts: seq<nat>, current: seq<nat>)
    requires k < |offsets| && MarkedSoFar(instructions, offsets, k, starts, current)
    requires IndexFromOffset(instructions, offsets[k]) != -1 && IndexFromOffset(instructions, offsets[k]) !in current
    requires IndicesOf(instructions, offsets[..k + 1]) == IndicesOf(instructions, offsets[..k]) + {IndexFromOffset(instructions, offsets[k])}
    ensures MarkedSoFar(instructions, offsets, k + 1, starts, current + [IndexFromOffset(instructions, offsets[k]) as nat])
  {
    var at: nat := IndexFromOffset(instructions, offsets[k]);
    DistinctAppendNew(current, at);
    assert (current + [at])[..|starts|] == current[..|starts|];
  }

  /** One more offset adds its index to those resolved so far. */
  lemma IndicesOfStep(instructions: seq<Instruction>, offsets: seq<UInt32>, k: nat)
    requires k < |offsets|
    ensures IndicesOf(instructions, offsets[..k + 1]) == IndicesOf(instructions, offsets[..k]) + {IndexFromOffset(instructions, offsets[k])}
  {
    assert offsets[..k + 1][..k] == offsets[..k];
  }

  /** Each offset's index is among the indices the offsets resolve to. */
  lemma {:induction false} IndicesOfHas(instructions: seq<Instruction>, offsets: seq<UInt32>, k: nat)
    requires k < |offsets|
    ensures IndexFromOffset(instructions, offsets[k]) in IndicesOf(instructions, offsets)
    decreases |offsets|
  {
    if k < |offsets| - 1 {
      IndicesOfHas(instructions, offsets[..|offsets| - 1], k);
    }
  }

  /** The marks only grow as the scan moves on. */
  lemma MarkedIndicesGrow(instructions: seq<Instruction>, first: nat, last: nat, i: nat, j: nat)
    requires first <= i <= j <= |instructions|
    ensures MarkedIndices(instructions, first, last, i) <= MarkedIndices(instructions, first, last, j)
  {
    AccumulatedGrows(MarksOf(instructions, last), first, i, j);
  }

  /**
   * Every offset a branch in the function leads to, its successors and the instruction after
   * it, resolves to an index the scan marks as a block start.
   */
  lemma BranchOffsetsMarked(instructions: seq<Instruction>, first: nat, last: nat, i: nat, k: nat)
    requires first <= i <= last < |instructions| && Branch(instructions[i])
    requires MarkedOffsets(instructions, i, last).Ok? && k < |MarkedOffsets(instructions, i, last).value|
    ensures IndexFromOffset(instructions, MarkedOffsets(instructions, i, last).value[k]) in MarkedIndices(instructions, first, last, last + 1)
  {
    IndicesOfHas(instructions, MarkedOffsets(instructions, i, last).value, k);
    MarkedIndicesGrow(instructions, first, last, i + 1, last + 1);
  }

  lemma DistinctAppendNew<T>(s: seq<T>, x: T)
    requires Distinct(s) && x !in s
    ensures Distinct(s + [x])
  {
  }

  lemma {:induction false} TypesFoundSome(instructions: seq<Instruction>, first: nat, i: nat, alloca: bool)
    requires first <= i < |instructions| && TypesFound(instructions, first, i, alloca).Some?
    ensures exists j | first <= j < i :: if alloca then AllocaAt(instructions, j) else ArgCheckAt(instructions, j)
    decreases i - first
  {
    if !(if alloca then AllocaAt(instructions, i - 1) else ArgCheckAt(instructions, i - 1)) {
      TypesFoundSome(instructions, first, i - 1, alloca);
    }
  }

  lemma {:induction false} TypesFoundNone(instructions: seq<Instruction>, first: nat, i: nat, alloca: bool)
    requires first <= i < |instructions| && TypesFound(instructions, first, i, alloca).None?
    ensures forall j | first <= j < i :: !(if alloca then AllocaAt(instructions, j) else ArgCheckAt(instructions, j))
    decreases i - first
  {
    if i > first {
      TypesFoundNone(instructions, first, i - 1, alloca);
    }
  }
}

// The two earlier control-flow builders: src/MajiroLib/Script/Analysis/ControlFlowGraph.cs (the
// earliest, with its function record src/MajiroLib/Script/Analysis/Function.cs) and
// src/MajiroLib/Script/Analysis/ControlFlow/ControlFlowGraph.cs (the second). Both split the
// script at its function entries, split each function into blocks at the jump destinations,
// sort the blocks by first instruction and link them. They differ in where control can go
// after an instruction, in what a branch marks, and in the second's "link consecutive blocks"
// loop. In that revision a block is the index range [FirstInstructionIndex, LastInstructionIndex]
// of the script and refers to other blocks by object; here blocks refer to each other by their
// position in the function's sorted block list.

module LegacyGraphs {
  import opened Wrappers
  import opened Flags
  import opened Instructions
  import opened Scripts
  import opened ControlFlow
  import FunctionAnalysis
  import FunctionStarts
  import Numerals

  const NoJumpTarget: string := "Unable to determine jump target"
  const NoLastInstruction: string := "Unable to find last instruction"
  const InvalidJumpTarget: string := "Invalid jump target"
  /** The condition of the second builder's `Debug.Assert` on the parameter types. */
  const ParameterTypesUnset: string := "function.ParameterTypes == null"

  datatype Revision = Earliest | Second

  /**
   * In that revision an instruction's offset and size are `uint`s, and a jump's displacement is
   * an `int`: they are always there.
   */
  predicate OldFields(i: Instruction) {
    i.offset.Some? && i.size.Some? && (IsJump(i) ==> i.jumpOffset.Some?)
  }

  predicate OldScript(script: seq<Instruction>) {
    forall k | 0 <= k < |script| :: OldFields(script[k])
  }

  // ---------------------------------------------------------------------------------------
  // The records

  /** A block of that revision: an index range of the script, its flags and its edges. */
  datatype OldBlock = OldBlock(
    firstInstructionIndex: nat,
    /** -1 until the loop that finds block ends has set it. */
    lastInstructionIndex: int,
    isEntryBlock: bool,
    isExitBlock: bool,
    predecessors: seq<nat>,
    successors: seq<nat>)

  /** The function record of that revision; entry and exits are positions in `basicBlocks`. */
  datatype OldFunction = OldFunction(
    nameHash: bv32,
    firstInstructionIndex: int,
    lastInstructionIndex: int,
    entryBlock: Option<nat>,
    exitBlocks: Option<seq<nat>>,
    basicBlocks: Option<seq<OldBlock>>,
    parameterTypes: Option<seq<MjoType>>)

  /** A block of the graph: the position of its function and its position in that function's list. */
  datatype BlockRef = BlockRef(owner: nat, block: nat)

  /**
   * What the builders write into the script's instructions, by instruction index: `Block`
   * (second builder only), `JumpTarget` and `SwitchTargets`, where null is None.
   */
  datatype Writes = Writes(
    blockOf: map<nat, BlockRef>,
    jumpTargets: map<nat, Option<BlockRef>>,
    switchTargets: map<nat, seq<Option<BlockRef>>>)

  datatype LegacyGraph = LegacyGraph(functions: seq<OldFunction>, writes: Writes)

  // ---------------------------------------------------------------------------------------
  // The function record (src/MajiroLib/Script/Analysis/Function.cs)

  /** `InstructionCount`: the length of first..last once both are set, else -1. */
  function OldInstructionCount(f: OldFunction): (n: int)
    ensures f.firstInstructionIndex != -1 && f.lastInstructionIndex != -1 ==>
      f.firstInstructionIndex + n - 1 == f.lastInstructionIndex
    ensures f.firstInstructionIndex == -1 || f.lastInstructionIndex == -1 ==> n == -1
  {
    if f.firstInstructionIndex != -1 && f.lastInstructionIndex != -1
    then f.lastInstructionIndex - f.firstInstructionIndex + 1 else -1
  }

  /**
   * `Instructions`: the script's instructions first..last. `Enumerable.Range` throws on a
   * negative start or count, and the indexer past the end of the list.
   */
  function OldInstructions(f: OldFunction, script: seq<Instruction>): (r: Result<seq<Instruction>>)
    ensures r.Ok? <==> 0 <= f.firstInstructionIndex && 0 <= OldInstructionCount(f)
                       && f.firstInstructionIndex + OldInstructionCount(f) <= |script|
    ensures r.Ok? ==> |r.value| == OldInstructionCount(f)
    ensures r.Ok? ==> forall k | 0 <= k < |r.value| :: r.value[k] == script[f.firstInstructionIndex + k]
  {
    var n := OldInstructionCount(f);
    if f.firstInstructionIndex < 0 || n < 0 then Err(Thrown("Specified argument was out of the range of valid values"))
    else if f.firstInstructionIndex + n > |script| then Err(Thrown(IndexOutOfRange))
    else Ok(script[f.firstInstructionIndex .. f.firstInstructionIndex + n])
  }

  /** Block b's first instruction, read from the script, has the offset. */
  predicate Hit(script: seq<Instruction>, b: OldBlock, offset: UInt32) {
    b.firstInstructionIndex < |script| && script[b.firstInstructionIndex].offset == Some(offset)
  }

  predicate FirstsWithin(script: seq<Instruction>, blocks: seq<OldBlock>) {
    forall j | 0 <= j < |blocks| :: blocks[j].firstInstructionIndex < |script|
  }

  /**
   * `List.Find` from position k with the predicate `Script.Instructions[block.FirstInstructionIndex].Offset == offset`:
   * the first block that starts at the offset, None (null) when there is none. A first index
   * outside the script throws when the search reaches it.
   */
  function FindFrom(script: seq<Instruction>, blocks: seq<OldBlock>, offset: UInt32, k: nat): (r: Result<Option<nat>>)
    requires k <= |blocks|
    ensures FirstsWithin(script, blocks) ==> r.Ok?
    ensures r.Ok? && r.value.Some? ==>
      k <= r.value.value < |blocks| && Hit(script, blocks[r.value.value], offset) &&
      forall j | k <= j < r.value.value :: !Hit(script, blocks[j], offset)
    ensures r.Ok? && r.value.None? ==> forall j | k <= j < |blocks| :: !Hit(script, blocks[j], offset)
    decreases |blocks| - k
  {
    if k == |blocks| then Ok(None)
    else if blocks[k].firstInstructionIndex >= |script| then Err(Thrown(IndexOutOfRange))
    else if script[blocks[k].firstInstructionIndex].offset == Some(offset) then Ok(Some(k))
    else FindFrom(script, blocks, offset, k + 1)
  }

  /** `BasicBlockFromOffset`: reading the block list before it is set throws. */
  function BasicBlockFromOffset(f: OldFunction, script: seq<Instruction>, offset: UInt32): (r: Result<Option<nat>>)
    ensures f.basicBlocks.None? ==> r == Err(Thrown(NullReference))
    ensures f.basicBlocks.Some? && FirstsWithin(script, f.basicBlocks.value) ==>
      r.Ok? && (r.value.Some? <==> exists j | 0 <= j < |f.basicBlocks.value| :: Hit(script, f.basicBlocks.value[j], offset))
    ensures r.Ok? && r.value.Some? ==>
      r.value.value < |f.basicBlocks.value| && Hit(script, f.basicBlocks.value[r.value.value], offset) &&
      forall j | 0 <= j < r.value.value :: !Hit(script, f.basicBlocks.value[j], offset)
  {
    if f.basicBlocks.None? then Err(Thrown(NullReference)) else FindFrom(script, f.basicBlocks.value, offset, 0)
  }

  // ---------------------------------------------------------------------------------------
  // Where control goes (`PossibleNextInstructionOffsets`)

  /** The case destinations both revisions' `AnalyzeBasicBlock` look up: offset + size + case, relative to the instruction's end. */
  function SizeRelativeCases(i: Instruction): (r: seq<UInt32>)
    requires OldFields(i) && i.switchOffsets.Some?
    ensures |r| == |i.switchOffsets.value|
    ensures forall k | 0 <= k < |r| :: r[k] == Low32(i.offset.value + i.size.value + i.switchOffsets.value[k])
  {
    var cases := i.switchOffsets.value;
    seq(|cases|, k requires 0 <= k < |cases| => Low32(i.offset.value + i.size.value + cases[k]))
  }

  /**
   * The earliest builder's rule: the next instruction always comes first, even after a return
   * or an unconditional jump; a jump adds its destination and stops; otherwise a case list,
   * when there is one, adds each case at offset + size + case.
   */
  function EarliestNext(i: Instruction): (r: seq<UInt32>)
    requires OldFields(i)
    ensures |r| > 0 && r[0] == FallThrough(i)
    ensures IsJump(i) ==> |r| == 2 && r[1] == JumpDestination(i)
    ensures !IsJump(i) && i.switchOffsets.None? ==> |r| == 1
    ensures !IsJump(i) && i.switchOffsets.Some? ==> r[1..] == SizeRelativeCases(i)
  {
    [FallThrough(i)] +
    (if IsJump(i) then [JumpDestination(i)] else if i.switchOffsets.Some? then SizeRelativeCases(i) else [])
  }

  /** The successor offsets of the revision; the second builder's are those of the current pass. */
  function Successors(rev: Revision, i: Instruction): Result<seq<UInt32>>
    requires OldFields(i)
  {
    if rev == Earliest then Ok(EarliestNext(i)) else NextOffsets(i)
  }

  /** A conditional jump: the same two offsets as the current rule, in the other order. */
  lemma EarliestConditionalJump(i: Instruction)
    requires OldFields(i) && IsJump(i) && !IsUnconditionalJump(i) && !IsReturn(i) && !IsSwitch(i)
    ensures NextOffsets(i).Ok? && EarliestNext(i) == [NextOffsets(i).value[1], NextOffsets(i).value[0]]
  {
    NextOffsetsOk(i);
  }

  /**
   * An unconditional jump: the earliest rule also lets control fall through to the next
   * instruction, which the current rule does not.
   */
  lemma EarliestJumpFallsThrough(i: Instruction)
    requires OldFields(i) && IsJump(i) && IsUnconditionalJump(i) && !IsReturn(i)
    requires JumpDestination(i) != FallThrough(i)
    ensures FallThrough(i) in EarliestNext(i)
    ensures NextOffsets(i).Ok? && FallThrough(i) !in NextOffsets(i).value
  {
    NextOffsetsOk(i);
    assert NextOffsets(i).value == [JumpDestination(i)];
  }

  /** A return: the earliest rule still lists the next instruction, the current one nothing. */
  lemma EarliestReturnFallsThrough(i: Instruction)
    requires OldFields(i) && IsReturn(i) && !IsJump(i)
    ensures EarliestNext(i)[0] == FallThrough(i) && NextOffsets(i) == Ok([])
  {
  }

  /**
   * A switch of n cases is 4 + 4n bytes long, so a case relative to the instruction's end
   * agrees with the current rule, relative to the case's own slot, only for the last case.
   */
  lemma SizeRelativeLastCase(i: Instruction)
    requires OldFields(i) && i.switchOffsets.Some? && |i.switchOffsets.value| > 0
    requires i.size.value == 4 + 4 * |i.switchOffsets.value|
    ensures var n := |i.switchOffsets.value|;
      SizeRelativeCases(i)[n - 1] == CaseDestinations(i.offset.value, i.switchOffsets.value)[n - 1]
  {
  }

  /** ... and for every earlier case it lands 4(n - 1 - k) bytes further on. */
  lemma SizeRelativeEarlierCase(i: Instruction, k: nat)
    requires OldFields(i) && i.switchOffsets.Some? && k + 1 < |i.switchOffsets.value|
    requires i.size.value == 4 + 4 * |i.switchOffsets.value|
    ensures SizeRelativeCases(i)[k] != CaseDestinations(i.offset.value, i.switchOffsets.value)[k]
  {
    var n := |i.switchOffsets.value|;
    var c := i.switchOffsets.value[k];
    var o := i.offset.value;
    assert o + i.size.value + c == (o + 4 + 4 * k + 4 + c) + 4 * (n - 1 - k);
    assert 0 < 4 * (n - 1 - k) < 0x1_0000_0000;
    Low32Shift(o + 4 + 4 * k + 4 + c, 4 * (n - 1 - k));
  }

  lemma Low32Shift(x: int, d: int)
    requires 0 < d < 0x1_0000_0000
    ensures Low32(x + d) != Low32(x)
  {
  }

  // ---------------------------------------------------------------------------------------
  // The boundary scan of `AnalyzeFunction`

  /**
   * What the scan keeps: the first index of each block object, in the order they are made;
   * the `startIndices` set, as the list of what was added to it; the parameter types.
   */
  datatype Scan = Scan(blockStarts: seq<nat>, startIndices: seq<nat>, parameterTypes: Option<seq<MjoType>>)

  /** `MarkBasicBlockStart`: the offset must be an instruction's; a new index makes a block. */
  function MarkOne(script: seq<Instruction>, offset: UInt32, s: Scan): Result<Scan> {
    var index := IndexFromOffset(script, offset);
    if index == -1 then Err(Thrown(NoJumpTarget))
    else if index in s.startIndices then Ok(s)
    else Ok(Scan(s.blockStarts + [index], s.startIndices + [index], s.parameterTypes))
  }

  /** `MarkBasicBlockStart` for each offset in turn. */
  function Mark(script: seq<Instruction>, offsets: seq<UInt32>, s: Scan): Result<Scan>
    decreases |offsets|
  {
    if |offsets| == 0 then Ok(s)
    else match MarkOne(script, offsets[0], s)
      case Err(e) => Err(e)
      case Ok(t) => Mark(script, offsets[1..], t)
  }

  /**
   * The scan's step at instruction i: a branch marks its successors (the second builder then
   * adds the next index to the start set, with no block), an argument check sets the
   * parameter types (the second builder asserts they were not set yet).
   */
  function ScanAt(rev: Revision, script: seq<Instruction>, i: nat, s: Scan): Result<Scan>
    requires i < |script| && OldScript(script)
  {
    var ins := script[i];
    if Branch(ins) then
      match Successors(rev, ins)
      case Err(e) => Err(e)
      case Ok(offsets) =>
        match Mark(script, offsets, s)
        case Err(e) => Err(e)
        case Ok(t) => if rev == Second then Ok(t.(startIndices := t.startIndices + [i + 1])) else Ok(t)
    else if IsArgCheck(ins) then
      if rev == Second && s.parameterTypes.Some? then Err(AssertFailed(ParameterTypesUnset))
      else Ok(s.(parameterTypes := Some(ins.typeList)))
    else Ok(s)
  }

  /** The scan from instruction i up to, but not including, the function's last instruction. */
  function ScanFrom(rev: Revision, script: seq<Instruction>, i: nat, last: nat, s: Scan): Result<Scan>
    requires i <= last < |script| && OldScript(script)
    decreases last - i
  {
    if i == last then Ok(s)
    else match ScanAt(rev, script, i, s)
      case Err(e) => Err(e)
      case Ok(t) => ScanFrom(rev, script, i + 1, last, t)
  }

  function ScanStart(first: nat): Scan {
    Scan([first], [first], None)
  }

  /** The loop over the offsets of one branch. */
  method MarkBasicBlockStarts(script: seq<Instruction>, offsets: seq<UInt32>, s: Scan) returns (r: Result<Scan>)
    ensures r == Mark(script, offsets, s)
  {
    var t := s;
    var k := 0;
    while k < |offsets|
      invariant k <= |offsets| && Mark(script, offsets, s) == Mark(script, offsets[k..], t)
    {
      var index := IndexFromOffset(script, offsets[k]);
      if index == -1 {
        return Err(Thrown(NoJumpTarget));
      }
      if index !in t.startIndices {
        t := Scan(t.blockStarts + [index], t.startIndices + [index], t.parameterTypes);
      }
      assert offsets[k..][1..] == offsets[k + 1..];
      k := k + 1;
    }
    return Ok(t);
  }

  /** The loop "mark basic block boundaries" over [first, last). */
  method ScanFunction(rev: Revision, script: seq<Instruction>, first: nat, last: nat) returns (r: Result<Scan>)
    requires first <= last < |script| && OldScript(script)
    ensures r == ScanFrom(rev, script, first, last, ScanStart(first))
  {
    var s := ScanStart(first);
    var i := first;
    while i < last
      invariant first <= i <= last && ScanFrom(rev, script, first, last, ScanStart(first)) == ScanFrom(rev, script, i, last, s)
    {
      var next := ScanInstruction(rev, script, i, s);
      if next.Err? {
        return Err(next.error);
      }
      s := next.value;
      i := i + 1;
    }
    return Ok(s);
  }

  /** The body of that loop for instruction i. */
  method ScanInstruction(rev: Revision, script: seq<Instruction>, i: nat, s: Scan) returns (r: Result<Scan>)
    requires i < |script| && OldScript(script)
    ensures r == ScanAt(rev, script, i, s)
  {
    var ins := script[i];
    if Branch(ins) {
      var offsets: seq<UInt32>;
      if rev == Earliest {
        offsets := EarliestNext(ins);
      } else {
        var next := NextOffsets(ins);
        if next.Err? {
          return Err(next.error);
        }
        offsets := next.value;
      }
      var marked := MarkBasicBlockStarts(script, offsets, s);
      if marked.Err? {
        return Err(marked.error);
      }
      r := marked;
      if rev == Second {
        r := Ok(marked.value.(startIndices := marked.value.startIndices + [i + 1]));
      }
    } else if IsArgCheck(ins) {
      if rev == Second && s.parameterTypes.Some? {
        return Err(AssertFailed(ParameterTypesUnset));
      }
      r := Ok(s.(parameterTypes := Some(ins.typeList)));
    } else {
      r := Ok(s);
    }
  }

  // What the scan establishes

  /** The scan gets past instruction j: a branch's successors can be read and are all instructions. */
  predicate StepOk(rev: Revision, script: seq<Instruction>, j: nat)
    requires j < |script| && OldScript(script)
  {
    Branch(script[j]) ==> Successors(rev, script[j]).Ok? && AllFound(script, Successors(rev, script[j]).value)
  }

  /** No argument check (that is no branch) in [i, last). */
  predicate NoArgCheck(script: seq<Instruction>, i: nat, last: nat)
    requires last <= |script|
  {
    forall j | i <= j < last :: !ArgCheckAt(script, j)
  }

  /** At most one argument check in [i, last). */
  predicate OneArgCheck(script: seq<Instruction>, i: nat, last: nat)
    requires last <= |script|
  {
    forall j, k | i <= j < k < last :: !(ArgCheckAt(script, j) && ArgCheckAt(script, k))
  }

  /** The conditions under which the scan from i gets through. */
  ghost predicate ScanClears(rev: Revision, script: seq<Instruction>, i: nat, last: nat, s: Scan)
    requires i <= last < |script| && OldScript(script)
  {
    (forall j | i <= j < last :: StepOk(rev, script, j)) &&
    (rev == Second ==> OneArgCheck(script, i, last) && (s.parameterTypes.Some? ==> NoArgCheck(script, i, last)))
  }

  /** Marking gets through exactly when every offset is an instruction's. */
  lemma {:induction false} MarkOk(script: seq<Instruction>, offsets: seq<UInt32>, s: Scan)
    ensures Mark(script, offsets, s).Ok? <==> AllFound(script, offsets)
    ensures Mark(script, offsets, s).Err? ==> Mark(script, offsets, s) == Err(Thrown(NoJumpTarget))
    decreases |offsets|
  {
    if |offsets| > 0 {
      var index := IndexFromOffset(script, offsets[0]);
      if index != -1 {
        MarkOk(script, offsets[1..], MarkOne(script, offsets[0], s).value);
        assert AllFound(script, offsets) <==> AllFound(script, offsets[1..]) by {
          assert forall k | 1 <= k < |offsets| :: offsets[k] == offsets[1..][k - 1];
        }
      }
    }
  }

  /** The facts about a scan state that every step keeps. */
  ghost predicate Kept(rev: Revision, script: seq<Instruction>, s: Scan) {
    Distinct(s.blockStarts) && (forall x | x in s.blockStarts :: x in s.startIndices && x < |script|) &&
    (rev == Earliest ==> forall x | x in s.startIndices :: x in s.blockStarts)
  }

  /** The index control reaches at an offset; only meaningful when the offset is found. */
  function At(script: seq<Instruction>, o: UInt32): int {
    IndexFromOffset(script, o)
  }

  /** Marking keeps the state's facts, only appends block starts and only adds to the start set. */
  lemma {:induction false} MarkKeeps(rev: Revision, script: seq<Instruction>, offsets: seq<UInt32>, s: Scan)
    requires Kept(rev, script, s) && Mark(script, offsets, s).Ok?
    ensures var t := Mark(script, offsets, s).value;
      Kept(rev, script, t) && |s.blockStarts| <= |t.blockStarts| && t.blockStarts[..|s.blockStarts|] == s.blockStarts &&
      (forall x | x in s.startIndices :: x in t.startIndices) && t.parameterTypes == s.parameterTypes
    decreases |offsets|
  {
    if |offsets| > 0 {
      var index := IndexFromOffset(script, offsets[0]);
      var t1 := MarkOne(script, offsets[0], s).value;
      if index !in s.startIndices {
        DistinctAppendNew(s.blockStarts, index as nat);
      }
      MarkKeeps(rev, script, offsets[1..], t1);
      var t := Mark(script, offsets, s).value;
      assert t.blockStarts[..|s.blockStarts|] == t1.blockStarts[..|s.blockStarts|];
    }
  }

  /** After marking, every offset's index is in the start set. */
  lemma {:induction false} MarkCovers(script: seq<Instruction>, offsets: seq<UInt32>, s: Scan)
    requires Mark(script, offsets, s).Ok?
    ensures forall k | 0 <= k < |offsets| :: At(script, offsets[k]) in Mark(script, offsets, s).value.startIndices
    decreases |offsets|
  {
    if |offsets| > 0 {
      var t1 := MarkOne(script, offsets[0], s).value;
      MarkCovers(script, offsets[1..], t1);
      MarkGrows(script, offsets[1..], t1);
      var t := Mark(script, offsets, s).value;
      forall k | 0 <= k < |offsets| ensures At(script, offsets[k]) in t.startIndices {
        if k > 0 {
          assert offsets[k] == offsets[1..][k - 1];
        }
      }
    }
  }

  /** Marking only adds to the start set. */
  lemma {:induction false} MarkGrows(script: seq<Instruction>, offsets: seq<UInt32>, s: Scan)
    requires Mark(script, offsets, s).Ok?
    ensures forall x | x in s.startIndices :: x in Mark(script, offsets, s).value.startIndices
    decreases |offsets|
  {
    if |offsets| > 0 {
      MarkGrows(script, offsets[1..], MarkOne(script, offsets[0], s).value);
    }
  }

  /** Marking makes blocks only at the offsets' indices. */
  lemma {:induction false} MarkOrigin(script: seq<Instruction>, offsets: seq<UInt32>, s: Scan)
    requires Mark(script, offsets, s).Ok?
    ensures forall x | x in Mark(script, offsets, s).value.blockStarts && x !in s.blockStarts ::
      exists k | 0 <= k < |offsets| :: At(script, offsets[k]) == x
    decreases |offsets|
  {
    if |offsets| > 0 {
      var t1 := MarkOne(script, offsets[0], s).value;
      MarkOrigin(script, offsets[1..], t1);
      var t := Mark(script, offsets, s).value;
      forall x | x in t.blockStarts && x !in s.blockStarts ensures exists k | 0 <= k < |offsets| :: At(script, offsets[k]) == x {
        if x in t1.blockStarts {
          assert At(script, offsets[0]) == x;
        } else {
          var k :| 0 <= k < |offsets[1..]| && At(script, offsets[1..][k]) == x;
          assert At(script, offsets[k + 1]) == x;
        }
      }
    }
  }

  /** The step keeps the state's facts. */
  lemma ScanAtKeeps(rev: Revision, script: seq<Instruction>, i: nat, s: Scan)
    requires i < |script| && OldScript(script) && Kept(rev, script, s) && ScanAt(rev, script, i, s).Ok?
    ensures var t := ScanAt(rev, script, i, s).value;
      Kept(rev, script, t) && |s.blockStarts| <= |t.blockStarts| && t.blockStarts[..|s.blockStarts|] == s.blockStarts &&
      (forall x | x in s.startIndices :: x in t.startIndices) &&
      (Branch(script[i]) ==> forall o | o in Successors(rev, script[i]).value :: At(script, o) in t.startIndices) &&
      (Branch(script[i]) && rev == Second ==> i + 1 in t.startIndices) &&
      (forall x | x in t.blockStarts && x !in s.blockStarts ::
         Branch(script[i]) && exists o | o in Successors(rev, script[i]).value :: At(script, o) == x)
  {
    if Branch(script[i]) {
      var offsets := Successors(rev, script[i]).value;
      MarkKeeps(rev, script, offsets, s);
      MarkCovers(script, offsets, s);
      MarkOrigin(script, offsets, s);
      var m := Mark(script, offsets, s).value;
      forall o | o in offsets ensures At(script, o) in m.startIndices {
        var k :| 0 <= k < |offsets| && offsets[k] == o;
      }
      forall x | x in m.blockStarts && x !in s.blockStarts ensures exists o | o in offsets :: At(script, o) == x {
        var k :| 0 <= k < |offsets| && At(script, offsets[k]) == x;
        assert offsets[k] in offsets;
      }
    }
  }

  /** The scan gets through from i exactly when every step can be taken. */
  lemma {:induction false} ScanFromOk(rev: Revision, script: seq<Instruction>, i: nat, last: nat, s: Scan)
    requires i <= last < |script| && OldScript(script)
    ensures ScanFrom(rev, script, i, last, s).Ok? <==> ScanClears(rev, script, i, last, s)
    decreases last - i
  {
    if i < last {
      ScanAtOk(rev, script, i, s);
      if ScanAt(rev, script, i, s).Ok? {
        var t := ScanAt(rev, script, i, s).value;
        assert ScanFrom(rev, script, i + 1, last, t).Ok? <==> ScanClears(rev, script, i + 1, last, t) by {
          ScanFromOk(rev, script, i + 1, last, t);
        }
        assert ScanClears(rev, script, i, last, s) <==> ScanClears(rev, script, i + 1, last, t) by {
          ClearsStep(rev, script, i, last, s, t);
        }
        assert ScanFrom(rev, script, i, last, s) == ScanFrom(rev, script, i + 1, last, t);
      } else {
        ClearsFails(rev, script, i, last, s);
      }
    }
  }

  /** A step that does not get through makes the conditions from it on fail. */
  lemma ClearsFails(rev: Revision, script: seq<Instruction>, i: nat, last: nat, s: Scan)
    requires i < last < |script| && OldScript(script)
    requires !(StepOk(rev, script, i) && !(rev == Second && s.parameterTypes.Some? && ArgCheckAt(script, i)))
    ensures !ScanClears(rev, script, i, last, s)
  {
    StepsOkSplit(rev, script, i, last);
    NoArgCheckSplit(script, i, last);
  }

  /** One step gets through exactly when its successors resolve and, in the second builder, no second argument check is met. */
  lemma ScanAtOk(rev: Revision, script: seq<Instruction>, i: nat, s: Scan)
    requires i < |script| && OldScript(script)
    ensures ScanAt(rev, script, i, s).Ok? <==> StepOk(rev, script, i) && !(rev == Second && s.parameterTypes.Some? && ArgCheckAt(script, i))
    ensures ScanAt(rev, script, i, s).Ok? ==>
      ScanAt(rev, script, i, s).value.parameterTypes == (if ArgCheckAt(script, i) then Some(script[i].typeList) else s.parameterTypes)
  {
    var ins := script[i];
    if Branch(ins) && Successors(rev, ins).Ok? {
      MarkOk(script, Successors(rev, ins).value, s);
      if Mark(script, Successors(rev, ins).value, s).Ok? {
        MarkTypes(script, Successors(rev, ins).value, s);
      }
    }
  }

  lemma {:induction false} MarkTypes(script: seq<Instruction>, offsets: seq<UInt32>, s: Scan)
    requires Mark(script, offsets, s).Ok?
    ensures Mark(script, offsets, s).value.parameterTypes == s.parameterTypes
    decreases |offsets|
  {
    if |offsets| > 0 {
      MarkTypes(script, offsets[1..], MarkOne(script, offsets[0], s).value);
    }
  }

  lemma ClearsStep(rev: Revision, script: seq<Instruction>, i: nat, last: nat, s: Scan, t: Scan)
    requires i < last < |script| && OldScript(script)
    requires StepOk(rev, script, i) && !(rev == Second && s.parameterTypes.Some? && ArgCheckAt(script, i))
    requires t.parameterTypes == (if ArgCheckAt(script, i) then Some(script[i].typeList) else s.parameterTypes)
    ensures ScanClears(rev, script, i, last, s) <==> ScanClears(rev, script, i + 1, last, t)
  {
    StepsOkSplit(rev, script, i, last);
    NoArgCheckSplit(script, i, last);
    OneArgCheckSplit(script, i, last);
  }

  lemma StepsOkSplit(rev: Revision, script: seq<Instruction>, i: nat, last: nat)
    requires i < last < |script| && OldScript(script)
    ensures (forall j | i <= j < last :: StepOk(rev, script, j)) <==>
      StepOk(rev, script, i) && forall j | i + 1 <= j < last :: StepOk(rev, script, j)
  {
  }

  lemma NoArgCheckSplit(script: seq<Instruction>, i: nat, last: nat)
    requires i < last <= |script|
    ensures NoArgCheck(script, i, last) <==> !ArgCheckAt(script, i) && NoArgCheck(script, i + 1, last)
  {
  }

  lemma OneArgCheckSplit(script: seq<Instruction>, i: nat, last: nat)
    requires i < last <= |script|
    ensures OneArgCheck(script, i, last) <==>
      OneArgCheck(script, i + 1, last) && (ArgCheckAt(script, i) ==> NoArgCheck(script, i + 1, last))
  {
  }

  /** Instruction j is a branch and one of its successors is at index x. */
  ghost predicate TargetOf(rev: Revision, script: seq<Instruction>, j: nat, x: int)
    requires j < |script| && OldScript(script)
  {
    Branch(script[j]) && Successors(rev, script[j]).Ok? && exists o | o in Successors(rev, script[j]).value :: At(script, o) == x
  }

  /** Every successor of instruction j, when it is a branch, is in the start set. */
  ghost predicate Covered(rev: Revision, script: seq<Instruction>, j: nat, t: Scan)
    requires j < |script| && OldScript(script)
  {
    Branch(script[j]) ==>
      (Successors(rev, script[j]).Ok? &&
       (forall o | o in Successors(rev, script[j]).value :: At(script, o) in t.startIndices) &&
       (rev == Second ==> j + 1 in t.startIndices))
  }

  /** The step at i: the start set covers its successors, and new blocks start only at them. */
  lemma ScanAtCovers(rev: Revision, script: seq<Instruction>, i: nat, s: Scan)
    requires i < |script| && OldScript(script) && Kept(rev, script, s) && ScanAt(rev, script, i, s).Ok?
    ensures Covered(rev, script, i, ScanAt(rev, script, i, s).value)
    ensures forall x | x in ScanAt(rev, script, i, s).value.blockStarts && x !in s.blockStarts :: TargetOf(rev, script, i, x)
    ensures ScanAt(rev, script, i, s).value.parameterTypes == (if ArgCheckAt(script, i) then Some(script[i].typeList) else s.parameterTypes)
  {
    ScanAtKeeps(rev, script, i, s);
    if Branch(script[i]) {
      MarkKeeps(rev, script, Successors(rev, script[i]).value, s);
    }
  }

  /**
   * The scan from i keeps the state's facts; it only appends blocks and only adds to the start
   * set; the start set covers every branch's successors (and, in the second builder, the
   * instruction after every branch); and every new block starts at some branch's successor.
   */
  lemma {:induction false} ScanFromKeeps(rev: Revision, script: seq<Instruction>, i: nat, last: nat, s: Scan)
    requires i <= last < |script| && OldScript(script) && Kept(rev, script, s) && ScanFrom(rev, script, i, last, s).Ok?
    ensures var t := ScanFrom(rev, script, i, last, s).value;
      Kept(rev, script, t) && |s.blockStarts| <= |t.blockStarts| && t.blockStarts[..|s.blockStarts|] == s.blockStarts &&
      (forall x | x in s.startIndices :: x in t.startIndices) &&
      (forall j | i <= j < last :: Covered(rev, script, j, t)) &&
      (forall x | x in t.blockStarts && x !in s.blockStarts :: exists j | i <= j < last :: TargetOf(rev, script, j, x))
    decreases last - i
  {
    if i < last {
      var t1 := ScanAt(rev, script, i, s).value;
      ScanAtKeeps(rev, script, i, s);
      ScanAtCovers(rev, script, i, s);
      ScanFromKeeps(rev, script, i + 1, last, t1);
      var t := ScanFrom(rev, script, i, last, s).value;
      assert t.blockStarts[..|s.blockStarts|] == t1.blockStarts[..|s.blockStarts|];
      forall j | i <= j < last ensures Covered(rev, script, j, t) {
        if j == i {
          CoveredGrows(rev, script, i, t1, t);
        }
      }
      forall x | x in t.blockStarts && x !in s.blockStarts ensures exists j | i <= j < last :: TargetOf(rev, script, j, x) {
        if x in t1.blockStarts {
          assert TargetOf(rev, script, i, x);
        }
      }
    }
  }

  lemma CoveredGrows(rev: Revision, script: seq<Instruction>, j: nat, t: Scan, u: Scan)
    requires j < |script| && OldScript(script) && Covered(rev, script, j, t)
    requires forall x | x in t.startIndices :: x in u.startIndices
    ensures Covered(rev, script, j, u)
  {
  }

  /** The parameter types: those of the last argument check, or the ones before the scan when there is none. */
  lemma {:induction false} ScanFromTypes(rev: Revision, script: seq<Instruction>, i: nat, last: nat, s: Scan)
    requires i <= last < |script| && OldScript(script) && Kept(rev, script, s) && ScanFrom(rev, script, i, last, s).Ok?
    ensures NoArgCheck(script, i, last) ==> ScanFrom(rev, script, i, last, s).value.parameterTypes == s.parameterTypes
    ensures forall j | i <= j < last && ArgCheckAt(script, j) && NoArgCheck(script, j + 1, last) ::
      ScanFrom(rev, script, i, last, s).value.parameterTypes == Some(script[j].typeList)
    decreases last - i
  {
    if i < last {
      var t1 := ScanAt(rev, script, i, s).value;
      ScanAtKeeps(rev, script, i, s);
      ScanAtCovers(rev, script, i, s);
      ScanFromTypes(rev, script, i + 1, last, t1);
      assert NoArgCheck(script, i, last) ==> NoArgCheck(script, i + 1, last);
      forall j | i <= j < last && ArgCheckAt(script, j) && NoArgCheck(script, j + 1, last)
        ensures ScanFrom(rev, script, i, last, s).value.parameterTypes == Some(script[j].typeList)
      {
        if j == i {
          assert NoArgCheck(script, i + 1, last);
        }
      }
    }
  }

  /** An index already in the start set without a block never gets one later. */
  lemma {:induction false} NoLateBlock(rev: Revision, script: seq<Instruction>, i: nat, last: nat, s: Scan, x: nat)
    requires i <= last < |script| && OldScript(script) && ScanFrom(rev, script, i, last, s).Ok?
    requires x in s.startIndices && x !in s.blockStarts
    ensures x in ScanFrom(rev, script, i, last, s).value.startIndices && x !in ScanFrom(rev, script, i, last, s).value.blockStarts
    decreases last - i
  {
    if i < last {
      var t1 := ScanAt(rev, script, i, s).value;
      if Branch(script[i]) {
        MarkNoLateBlock(script, Successors(rev, script[i]).value, s, x);
      }
      NoLateBlock(rev, script, i + 1, last, t1, x);
    }
  }

  lemma {:induction false} MarkNoLateBlock(script: seq<Instruction>, offsets: seq<UInt32>, s: Scan, x: nat)
    requires Mark(script, offsets, s).Ok? && x in s.startIndices && x !in s.blockStarts
    ensures x in Mark(script, offsets, s).value.startIndices && x !in Mark(script, offsets, s).value.blockStarts
    decreases |offsets|
  {
    if |offsets| > 0 {
      MarkNoLateBlock(script, offsets[1..], MarkOne(script, offsets[0], s).value, x);
    }
  }

  /** The scan over [i, last) splits at any j in between. */
  lemma {:induction false} ScanFromSplit(rev: Revision, script: seq<Instruction>, i: nat, j: nat, last: nat, s: Scan)
    requires i <= j <= last < |script| && OldScript(script) && ScanFrom(rev, script, i, last, s).Ok?
    ensures ScanFrom(rev, script, i, j, s).Ok?
    ensures ScanFrom(rev, script, j, last, ScanFrom(rev, script, i, j, s).value) == ScanFrom(rev, script, i, last, s)
    decreases j - i
  {
    if i < j {
      ScanFromSplit(rev, script, i + 1, j, last, ScanAt(rev, script, i, s).value);
    }
  }

  /**
   * The second builder adds the instruction after a branch to the start set without making a
   * block for it. When no branch up to and including that one targets it, it never gets a
   * block, even when a later branch targets it: that later mark sees the index as already present.
   */
  lemma SecondFollowerWithoutBlock(script: seq<Instruction>, first: nat, last: nat, j: nat, follower: nat)
    requires first <= j < last < |script| && OldScript(script) && Branch(script[j])
    requires follower == j + 1 && follower != first
    requires forall k | first <= k <= j :: !TargetOf(Second, script, k, follower)
    requires ScanFrom(Second, script, first, last, ScanStart(first)).Ok?
    ensures follower in ScanFrom(Second, script, first, last, ScanStart(first)).value.startIndices
    ensures follower !in ScanFrom(Second, script, first, last, ScanStart(first)).value.blockStarts
  {
    ScanFromSplit(Second, script, first, j + 1, last, ScanStart(first));
    SecondFollowerUpTo(script, first, j, follower);
    NoLateBlock(Second, script, j + 1, last, ScanFrom(Second, script, first, j + 1, ScanStart(first)).value, follower);
  }

  /** The first half: right after the branch, the follower is in the start set without a block. */
  lemma SecondFollowerUpTo(script: seq<Instruction>, first: nat, j: nat, follower: nat)
    requires first <= j < j + 1 < |script| && OldScript(script) && Branch(script[j])
    requires follower == j + 1 && follower != first
    requires forall k | first <= k <= j :: !TargetOf(Second, script, k, follower)
    requires ScanFrom(Second, script, first, j + 1, ScanStart(first)).Ok?
    ensures follower in ScanFrom(Second, script, first, j + 1, ScanStart(first)).value.startIndices
    ensures follower !in ScanFrom(Second, script, first, j + 1, ScanStart(first)).value.blockStarts
  {
    ScanFromKeeps(Second, script, first, j + 1, ScanStart(first));
    assert Covered(Second, script, j, ScanFrom(Second, script, first, j + 1, ScanStart(first)).value);
  }

  // ---------------------------------------------------------------------------------------
  // Block ends, the sort and the links between consecutive blocks

  /**
   * The loop that finds an end from s: the first index from s on that is the last one or is
   * followed by a start; -1 when s is already past the last.
   */
  function EndOf(starts: seq<nat>, last: nat, s: nat): (r: int)
    ensures r == -1 <==> s > last
    ensures r != -1 ==> s <= r <= last && (r == last || r + 1 in starts)
    ensures forall i | s < i <= r :: i !in starts
    decreases last + 1 - s
  {
    if s > last then -1
    else if s == last || s + 1 in starts then s
    else EndOf(starts, last, s + 1)
  }

  /** Any index with the properties `FindLastInstruction` promises is the end `EndOf` picks. */
  lemma EndOfUnique(starts: seq<nat>, last: nat, s: nat, r: int)
    requires s <= r <= last && (r == last || r + 1 in starts)
    requires forall i | s < i <= r :: i !in starts
    ensures r == EndOf(starts, last, s)
  {
  }

  /** Every block start is within the function's range, so every block finds its end. */
  predicate EndsFound(starts: seq<nat>, last: nat) {
    forall x | x in starts :: x <= last
  }

  /** The blocks as the sort leaves them: one per start, by first index, each with its end. */
  function SortedBlocks(keys: seq<nat>, startIndices: seq<nat>, first: nat, last: nat): (r: seq<OldBlock>)
    requires EndsFound(keys, last)
    ensures |r| == |keys|
    ensures forall k | 0 <= k < |r| ::
      r[k].firstInstructionIndex == keys[k] && keys[k] <= r[k].lastInstructionIndex <= last &&
      r[k].lastInstructionIndex == EndOf(startIndices, last, keys[k]) &&
      (r[k].isEntryBlock <==> keys[k] == first) && !r[k].isExitBlock && r[k].predecessors == [] && r[k].successors == []
  {
    assert forall k | 0 <= k < |keys| :: keys[k] in keys;
    seq(|keys|, k requires 0 <= k < |keys| =>
      OldBlock(keys[k], EndOf(startIndices, last, keys[k]), keys[k] == first, false, [], []))
  }

  /** Every block's last index is an instruction of the script. */
  predicate LastsWithin(script: seq<Instruction>, blocks: seq<OldBlock>) {
    forall k | 0 <= k < |blocks| :: 0 <= blocks[k].lastInstructionIndex < |script|
  }

  /** The instruction a block ends with. */
  function LastOf(script: seq<Instruction>, blocks: seq<OldBlock>, k: nat): Instruction
    requires LastsWithin(script, blocks) && k < |blocks|
  {
    script[blocks[k].lastInstructionIndex]
  }

  /** `instructions[i].Block = block` for every i in lo..hi. */
  function Claim(blockOf: map<nat, BlockRef>, ref: BlockRef, lo: nat, hi: int): (r: map<nat, BlockRef>)
    ensures forall i | lo <= i <= hi :: i in r && r[i] == ref
    ensures forall i | !(lo <= i <= hi) :: (i in r <==> i in blockOf) && (i in blockOf ==> r[i] == blockOf[i])
    decreases hi + 1 - lo
  {
    if hi < lo then blockOf else Claim(blockOf[lo := ref], ref, lo + 1, hi)
  }

  /**
   * The second builder's `Block` writes, block by block in creation order: every index from
   * a block's first to its end names that block's place in the sorted list.
   */
  function ClaimFrom(blockOf: map<nat, BlockRef>, owner: nat, keys: seq<nat>, bs: seq<nat>, startIndices: seq<nat>, last: nat, j: nat): map<nat, BlockRef>
    requires j <= |bs| && forall x | x in bs :: x in keys
    decreases |bs| - j
  {
    if j == |bs| then blockOf
    else
      var ref := BlockRef(owner, FunctionAnalysis.PositionOf(keys, bs[j]));
      var end := EndOf(startIndices, last, bs[j]);
      ClaimFrom(Claim(blockOf, ref, bs[j], end), owner, keys, bs, startIndices, last, j + 1)
  }

  /** `IsUnreachable` of the block class: not the entry and nothing links to it. */
  predicate Unreachable(b: OldBlock) {
    !b.isEntryBlock && |b.predecessors| == 0
  }

  /** `Successors.Add(to)` on one block and `Predecessors.Add(from)` on the other. */
  function AddEdge(blocks: seq<OldBlock>, from: nat, to: nat): (r: seq<OldBlock>)
    requires from < |blocks| && to < |blocks|
    ensures SameRanges(blocks, r) && SameFlags(blocks, r)
    ensures r[from].successors == blocks[from].successors + [to]
    ensures forall j | 0 <= j < |r| && j != from :: r[j].successors == blocks[j].successors
  {
    var b1 := blocks[from := blocks[from].(successors := blocks[from].successors + [to])];
    b1[to := b1[to].(predecessors := b1[to].predecessors + [from])]
  }

  /** The second builder links block k to the next one unless k is unreachable, an exit, or ends in an unconditional jump or a switch. */
  predicate LinksNext(script: seq<Instruction>, blocks: seq<OldBlock>, k: nat)
    requires LastsWithin(script, blocks) && k < |blocks|
  {
    !Unreachable(blocks[k]) && !blocks[k].isExitBlock &&
    !IsUnconditionalJump(LastOf(script, blocks, k)) && !IsSwitch(LastOf(script, blocks, k))
  }

  /** The loop "link consecutive blocks" from block k on. */
  function LinkFrom(script: seq<Instruction>, blocks: seq<OldBlock>, k: nat): (r: seq<OldBlock>)
    requires LastsWithin(script, blocks)
    ensures SameRanges(blocks, r) && SameFlags(blocks, r)
    decreases |blocks| - k
  {
    if k + 1 >= |blocks| then blocks
    else
      var next := if LinksNext(script, blocks, k) then AddEdge(blocks, k, k + 1) else blocks;
      assert LastsWithin(script, next);
      LinkFrom(script, next, k + 1)
  }

  // ---------------------------------------------------------------------------------------
  // `AnalyzeBasicBlock`

  /** What the analysis of the blocks builds up: the blocks with their edges, the exit list and the writes. */
  datatype Built = Built(blocks: seq<OldBlock>, exits: seq<nat>, writes: Writes)

  /** `BasicBlockFromOffset` as a block reference of function `owner`. */
  function Lookup(script: seq<Instruction>, blocks: seq<OldBlock>, owner: nat, offset: UInt32): Result<Option<BlockRef>> {
    match FindFrom(script, blocks, offset, 0)
    case Err(e) => Err(e)
    case Ok(None) => Ok(None)
    case Ok(Some(t)) => Ok(Some(BlockRef(owner, t)))
  }

  /** The loop over the successor offsets: each must be a block's, which becomes a successor of k. */
  function LinkTargets(script: seq<Instruction>, blocks: seq<OldBlock>, k: nat, offsets: seq<UInt32>): (r: Result<seq<OldBlock>>)
    requires k < |blocks|
    ensures r.Ok? ==> |r.value| == |blocks|
    decreases |offsets|
  {
    if |offsets| == 0 then Ok(blocks)
    else match FindFrom(script, blocks, offsets[0], 0)
      case Err(e) => Err(e)
      case Ok(None) => Err(Thrown(InvalidJumpTarget))
      case Ok(Some(t)) => LinkTargets(script, AddEdge(blocks, k, t), k, offsets[1..])
  }

  /** The loop over the switch cases after those in acc: each case's block, or None. */
  function CaseTargets(script: seq<Instruction>, blocks: seq<OldBlock>, owner: nat, offsets: seq<UInt32>, acc: seq<Option<BlockRef>>)
    : (r: Result<seq<Option<BlockRef>>>)
    ensures r.Ok? ==> |r.value| == |acc| + |offsets| && r.value[..|acc|] == acc
    ensures r.Ok? ==> forall m | 0 <= m < |offsets| :: Lookup(script, blocks, owner, offsets[m]) == Ok(r.value[|acc| + m])
    decreases |offsets|
  {
    if |offsets| == 0 then Ok(acc)
    else match Lookup(script, blocks, owner, offsets[0])
      case Err(e) => Err(e)
      case Ok(t) =>
        var r := CaseTargets(script, blocks, owner, offsets[1..], acc + [t]);
        assert r.Ok? ==> r.value[..|acc|] == (acc + [t])[..|acc|];
        assert forall m | 1 <= m < |offsets| :: offsets[m] == offsets[1..][m - 1];
        r
  }

  /**
   * `AnalyzeBasicBlock` for block k: a return makes it an exit; otherwise every successor
   * offset must be a block's, and a jump's destination, or each switch case's (relative to
   * the end of the switch), is written into its last instruction.
   */
  function AnalyzeStep(rev: Revision, script: seq<Instruction>, owner: nat, b: Built, k: nat): Result<Built>
    requires OldScript(script) && LastsWithin(script, b.blocks) && k < |b.blocks|
  {
    var li := b.blocks[k].lastInstructionIndex;
    var l := script[li];
    if IsReturn(l) then
      Ok(Built(b.blocks[k := b.blocks[k].(isExitBlock := true)], b.exits + [k], b.writes))
    else match Successors(rev, l)
      case Err(e) => Err(e)
      case Ok(offsets) =>
        match LinkTargets(script, b.blocks, k, offsets)
        case Err(e) => Err(e)
        case Ok(linked) =>
          if IsJump(l) then
            match Lookup(script, linked, owner, JumpDestination(l))
            case Err(e) => Err(e)
            case Ok(t) => Ok(Built(linked, b.exits, b.writes.(jumpTargets := b.writes.jumpTargets[li := t])))
          else if IsSwitch(l) then
            if l.switchOffsets.None? then Err(Thrown(NullReference))
            else match CaseTargets(script, linked, owner, SizeRelativeCases(l), [])
              case Err(e) => Err(e)
              case Ok(ts) => Ok(Built(linked, b.exits, b.writes.(switchTargets := b.writes.switchTargets[li := ts])))
          else Ok(Built(linked, b.exits, b.writes))
  }

  /** The step keeps the block list's length and every block's index range. */
  lemma AnalyzeStepShape(rev: Revision, script: seq<Instruction>, owner: nat, b: Built, k: nat)
    requires OldScript(script) && LastsWithin(script, b.blocks) && k < |b.blocks|
    requires AnalyzeStep(rev, script, owner, b, k).Ok?
    ensures SameRanges(b.blocks, AnalyzeStep(rev, script, owner, b, k).value.blocks)
  {
    var l := script[b.blocks[k].lastInstructionIndex];
    if !IsReturn(l) {
      LinkTargetsRanges(script, b.blocks, k, Successors(rev, l).value);
    }
  }

  /** Two block lists of the same length whose blocks have the same entry and exit flags. */
  predicate SameFlags(a: seq<OldBlock>, b: seq<OldBlock>) {
    |a| == |b| && forall k | 0 <= k < |a| :: a[k].isEntryBlock == b[k].isEntryBlock && a[k].isExitBlock == b[k].isExitBlock
  }

  /** Two block lists of the same length whose blocks cover the same index ranges. */
  predicate SameRanges(a: seq<OldBlock>, b: seq<OldBlock>) {
    |a| == |b| &&
    forall k | 0 <= k < |a| :: a[k].firstInstructionIndex == b[k].firstInstructionIndex && a[k].lastInstructionIndex == b[k].lastInstructionIndex
  }

  lemma {:induction false} LinkTargetsRanges(script: seq<Instruction>, blocks: seq<OldBlock>, k: nat, offsets: seq<UInt32>)
    requires k < |blocks| && LinkTargets(script, blocks, k, offsets).Ok?
    ensures SameRanges(blocks, LinkTargets(script, blocks, k, offsets).value)
    decreases |offsets|
  {
    if |offsets| > 0 {
      var t := FindFrom(script, blocks, offsets[0], 0).value.value;
      LinkTargetsRanges(script, AddEdge(blocks, k, t), k, offsets[1..]);
    }
  }

  /** The loop over the sorted blocks from k on. */
  function AnalyzeFrom(rev: Revision, script: seq<Instruction>, owner: nat, b: Built, k: nat): Result<Built>
    requires OldScript(script) && LastsWithin(script, b.blocks) && k <= |b.blocks|
    decreases |b.blocks| - k
  {
    if k == |b.blocks| then Ok(b)
    else match AnalyzeStep(rev, script, owner, b, k)
      case Err(e) => Err(e)
      case Ok(c) =>
        AnalyzeStepShape(rev, script, owner, b, k);
        AnalyzeFrom(rev, script, owner, c, k + 1)
  }

  // ---------------------------------------------------------------------------------------
  // `AnalyzeFunction` and `BuildFromScript`

  /** The scan from the function's first instruction keeps the state's facts and starts its block list with the first. */
  lemma ScanKept(rev: Revision, script: seq<Instruction>, first: nat, last: nat)
    requires first <= last < |script| && OldScript(script) && ScanFrom(rev, script, first, last, ScanStart(first)).Ok?
    ensures var s := ScanFrom(rev, script, first, last, ScanStart(first)).value;
      Kept(rev, script, s) && |s.blockStarts| > 0 && s.blockStarts[0] == first
  {
    ScanFromKeeps(rev, script, first, last, ScanStart(first));
    var s := ScanFrom(rev, script, first, last, ScanStart(first)).value;
    assert s.blockStarts[..1] == [first];
  }

  /** What `AnalyzeFunction` needs of the scan: its facts, the first index as a start, and every start within the function. */
  ghost predicate Scanned(rev: Revision, script: seq<Instruction>, s: Scan, first: nat, last: nat) {
    Kept(rev, script, s) && first in s.blockStarts && EndsFound(s.blockStarts, last)
  }

  /**
   * The blocks as the analysis of each block finds them: sorted, with their ends and, in the
   * second builder, linked to the next; with the `Block` writes of the second builder.
   */
  function Prepared(rev: Revision, script: seq<Instruction>, owner: nat, s: Scan, first: nat, last: nat, w: Writes): (b: Built)
    requires first <= last < |script| && Scanned(rev, script, s, first, last)
    ensures LastsWithin(script, b.blocks)
  {
    PreparedKeys(rev, script, s, first, last);
    var keys := FunctionAnalysis.SortedStarts(s.blockStarts);
    var blocks := SortedBlocks(keys, s.startIndices, first, last);
    if rev == Second then
      RangesWithin(script, blocks, LinkFrom(script, blocks, 0));
      Built(LinkFrom(script, blocks, 0), [], w.(blockOf := ClaimFrom(w.blockOf, owner, keys, s.blockStarts, s.startIndices, last, 0)))
    else Built(blocks, [], w)
  }

  /** Blocks over the same ranges as blocks that end in the script end in it too. */
  lemma RangesWithin(script: seq<Instruction>, a: seq<OldBlock>, b: seq<OldBlock>)
    requires LastsWithin(script, a) && SameRanges(a, b)
    ensures LastsWithin(script, b)
  {
  }

  /** The sorted starts of a scan are its starts, all within the function, so every block ends in the script. */
  lemma PreparedKeys(rev: Revision, script: seq<Instruction>, s: Scan, first: nat, last: nat)
    requires first <= last < |script| && Scanned(rev, script, s, first, last)
    ensures Distinct(s.blockStarts)
    ensures var keys := FunctionAnalysis.SortedStarts(s.blockStarts);
      EndsFound(keys, last) && (forall x | x in s.blockStarts :: x in keys) &&
      LastsWithin(script, SortedBlocks(keys, s.startIndices, first, last))
  {
  }

  /** The function's record once its blocks are analysed: the entry block's place, the exits, the blocks and the parameter types. */
  function Record(nameHash: bv32, s: Scan, first: nat, last: nat, b: Built): OldFunction
    requires Distinct(s.blockStarts) && first in s.blockStarts
  {
    var keys := FunctionAnalysis.SortedStarts(s.blockStarts);
    OldFunction(nameHash, first, last, Some(FunctionAnalysis.PositionOf(keys, first)), Some(b.exits), Some(b.blocks), s.parameterTypes)
  }

  /**
   * `AnalyzeFunction` for the function at position `owner` spanning first..last: the scan,
   * the block ends (every start must lie within the function), the sort, in the second
   * builder the `Block` writes and the links between consecutive blocks, then every block's
   * analysis in sorted order.
   */
  function Analyzed(rev: Revision, script: seq<Instruction>, owner: nat, nameHash: bv32, first: nat, last: nat, w: Writes)
    : Result<(OldFunction, Writes)>
    requires OldScript(script) && first <= last < |script|
  {
    match ScanFrom(rev, script, first, last, ScanStart(first))
    case Err(e) => Err(e)
    case Ok(s) =>
      if !EndsFound(s.blockStarts, last) then Err(Thrown(NoLastInstruction))
      else
        ScanKept(rev, script, first, last);
        match AnalyzeFrom(rev, script, owner, Prepared(rev, script, owner, s, first, last, w), 0)
        case Err(e) => Err(e)
        case Ok(b) => Ok((Record(nameHash, s, first, last, b), b.writes))
  }

  /** The loop "mark function start indices": each entry's instruction; the first entry with no instruction throws. */
  function LegacyStarts(script: seq<Instruction>, entries: seq<FunctionEntry>): (r: Result<seq<nat>>)
    ensures r.Ok? ==> |r.value| == |entries|
    ensures r.Ok? ==> forall k | 0 <= k < |entries| :: r.value[k] == IndexFromOffset(script, entries[k].offset) && r.value[k] < |script|
  {
    if |entries| == 0 then Ok([])
    else
      var n := |entries| - 1;
      match LegacyStarts(script, entries[..n])
      case Err(e) =>
        assert forall k | 0 <= k < n :: entries[..n][k] == entries[k];
        Err(e)
      case Ok(starts) =>
        assert forall k | 0 <= k < n :: entries[..n][k] == entries[k];
        var i := IndexFromOffset(script, entries[n].offset);
        if i < 0 then Err(Thrown(FunctionStarts.NoInstructionAt + Numerals.Hex8(entries[n].offset)))
        else Ok(starts + [i])
  }

  /** The loop over the functions from f on, each analysed with the writes of those before it. */
  function AnalyzeAll(rev: Revision, script: seq<Instruction>, entries: seq<FunctionEntry>, starts: seq<nat>, f: nat, w: Writes)
    : (r: Result<(seq<OldFunction>, Writes)>)
    requires OldScript(script) && |starts| == |entries| && f <= |entries| && forall k | 0 <= k < |starts| :: starts[k] < |script|
    ensures r.Ok? ==> |r.value.0| == |entries| - f
    decreases |entries| - f
  {
    if f == |entries| then Ok(([], w))
    else
      assert starts[f] < |script|;
      var last := EndOf(starts, |script| - 1, starts[f]);
      match Analyzed(rev, script, f, entries[f].nameHash, starts[f], last, w)
      case Err(e) => Err(e)
      case Ok((fn, w1)) =>
        match AnalyzeAll(rev, script, entries, starts, f + 1, w1)
        case Err(e) => Err(e)
        case Ok((fns, w2)) => Ok(([fn] + fns, w2))
  }

  /** `BuildFromScript`: every function's record, in index order, and what was written into the instructions. */
  function LegacyBuild(rev: Revision, script: seq<Instruction>, index: Option<seq<FunctionEntry>>): Result<LegacyGraph>
    requires OldScript(script)
  {
    if index.None? then Err(Thrown(NullReference))
    else match LegacyStarts(script, index.value)
      case Err(e) => Err(e)
      case Ok(starts) =>
        match AnalyzeAll(rev, script, index.value, starts, 0, Writes(map[], map[], map[]))
        case Err(e) => Err(e)
        case Ok((fns, w)) => Ok(LegacyGraph(fns, w))
  }

  // ---------------------------------------------------------------------------------------
  // What the block analysis builds

  /** The blocks from k on whose last instruction is a return, in order. */
  function ReturnsFrom(script: seq<Instruction>, blocks: seq<OldBlock>, k: nat): (r: seq<nat>)
    requires LastsWithin(script, blocks) && k <= |blocks|
    decreases |blocks| - k
  {
    if k == |blocks| then []
    else if IsReturn(LastOf(script, blocks, k)) then [k] + ReturnsFrom(script, blocks, k + 1)
    else ReturnsFrom(script, blocks, k + 1)
  }

  /** The list holds exactly the blocks from k on that end in a return, in increasing order. */
  lemma ReturnsFromHas(script: seq<Instruction>, blocks: seq<OldBlock>, k: nat)
    requires LastsWithin(script, blocks) && k <= |blocks|
    ensures var r := ReturnsFrom(script, blocks, k);
      (forall m :: m in r <==> k <= m < |blocks| && IsReturn(LastOf(script, blocks, m))) &&
      (forall a | 0 <= a < |r| :: k <= r[a] < |blocks|) &&
      (forall a, c | 0 <= a < c < |r| :: r[a] < r[c])
  {
    ReturnsFromMembers(script, blocks, k);
    ReturnsFromOrdered(script, blocks, k);
  }

  lemma {:induction false} ReturnsFromMembers(script: seq<Instruction>, blocks: seq<OldBlock>, k: nat)
    requires LastsWithin(script, blocks) && k <= |blocks|
    ensures forall m :: m in ReturnsFrom(script, blocks, k) <==> k <= m < |blocks| && IsReturn(LastOf(script, blocks, m))
    decreases |blocks| - k
  {
    if k < |blocks| {
      ReturnsFromMembers(script, blocks, k + 1);
    }
  }

  lemma {:induction false} ReturnsFromOrdered(script: seq<Instruction>, blocks: seq<OldBlock>, k: nat)
    requires LastsWithin(script, blocks) && k <= |blocks|
    ensures Ascending(ReturnsFrom(script, blocks, k), k, |blocks|)
    decreases |blocks| - k
  {
    if k < |blocks| {
      var keep := IsReturn(LastOf(script, blocks, k));
      var t := ReturnsFrom(script, blocks, k + 1);
      ReturnsFromOrdered(script, blocks, k + 1);
      ReturnsFromStep(script, blocks, k);
      AscendingCons(keep, k, t, |blocks|);
    }
  }

  /** Indices in [lo, n), in strictly increasing order. */
  predicate Ascending(s: seq<nat>, lo: nat, n: nat) {
    (forall a | 0 <= a < |s| :: lo <= s[a] < n) && forall a, c | 0 <= a < c < |s| :: s[a] < s[c]
  }

  /** Putting k, or nothing, before an ascending list of indices above k keeps it ascending and within [k, n). */
  lemma AscendingCons(keep: bool, k: nat, t: seq<nat>, n: nat)
    requires k < n && Ascending(t, k + 1, n)
    ensures Ascending((if keep then [k] else []) + t, k, n)
  {
  }

  lemma ReturnsFromStep(script: seq<Instruction>, blocks: seq<OldBlock>, k: nat)
    requires LastsWithin(script, blocks) && k < |blocks|
    ensures ReturnsFrom(script, blocks, k) == (if IsReturn(LastOf(script, blocks, k)) then [k] else []) + ReturnsFrom(script, blocks, k + 1)
  {
  }

  lemma {:induction false} ReturnsFromSame(script: seq<Instruction>, a: seq<OldBlock>, b: seq<OldBlock>, k: nat)
    requires LastsWithin(script, a) && SameRanges(a, b) && k <= |a|
    ensures LastsWithin(script, b) && ReturnsFrom(script, a, k) == ReturnsFrom(script, b, k)
    decreases |a| - k
  {
    if k < |a| {
      ReturnsFromSame(script, a, b, k + 1);
    }
  }

  /** The blocks the offsets lead to, in order; an offset that is no block's first instruction is "Invalid jump target". */
  function Targets(script: seq<Instruction>, blocks: seq<OldBlock>, offsets: seq<UInt32>): (r: Result<seq<nat>>)
    ensures r.Ok? ==> |r.value| == |offsets| && forall m | 0 <= m < |offsets| :: FindFrom(script, blocks, offsets[m], 0) == Ok(Some(r.value[m]))
    ensures FirstsWithin(script, blocks) ==> (r.Ok? <==> forall m | 0 <= m < |offsets| :: FindFrom(script, blocks, offsets[m], 0).value.Some?)
    ensures FirstsWithin(script, blocks) && r.Err? ==> r.error == Thrown(InvalidJumpTarget)
    decreases |offsets|
  {
    if |offsets| == 0 then Ok([])
    else match FindFrom(script, blocks, offsets[0], 0)
      case Err(e) => Err(e)
      case Ok(None) => Err(Thrown(InvalidJumpTarget))
      case Ok(Some(t)) =>
        match Targets(script, blocks, offsets[1..])
        case Err(e) =>
          assert forall m | 1 <= m < |offsets| :: offsets[m] == offsets[1..][m - 1];
          Err(e)
        case Ok(ts) =>
          assert forall m | 1 <= m < |offsets| :: offsets[m] == offsets[1..][m - 1];
          Ok([t] + ts)
  }

  /** The search for a block depends only on where the blocks begin. */
  lemma {:induction false} FindFromSame(script: seq<Instruction>, a: seq<OldBlock>, b: seq<OldBlock>, offset: UInt32, k: nat)
    requires SameRanges(a, b) && k <= |a|
    ensures FindFrom(script, a, offset, k) == FindFrom(script, b, offset, k)
    decreases |a| - k
  {
    if k < |a| {
      FindFromSame(script, a, b, offset, k + 1);
    }
  }

  lemma {:induction false} TargetsSame(script: seq<Instruction>, a: seq<OldBlock>, b: seq<OldBlock>, offsets: seq<UInt32>)
    requires SameRanges(a, b)
    ensures Targets(script, a, offsets) == Targets(script, b, offsets)
    decreases |offsets|
  {
    if |offsets| > 0 {
      FindFromSame(script, a, b, offsets[0], 0);
      TargetsSame(script, a, b, offsets[1..]);
    }
  }

  /**
   * Linking block k to its successor offsets succeeds exactly when every offset is a block's,
   * fails with the first failure, appends those blocks to k's successors in order, and gives
   * no other block a successor.
   */
  lemma {:induction false} LinkTargetsOk(script: seq<Instruction>, blocks: seq<OldBlock>, k: nat, offsets: seq<UInt32>)
    requires k < |blocks|
    ensures LinkTargets(script, blocks, k, offsets).Ok? <==> Targets(script, blocks, offsets).Ok?
    ensures LinkTargets(script, blocks, k, offsets).Err? ==> LinkTargets(script, blocks, k, offsets).error == Targets(script, blocks, offsets).error
    decreases |offsets|
  {
    if |offsets| > 0 {
      match FindFrom(script, blocks, offsets[0], 0)
      case Err(_) =>
      case Ok(None) =>
      case Ok(Some(t)) =>
        var next := AddEdge(blocks, k, t);
        LinkTargetsOk(script, next, k, offsets[1..]);
        TargetsSame(script, blocks, next, offsets[1..]);
    }
  }

  lemma {:induction false} LinkTargetsEdges(script: seq<Instruction>, blocks: seq<OldBlock>, k: nat, offsets: seq<UInt32>)
    requires k < |blocks| && LinkTargets(script, blocks, k, offsets).Ok?
    ensures Targets(script, blocks, offsets).Ok?
    ensures
      var r := LinkTargets(script, blocks, k, offsets).value;
      SameRanges(blocks, r) && SameFlags(blocks, r) &&
      r[k].successors == blocks[k].successors + Targets(script, blocks, offsets).value &&
      forall j | 0 <= j < |r| && j != k :: r[j].successors == blocks[j].successors
    decreases |offsets|
  {
    if |offsets| > 0 {
      match FindFrom(script, blocks, offsets[0], 0)
      case Err(_) =>
      case Ok(None) =>
      case Ok(Some(t)) =>
        var next := AddEdge(blocks, k, t);
        LinkTargetsEdges(script, next, k, offsets[1..]);
        TargetsSame(script, blocks, next, offsets[1..]);
        assert blocks[k].successors + [t] + Targets(script, blocks, offsets[1..]).value ==
          blocks[k].successors + Targets(script, blocks, offsets).value;
    }
  }

  /** The successors the analysis gives block m: none for a return, else the blocks its successor offsets lead to. */
  function StepTargets(rev: Revision, script: seq<Instruction>, blocks: seq<OldBlock>, m: nat): seq<nat>
    requires OldScript(script) && LastsWithin(script, blocks) && m < |blocks|
  {
    var l := LastOf(script, blocks, m);
    if IsReturn(l) then []
    else match Successors(rev, l)
      case Err(_) => []
      case Ok(offsets) => if Targets(script, blocks, offsets).Ok? then Targets(script, blocks, offsets).value else []
  }

  lemma StepTargetsSame(rev: Revision, script: seq<Instruction>, a: seq<OldBlock>, b: seq<OldBlock>, m: nat)
    requires OldScript(script) && LastsWithin(script, a) && SameRanges(a, b) && m < |a|
    ensures LastsWithin(script, b) && StepTargets(rev, script, a, m) == StepTargets(rev, script, b, m)
  {
    var l := LastOf(script, a, m);
    if !IsReturn(l) && Successors(rev, l).Ok? {
      TargetsSame(script, a, b, Successors(rev, l).value);
    }
  }

  /** One block's analysis adds k to the exits when its last instruction is a return, and otherwise leaves them. */
  lemma AnalyzeStepExitList(rev: Revision, script: seq<Instruction>, owner: nat, b: Built, k: nat)
    requires OldScript(script) && LastsWithin(script, b.blocks) && k < |b.blocks|
    requires AnalyzeStep(rev, script, owner, b, k).Ok?
    ensures AnalyzeStep(rev, script, owner, b, k).value.exits == b.exits + (if IsReturn(LastOf(script, b.blocks, k)) then [k] else [])
  {
  }

  /** One block's analysis keeps the entry flags and sets k's exit flag exactly when it ends in a return. */
  lemma AnalyzeStepFlags(rev: Revision, script: seq<Instruction>, owner: nat, b: Built, k: nat)
    requires OldScript(script) && LastsWithin(script, b.blocks) && k < |b.blocks|
    requires AnalyzeStep(rev, script, owner, b, k).Ok?
    ensures |AnalyzeStep(rev, script, owner, b, k).value.blocks| == |b.blocks|
    ensures forall j | 0 <= j < |b.blocks| :: AnalyzeStep(rev, script, owner, b, k).value.blocks[j].isEntryBlock == b.blocks[j].isEntryBlock
    ensures forall j | 0 <= j < |b.blocks| :: AnalyzeStep(rev, script, owner, b, k).value.blocks[j].isExitBlock == (b.blocks[j].isExitBlock || (j == k && IsReturn(LastOf(script, b.blocks, k))))
  {
    var l := LastOf(script, b.blocks, k);
    if !IsReturn(l) {
      LinkTargetsEdges(script, b.blocks, k, Successors(rev, l).value);
    }
  }

  /** One block's analysis: only block k gains successors, those `StepTargets` names. */
  lemma AnalyzeStepSuccessors(rev: Revision, script: seq<Instruction>, owner: nat, b: Built, k: nat)
    requires OldScript(script) && LastsWithin(script, b.blocks) && k < |b.blocks|
    requires AnalyzeStep(rev, script, owner, b, k).Ok?
    ensures var c := AnalyzeStep(rev, script, owner, b, k).value;
      SameRanges(b.blocks, c.blocks) &&
      c.blocks[k].successors == b.blocks[k].successors + StepTargets(rev, script, b.blocks, k) &&
      (forall j | 0 <= j < |c.blocks| && j != k :: c.blocks[j].successors == b.blocks[j].successors)
  {
    var l := LastOf(script, b.blocks, k);
    if !IsReturn(l) {
      LinkTargetsEdges(script, b.blocks, k, Successors(rev, l).value);
    }
  }

  /** One turn of the loop over the blocks. */
  lemma AnalyzeFromStep(rev: Revision, script: seq<Instruction>, owner: nat, b: Built, k: nat)
    requires OldScript(script) && LastsWithin(script, b.blocks) && k < |b.blocks|
    requires AnalyzeFrom(rev, script, owner, b, k).Ok?
    ensures AnalyzeStep(rev, script, owner, b, k).Ok?
    ensures LastsWithin(script, AnalyzeStep(rev, script, owner, b, k).value.blocks)
    ensures |AnalyzeStep(rev, script, owner, b, k).value.blocks| == |b.blocks|
    ensures AnalyzeFrom(rev, script, owner, b, k) == AnalyzeFrom(rev, script, owner, AnalyzeStep(rev, script, owner, b, k).value, k + 1)
  {
    AnalyzeStepShape(rev, script, owner, b, k);
  }

  /** The loop over the blocks from k on keeps every block's index range. */
  lemma {:induction false} AnalyzeFromRanges(rev: Revision, script: seq<Instruction>, owner: nat, b: Built, k: nat)
    requires OldScript(script) && LastsWithin(script, b.blocks) && k <= |b.blocks|
    requires AnalyzeFrom(rev, script, owner, b, k).Ok?
    ensures SameRanges(b.blocks, AnalyzeFrom(rev, script, owner, b, k).value.blocks)
    decreases |b.blocks| - k
  {
    if k < |b.blocks| {
      AnalyzeFromStep(rev, script, owner, b, k);
      var c := AnalyzeStep(rev, script, owner, b, k).value;
      AnalyzeStepShape(rev, script, owner, b, k);
      AnalyzeFromRanges(rev, script, owner, c, k + 1);
    }
  }

  /** The loop over the blocks from k on adds the blocks from k on that end in a return to the exits, in order. */
  lemma {:induction false} AnalyzeFromExitList(rev: Revision, script: seq<Instruction>, owner: nat, b: Built, k: nat)
    requires OldScript(script) && LastsWithin(script, b.blocks) && k <= |b.blocks|
    requires AnalyzeFrom(rev, script, owner, b, k).Ok?
    ensures AnalyzeFrom(rev, script, owner, b, k).value.exits == b.exits + ReturnsFrom(script, b.blocks, k)
    decreases |b.blocks| - k
  {
    if k == |b.blocks| {
      assert ReturnsFrom(script, b.blocks, k) == [];
      assert b.exits + [] == b.exits;
    } else {
      AnalyzeFromStep(rev, script, owner, b, k);
      AnalyzeFromExitList(rev, script, owner, AnalyzeStep(rev, script, owner, b, k).value, k + 1);
      ExitListStep(rev, script, owner, b, k, AnalyzeFrom(rev, script, owner, b, k).value);
    }
  }

  /** The step of the induction above: k's contribution joined with the exits from k + 1 on. */
  lemma ExitListStep(rev: Revision, script: seq<Instruction>, owner: nat, b: Built, k: nat, r: Built)
    requires OldScript(script) && LastsWithin(script, b.blocks) && k < |b.blocks| && AnalyzeStep(rev, script, owner, b, k).Ok?
    requires LastsWithin(script, AnalyzeStep(rev, script, owner, b, k).value.blocks) && k < |AnalyzeStep(rev, script, owner, b, k).value.blocks|
    requires r.exits == AnalyzeStep(rev, script, owner, b, k).value.exits + ReturnsFrom(script, AnalyzeStep(rev, script, owner, b, k).value.blocks, k + 1)
    ensures r.exits == b.exits + ReturnsFrom(script, b.blocks, k)
  {
    AnalyzeStepShape(rev, script, owner, b, k);
    AnalyzeStepExitList(rev, script, owner, b, k);
    ReturnsFromSame(script, b.blocks, AnalyzeStep(rev, script, owner, b, k).value.blocks, k + 1);
    ReturnsFromStep(script, b.blocks, k);
    ExitsJoin(b.exits, if IsReturn(LastOf(script, b.blocks, k)) then [k] else [], ReturnsFrom(script, b.blocks, k + 1));
  }

  lemma ExitsJoin(exits: seq<nat>, here: seq<nat>, rest: seq<nat>)
    ensures exits + here + rest == exits + (here + rest)
  {
  }

  /**
   * The loop over the blocks from k on: the entry flags stay, and of the blocks from k on
   * exactly those that end in a return become exits.
   */
  lemma {:induction false} AnalyzeFromFlags(rev: Revision, script: seq<Instruction>, owner: nat, b: Built, k: nat)
    requires OldScript(script) && LastsWithin(script, b.blocks) && k <= |b.blocks|
    requires AnalyzeFrom(rev, script, owner, b, k).Ok?
    ensures |AnalyzeFrom(rev, script, owner, b, k).value.blocks| == |b.blocks|
    ensures forall m | 0 <= m < |b.blocks| :: AnalyzeFrom(rev, script, owner, b, k).value.blocks[m].isEntryBlock == b.blocks[m].isEntryBlock
    ensures forall m | 0 <= m < |b.blocks| :: AnalyzeFrom(rev, script, owner, b, k).value.blocks[m].isExitBlock == (b.blocks[m].isExitBlock || (k <= m && IsReturn(LastOf(script, b.blocks, m))))
    decreases |b.blocks| - k
  {
    if k < |b.blocks| {
      AnalyzeFromStep(rev, script, owner, b, k);
      AnalyzeFromFlags(rev, script, owner, AnalyzeStep(rev, script, owner, b, k).value, k + 1);
      FlagsStep(rev, script, owner, b, k, AnalyzeFrom(rev, script, owner, b, k).value.blocks);
    }
  }

  /** The step of the induction above: block k's flags from its own analysis, the later ones from the rest. */
  lemma FlagsStep(rev: Revision, script: seq<Instruction>, owner: nat, b: Built, k: nat, r: seq<OldBlock>)
    requires OldScript(script) && LastsWithin(script, b.blocks) && k < |b.blocks| && AnalyzeStep(rev, script, owner, b, k).Ok?
    requires LastsWithin(script, AnalyzeStep(rev, script, owner, b, k).value.blocks)
    requires |r| == |AnalyzeStep(rev, script, owner, b, k).value.blocks| == |b.blocks|
    requires forall m | 0 <= m < |r| :: r[m].isEntryBlock == AnalyzeStep(rev, script, owner, b, k).value.blocks[m].isEntryBlock
    requires forall m | 0 <= m < |r| :: r[m].isExitBlock == (AnalyzeStep(rev, script, owner, b, k).value.blocks[m].isExitBlock || (k + 1 <= m && IsReturn(LastOf(script, AnalyzeStep(rev, script, owner, b, k).value.blocks, m))))
    ensures forall m | 0 <= m < |r| :: r[m].isEntryBlock == b.blocks[m].isEntryBlock
    ensures forall m | 0 <= m < |r| :: r[m].isExitBlock == (b.blocks[m].isExitBlock || (k <= m && IsReturn(LastOf(script, b.blocks, m))))
  {
    AnalyzeStepShape(rev, script, owner, b, k);
    AnalyzeStepFlags(rev, script, owner, b, k);
  }

  /** The same loop: each block from k on gains the successors `StepTargets` names, and no other block any. */
  lemma {:induction false} AnalyzeFromSuccessors(rev: Revision, script: seq<Instruction>, owner: nat, b: Built, k: nat)
    requires OldScript(script) && LastsWithin(script, b.blocks) && k <= |b.blocks|
    requires AnalyzeFrom(rev, script, owner, b, k).Ok?
    ensures var r := AnalyzeFrom(rev, script, owner, b, k).value;
      SameRanges(b.blocks, r.blocks) &&
      forall m | 0 <= m < |r.blocks| :: r.blocks[m].successors == b.blocks[m].successors + (if k <= m then StepTargets(rev, script, b.blocks, m) else [])
    decreases |b.blocks| - k
  {
    if k < |b.blocks| {
      AnalyzeFromStep(rev, script, owner, b, k);
      var c := AnalyzeStep(rev, script, owner, b, k).value;
      AnalyzeStepSuccessors(rev, script, owner, b, k);
      AnalyzeFromSuccessors(rev, script, owner, c, k + 1);
      forall m | k < m < |b.blocks| ensures StepTargets(rev, script, c.blocks, m) == StepTargets(rev, script, b.blocks, m) {
        StepTargetsSame(rev, script, b.blocks, c.blocks, m);
      }
    }
  }

  /** The blocks before their analysis: those of the sort, with no exits and, in the earliest builder, no edges. */
  lemma PreparedShape(rev: Revision, script: seq<Instruction>, owner: nat, s: Scan, first: nat, last: nat, w: Writes)
    requires first <= last < |script| && Scanned(rev, script, s, first, last)
    ensures var sorted := SortedBlocks(FunctionAnalysis.SortedStarts(s.blockStarts), s.startIndices, first, last);
      var b := Prepared(rev, script, owner, s, first, last, w);
      SameRanges(sorted, b.blocks) && SameFlags(sorted, b.blocks) && b.exits == [] &&
      (rev == Earliest ==> forall m | 0 <= m < |b.blocks| :: b.blocks[m].successors == [])
  {
  }

  /** A successful analysis: the scan got through, every start lies within the function and every block's analysis succeeded. */
  lemma AnalyzedParts(rev: Revision, script: seq<Instruction>, owner: nat, nameHash: bv32, first: nat, last: nat, w: Writes)
    requires OldScript(script) && first <= last < |script| && Analyzed(rev, script, owner, nameHash, first, last, w).Ok?
    ensures ScanFrom(rev, script, first, last, ScanStart(first)).Ok?
    ensures var s := ScanFrom(rev, script, first, last, ScanStart(first)).value;
      Scanned(rev, script, s, first, last) &&
      var pre := Prepared(rev, script, owner, s, first, last, w);
      AnalyzeFrom(rev, script, owner, pre, 0).Ok? &&
      Analyzed(rev, script, owner, nameHash, first, last, w).value.0 == Record(nameHash, s, first, last, AnalyzeFrom(rev, script, owner, pre, 0).value)
  {
    ScanKept(rev, script, first, last);
  }

  /** The sorted blocks: increasing first indices, each ending within the function, and the one entry block at the first index. */
  lemma SortedShape(s: Scan, first: nat, last: nat)
    requires Distinct(s.blockStarts) && first in s.blockStarts && EndsFound(s.blockStarts, last)
    ensures var keys := FunctionAnalysis.SortedStarts(s.blockStarts);
      var blocks := SortedBlocks(keys, s.startIndices, first, last);
      var e := FunctionAnalysis.PositionOf(keys, first);
      (forall a, c | 0 <= a < c < |blocks| :: blocks[a].firstInstructionIndex < blocks[c].firstInstructionIndex) &&
      (forall m | 0 <= m < |blocks| :: blocks[m].firstInstructionIndex <= blocks[m].lastInstructionIndex <= last) &&
      e < |blocks| && blocks[e].firstInstructionIndex == first &&
      (forall m | 0 <= m < |blocks| :: blocks[m].isEntryBlock <==> m == e)
  {
    var keys := FunctionAnalysis.SortedStarts(s.blockStarts);
    assert forall m | 0 <= m < |keys| :: keys[m] in keys;
  }

  /**
   * A function record as the analysis returns it: its name, its index range, one block per
   * start in increasing order of first index, each ending within the function, and the entry
   * block as the one block that begins at the function's first instruction.
   */
  predicate RecordOf(f: OldFunction, nameHash: bv32, first: nat, last: nat) {
    f.nameHash == nameHash && f.firstInstructionIndex == first && f.lastInstructionIndex == last &&
    f.basicBlocks.Some? && f.exitBlocks.Some? && f.entryBlock.Some? &&
    var blocks := f.basicBlocks.value;
    (forall a, c | 0 <= a < c < |blocks| :: blocks[a].firstInstructionIndex < blocks[c].firstInstructionIndex) &&
    (forall m | 0 <= m < |blocks| :: blocks[m].firstInstructionIndex <= blocks[m].lastInstructionIndex <= last) &&
    f.entryBlock.value < |blocks| && blocks[f.entryBlock.value].firstInstructionIndex == first &&
    (forall m | 0 <= m < |blocks| :: blocks[m].isEntryBlock <==> m == f.entryBlock.value)
  }

  /**
   * A function record the analysis returns: its name, its index range, one block per start in
   * increasing order of first index, each ending within the function, and the entry block as
   * the one block that begins at the function's first instruction.
   */
  lemma AnalyzedBlocks(rev: Revision, script: seq<Instruction>, owner: nat, nameHash: bv32, first: nat, last: nat, w: Writes)
    requires OldScript(script) && first <= last < |script| && Analyzed(rev, script, owner, nameHash, first, last, w).Ok?
    ensures RecordOf(Analyzed(rev, script, owner, nameHash, first, last, w).value.0, nameHash, first, last)
  {
    AnalyzedParts(rev, script, owner, nameHash, first, last, w);
    var s := ScanFrom(rev, script, first, last, ScanStart(first)).value;
    var pre := Prepared(rev, script, owner, s, first, last, w);
    var sorted := SortedBlocks(FunctionAnalysis.SortedStarts(s.blockStarts), s.startIndices, first, last);
    PreparedShape(rev, script, owner, s, first, last, w);
    var r := AnalyzeFrom(rev, script, owner, pre, 0).value;
    BlocksFromStart(rev, script, owner, sorted, pre, r);
    RecordShape(nameHash, s, first, last, sorted, r);
  }

  /** The record of blocks that keep the sorted blocks' ranges and entry flags. */
  lemma RecordShape(nameHash: bv32, s: Scan, first: nat, last: nat, sorted: seq<OldBlock>, r: Built)
    requires Distinct(s.blockStarts) && first in s.blockStarts && EndsFound(s.blockStarts, last)
    requires sorted == SortedBlocks(FunctionAnalysis.SortedStarts(s.blockStarts), s.startIndices, first, last)
    requires SameRanges(sorted, r.blocks) && forall m | 0 <= m < |r.blocks| :: r.blocks[m].isEntryBlock == sorted[m].isEntryBlock
    ensures RecordOf(Record(nameHash, s, first, last, r), nameHash, first, last)
  {
    SortedShape(s, first, last);
  }

  /** The analysis keeps the blocks' index ranges and entry flags. */
  lemma BlocksFromStart(rev: Revision, script: seq<Instruction>, owner: nat, sorted: seq<OldBlock>, pre: Built, r: Built)
    requires OldScript(script) && LastsWithin(script, pre.blocks) && SameRanges(sorted, pre.blocks) && SameFlags(sorted, pre.blocks)
    requires AnalyzeFrom(rev, script, owner, pre, 0) == Ok(r)
    ensures SameRanges(sorted, r.blocks)
    ensures forall m | 0 <= m < |r.blocks| :: r.blocks[m].isEntryBlock == sorted[m].isEntryBlock
  {
    AnalyzeFromRanges(rev, script, owner, pre, 0);
    AnalyzeFromFlags(rev, script, owner, pre, 0);
  }

  /** The analysis from blocks without exits ends with the blocks that end in a return as its exits, in order, and as the exit blocks. */
  lemma ExitsFromStart(rev: Revision, script: seq<Instruction>, owner: nat, pre: Built, r: Built)
    requires OldScript(script) && LastsWithin(script, pre.blocks) && pre.exits == []
    requires forall m | 0 <= m < |pre.blocks| :: !pre.blocks[m].isExitBlock
    requires AnalyzeFrom(rev, script, owner, pre, 0) == Ok(r)
    ensures LastsWithin(script, r.blocks) && r.exits == ReturnsFrom(script, r.blocks, 0)
    ensures forall m | 0 <= m < |r.blocks| :: r.blocks[m].isExitBlock <==> IsReturn(LastOf(script, r.blocks, m))
  {
    AnalyzeFromRanges(rev, script, owner, pre, 0);
    AnalyzeFromExitList(rev, script, owner, pre, 0);
    AnalyzeFromFlags(rev, script, owner, pre, 0);
    ReturnsFromSame(script, pre.blocks, r.blocks, 0);
  }

  /**
   * The exits of a record the analysis returns are the blocks that end in a return, in order,
   * and exactly those blocks are marked as exits.
   */
  lemma AnalyzedExits(rev: Revision, script: seq<Instruction>, owner: nat, nameHash: bv32, first: nat, last: nat, w: Writes)
    requires OldScript(script) && first <= last < |script| && Analyzed(rev, script, owner, nameHash, first, last, w).Ok?
    ensures ExitsOf(script, Analyzed(rev, script, owner, nameHash, first, last, w).value.0)
  {
    AnalyzedParts(rev, script, owner, nameHash, first, last, w);
    var s := ScanFrom(rev, script, first, last, ScanStart(first)).value;
    var pre := Prepared(rev, script, owner, s, first, last, w);
    var r := AnalyzeFrom(rev, script, owner, pre, 0).value;
    assert ExitsListed(script, r.blocks, r.exits) by {
      PreparedShape(rev, script, owner, s, first, last, w);
      ExitsFromStart(rev, script, owner, pre, r);
    }
  }

  /** A record with blocks and exits, whose exits are listed as `ExitsListed` says. */
  predicate ExitsOf(script: seq<Instruction>, f: OldFunction) {
    f.basicBlocks.Some? && f.exitBlocks.Some? && ExitsListed(script, f.basicBlocks.value, f.exitBlocks.value)
  }

  /** The exits are the blocks that end in a return, in order, and exactly those blocks are marked as exits. */
  predicate ExitsListed(script: seq<Instruction>, blocks: seq<OldBlock>, exits: seq<nat>) {
    LastsWithin(script, blocks) && exits == ReturnsFrom(script, blocks, 0) &&
    forall m | 0 <= m < |blocks| :: blocks[m].isExitBlock <==> IsReturn(LastOf(script, blocks, m))
  }

  /** In the earliest builder the analysed blocks' successors are those `StepTargets` names. */
  lemma EarliestBlockSuccessors(script: seq<Instruction>, owner: nat, s: Scan, first: nat, last: nat, w: Writes, r: Built)
    requires OldScript(script) && first <= last < |script| && Scanned(Earliest, script, s, first, last)
    requires AnalyzeFrom(Earliest, script, owner, Prepared(Earliest, script, owner, s, first, last, w), 0) == Ok(r)
    ensures LastsWithin(script, r.blocks)
    ensures forall m | 0 <= m < |r.blocks| :: r.blocks[m].successors == StepTargets(Earliest, script, r.blocks, m)
  {
    var pre := Prepared(Earliest, script, owner, s, first, last, w);
    PreparedShape(Earliest, script, owner, s, first, last, w);
    AnalyzeFromSuccessors(Earliest, script, owner, pre, 0);
    SuccessorsFromNone(Earliest, script, pre.blocks, r.blocks);
  }

  /** Blocks that started without successors and gained those `StepTargets` names have exactly those. */
  lemma SuccessorsFromNone(rev: Revision, script: seq<Instruction>, a: seq<OldBlock>, b: seq<OldBlock>)
    requires OldScript(script) && LastsWithin(script, a) && SameRanges(a, b)
    requires forall m | 0 <= m < |a| :: a[m].successors == []
    requires forall m | 0 <= m < |b| :: b[m].successors == a[m].successors + (if 0 <= m then StepTargets(rev, script, a, m) else [])
    ensures LastsWithin(script, b)
    ensures forall m | 0 <= m < |b| :: b[m].successors == StepTargets(rev, script, b, m)
  {
    forall m | 0 <= m < |b| ensures b[m].successors == StepTargets(rev, script, b, m) {
      StepTargetsSame(rev, script, a, b, m);
      assert [] + StepTargets(rev, script, a, m) == StepTargets(rev, script, a, m);
    }
  }

  /**
   * In the earliest builder a block's successors are exactly the blocks its last instruction
   * leads to (`StepTargets`), so a block that ends in a return has none.
   */
  lemma EarliestSuccessors(script: seq<Instruction>, owner: nat, nameHash: bv32, first: nat, last: nat, w: Writes)
    requires OldScript(script) && first <= last < |script| && Analyzed(Earliest, script, owner, nameHash, first, last, w).Ok?
    ensures var f := Analyzed(Earliest, script, owner, nameHash, first, last, w).value.0;
      f.basicBlocks.Some? && LastsWithin(script, f.basicBlocks.value) &&
      var blocks := f.basicBlocks.value;
      (forall m | 0 <= m < |blocks| :: blocks[m].successors == StepTargets(Earliest, script, blocks, m)) &&
      (forall m | 0 <= m < |blocks| && IsReturn(LastOf(script, blocks, m)) :: blocks[m].successors == [])
  {
    AnalyzedParts(Earliest, script, owner, nameHash, first, last, w);
    var s := ScanFrom(Earliest, script, first, last, ScanStart(first)).value;
    var pre := Prepared(Earliest, script, owner, s, first, last, w);
    EarliestBlockSuccessors(script, owner, s, first, last, w, AnalyzeFrom(Earliest, script, owner, pre, 0).value);
  }


  // The imperative builders

  /** The loop over one block's successor offsets. */
  method LinkBlockTargets(script: seq<Instruction>, blocks: seq<OldBlock>, k: nat, offsets: seq<UInt32>) returns (r: Result<seq<OldBlock>>)
    requires k < |blocks|
    ensures r == LinkTargets(script, blocks, k, offsets)
  {
    var cur := blocks;
    for i := 0 to |offsets|
      invariant |cur| == |blocks| && LinkTargets(script, blocks, k, offsets) == LinkTargets(script, cur, k, offsets[i..])
    {
      assert offsets[i..][1..] == offsets[i + 1..];
      var next := FindFrom(script, cur, offsets[i], 0);
      if next.Err? {
        return Err(next.error);
      }
      if next.value.None? {
        return Err(Thrown(InvalidJumpTarget));
      }
      cur := AddEdge(cur, k, next.value.value);
    }
    return Ok(cur);
  }

  /** The loop over a switch's cases. */
  method ResolveCaseTargets(script: seq<Instruction>, blocks: seq<OldBlock>, owner: nat, offsets: seq<UInt32>) returns (r: Result<seq<Option<BlockRef>>>)
    ensures r == CaseTargets(script, blocks, owner, offsets, [])
  {
    var acc := [];
    for i := 0 to |offsets|
      invariant CaseTargets(script, blocks, owner, offsets, []) == CaseTargets(script, blocks, owner, offsets[i..], acc)
    {
      assert offsets[i..][1..] == offsets[i + 1..];
      var t := Lookup(script, blocks, owner, offsets[i]);
      if t.Err? {
        return Err(t.error);
      }
      acc := acc + [t.value];
    }
    return Ok(acc);
  }

  /** `AnalyzeBasicBlock` for block k. */
  method AnalyzeBasicBlock(rev: Revision, script: seq<Instruction>, owner: nat, b: Built, k: nat) returns (r: Result<Built>)
    requires OldScript(script) && LastsWithin(script, b.blocks) && k < |b.blocks|
    ensures r == AnalyzeStep(rev, script, owner, b, k)
  {
    var li := b.blocks[k].lastInstructionIndex;
    var l := script[li];
    if IsReturn(l) {
      return Ok(Built(b.blocks[k := b.blocks[k].(isExitBlock := true)], b.exits + [k], b.writes));
    }
    var offsets := Successors(rev, l);
    if offsets.Err? {
      return Err(offsets.error);
    }
    var linked := LinkBlockTargets(script, b.blocks, k, offsets.value);
    if linked.Err? {
      return Err(linked.error);
    }
    if IsJump(l) {
      var t := Lookup(script, linked.value, owner, JumpDestination(l));
      if t.Err? {
        return Err(t.error);
      }
      return Ok(Built(linked.value, b.exits, b.writes.(jumpTargets := b.writes.jumpTargets[li := t.value])));
    } else if IsSwitch(l) {
      if l.switchOffsets.None? {
        return Err(Thrown(NullReference));
      }
      var ts := ResolveCaseTargets(script, linked.value, owner, SizeRelativeCases(l));
      if ts.Err? {
        return Err(ts.error);
      }
      return Ok(Built(linked.value, b.exits, b.writes.(switchTargets := b.writes.switchTargets[li := ts.value])));
    }
    return Ok(Built(linked.value, b.exits, b.writes));
  }

  /** The loop "link consecutive blocks". */
  method LinkConsecutive(script: seq<Instruction>, blocks: seq<OldBlock>) returns (r: seq<OldBlock>)
    requires LastsWithin(script, blocks)
    ensures r == LinkFrom(script, blocks, 0)
  {
    r := blocks;
    var k := 0;
    while k + 1 < |r|
      invariant SameRanges(blocks, r) && LinkFrom(script, blocks, 0) == LinkFrom(script, r, k)
      decreases |r| - k
    {
      var l := script[r[k].lastInstructionIndex];
      if !Unreachable(r[k]) && !r[k].isExitBlock && !IsUnconditionalJump(l) && !IsSwitch(l) {
        r := AddEdge(r, k, k + 1);
      }
      k := k + 1;
    }
  }

  /**
   * The loop "find basic block ends", in creation order: every start must find its end, and
   * the second builder writes each block's instructions' `Block`. The block references name
   * a block by its place in the sorted list, so that order is taken before the sort that the
   * source does after this loop.
   */
  method FindBlockEnds(rev: Revision, owner: nat, s: Scan, last: nat, keys: seq<nat>, blockOf0: map<nat, BlockRef>)
    returns (r: Result<map<nat, BlockRef>>)
    requires forall x | x in s.blockStarts :: x in keys
    ensures r.Ok? <==> EndsFound(s.blockStarts, last)
    ensures r.Err? ==> r == Err(Thrown(NoLastInstruction))
    ensures r.Ok? && rev == Second ==> r.value == ClaimFrom(blockOf0, owner, keys, s.blockStarts, s.startIndices, last, 0)
  {
    var bs := s.blockStarts;
    var blockOf: map<nat, BlockRef> := blockOf0;
    for j := 0 to |bs|
      invariant forall k | 0 <= k < j :: bs[k] <= last
      invariant rev == Second ==>
        ClaimFrom(blockOf0, owner, keys, bs, s.startIndices, last, 0) == ClaimFrom(blockOf, owner, keys, bs, s.startIndices, last, j)
    {
      assert bs[j] in bs;
      var next := FindBlockEnd(rev, owner, s.startIndices, last, keys, bs[j], blockOf);
      if next.Err? {
        assert !EndsFound(bs, last);
        return next;
      }
      blockOf := next.value;
    }
    return Ok(blockOf);
  }

  /** One turn of that loop: the end of the block starting at x and, in the second builder, its `Block` writes. */
  method FindBlockEnd(rev: Revision, owner: nat, startIndices: seq<nat>, last: nat, keys: seq<nat>, x: nat, blockOf: map<nat, BlockRef>)
    returns (r: Result<map<nat, BlockRef>>)
    requires x in keys
    ensures r.Err? <==> x > last
    ensures r.Err? ==> r == Err(Thrown(NoLastInstruction))
    ensures r.Ok? ==> r.value == if rev == Second then Claim(blockOf, BlockRef(owner, FunctionAnalysis.PositionOf(keys, x)), x, EndOf(startIndices, last, x)) else blockOf
  {
    var e := FindLastInstruction(startIndices, last + 1, x);
    if e == -1 {
      return Err(Thrown(NoLastInstruction));
    }
    EndOfUnique(startIndices, last, x, e);
    if rev == Second {
      var m := ClaimBlock(blockOf, BlockRef(owner, FunctionAnalysis.PositionOf(keys, x)), x, e);
      return Ok(m);
    }
    return Ok(blockOf);
  }

  /** The loop that writes one block's `Block` reference over its instructions lo..hi. */
  method ClaimBlock(blockOf0: map<nat, BlockRef>, ref: BlockRef, lo: nat, hi: nat) returns (blockOf: map<nat, BlockRef>)
    requires lo <= hi
    ensures blockOf == Claim(blockOf0, ref, lo, hi)
  {
    blockOf := blockOf0;
    for i := lo to hi + 1
      invariant Claim(blockOf0, ref, lo, hi) == Claim(blockOf, ref, i, hi)
    {
      blockOf := blockOf[i := ref];
    }
  }

  /** The loop that analyses every block in sorted order. */
  method AnalyzeBlocks(rev: Revision, script: seq<Instruction>, owner: nat, b0: Built) returns (r: Result<Built>)
    requires OldScript(script) && LastsWithin(script, b0.blocks)
    ensures r == AnalyzeFrom(rev, script, owner, b0, 0)
  {
    var b := b0;
    for k := 0 to |b0.blocks|
      invariant SameRanges(b0.blocks, b.blocks) && AnalyzeFrom(rev, script, owner, b0, 0) == AnalyzeFrom(rev, script, owner, b, k)
    {
      var c := AnalyzeBasicBlock(rev, script, owner, b, k);
      if c.Err? {
        return Err(c.error);
      }
      AnalyzeStepShape(rev, script, owner, b, k);
      b := c.value;
    }
    return Ok(b);
  }

  /** `AnalyzeFunction`. */
  method AnalyzeFunction(rev: Revision, script: seq<Instruction>, owner: nat, nameHash: bv32, first: nat, last: nat, w: Writes)
    returns (r: Result<(OldFunction, Writes)>)
    requires OldScript(script) && first <= last < |script|
    ensures r == Analyzed(rev, script, owner, nameHash, first, last, w)
  {
    var scanned := ScanFunction(rev, script, first, last);
    if scanned.Err? {
      return Err(scanned.error);
    }
    var s := scanned.value;
    ScanKept(rev, script, first, last);
    var keys := FunctionAnalysis.SortedStarts(s.blockStarts);
    var blockOf := FindBlockEnds(rev, owner, s, last, keys, w.blockOf);
    if blockOf.Err? {
      return Err(blockOf.error);
    }
    var blocks := SortedBlocks(keys, s.startIndices, first, last);
    var b := Built(blocks, [], w);
    if rev == Second {
      blocks := LinkConsecutive(script, blocks);
      b := Built(blocks, [], w.(blockOf := blockOf.value));
    }
    assert b == Prepared(rev, script, owner, s, first, last, w);
    var analysed := AnalyzeBlocks(rev, script, owner, b);
    if analysed.Err? {
      return Err(analysed.error);
    }
    return Ok((Record(nameHash, s, first, last, analysed.value), analysed.value.writes));
  }

  /** The functions after those in fns: what `AnalyzeAll` gives, with fns in front. */
  function After(fns: seq<OldFunction>, r: Result<(seq<OldFunction>, Writes)>): Result<(seq<OldFunction>, Writes)> {
    match r
    case Err(e) => Err(e)
    case Ok((rest, w)) => Ok((fns + rest, w))
  }

  /** An entry with no instruction stops the starts loop with its message. */
  lemma {:induction false} LegacyStartsStuck(script: seq<Instruction>, entries: seq<FunctionEntry>, k: nat, m: nat)
    requires k < m <= |entries| && LegacyStarts(script, entries[..k]).Ok? && IndexFromOffset(script, entries[k].offset) < 0
    ensures LegacyStarts(script, entries[..m]) == Err(Thrown(FunctionStarts.NoInstructionAt + Numerals.Hex8(entries[k].offset)))
    decreases m
  {
    if m > k + 1 {
      LegacyStartsStuck(script, entries, k, m - 1);
      LegacyStartsKeepsError(script, entries, m);
    } else {
      LegacyStartsFails(script, entries, m);
    }
  }

  lemma LegacyStartsKeepsError(script: seq<Instruction>, entries: seq<FunctionEntry>, m: nat)
    requires 0 < m <= |entries| && LegacyStarts(script, entries[..m - 1]).Err?
    ensures LegacyStarts(script, entries[..m]) == LegacyStarts(script, entries[..m - 1])
  {
    assert entries[..m][..m - 1] == entries[..m - 1];
  }

  lemma LegacyStartsFails(script: seq<Instruction>, entries: seq<FunctionEntry>, m: nat)
    requires 0 < m <= |entries| && LegacyStarts(script, entries[..m - 1]).Ok? && IndexFromOffset(script, entries[m - 1].offset) < 0
    ensures LegacyStarts(script, entries[..m]) == Err(Thrown(FunctionStarts.NoInstructionAt + Numerals.Hex8(entries[m - 1].offset)))
  {
    assert entries[..m][..m - 1] == entries[..m - 1];
    assert entries[..m][m - 1] == entries[m - 1];
  }

  /** The loop "mark function start indices". */
  method MarkFunctionStarts(instructions: seq<Instruction>, entries: seq<FunctionEntry>) returns (r: Result<seq<nat>>)
    ensures r == LegacyStarts(instructions, entries)
  {
    var starts: seq<nat> := [];
    for k := 0 to |entries|
      invariant LegacyStarts(instructions, entries[..k]) == Ok(starts)
    {
      var i := IndexFromOffset(instructions, entries[k].offset);
      assert entries[..k + 1][..k] == entries[..k];
      if i < 0 {
        LegacyStartsStuck(instructions, entries, k, |entries|);
        assert entries[..|entries|] == entries;
        return Err(Thrown(FunctionStarts.NoInstructionAt + Numerals.Hex8(entries[k].offset)));
      }
      starts := starts + [i];
    }
    assert entries[..|entries|] == entries;
    return Ok(starts);
  }

  /** The loop "find function ends": each function runs to the script's end or to the next function's start. */
  method FindFunctionEnds(count: nat, starts: seq<nat>) returns (lasts: seq<nat>)
    requires forall k | 0 <= k < |starts| :: starts[k] < count
    ensures |lasts| == |starts| && forall m | 0 <= m < |starts| :: starts[m] < count && lasts[m] == EndOf(starts, count - 1, starts[m])
  {
    lasts := [];
    for f := 0 to |starts|
      invariant |lasts| == f && forall m | 0 <= m < f :: starts[m] < count && lasts[m] == EndOf(starts, count - 1, starts[m])
    {
      var e := FindLastInstruction(starts, count, starts[f]);
      EndOfUnique(starts, count - 1, starts[f], e);
      lasts := lasts + [e];
    }
  }

  lemma AfterNothing(r: Result<(seq<OldFunction>, Writes)>)
    ensures After([], r) == r
  {
    if r.Ok? {
      assert [] + r.value.0 == r.value.0;
    }
  }

  lemma AnalyzeAllStep(rev: Revision, script: seq<Instruction>, entries: seq<FunctionEntry>, starts: seq<nat>, f: nat, w: Writes,
                       fns: seq<OldFunction>, fn: OldFunction, w1: Writes)
    requires OldScript(script) && |starts| == |entries| && f < |entries| && forall k | 0 <= k < |starts| :: starts[k] < |script|
    requires Analyzed(rev, script, f, entries[f].nameHash, starts[f], EndOf(starts, |script| - 1, starts[f]), w) == Ok((fn, w1))
    ensures After(fns, AnalyzeAll(rev, script, entries, starts, f, w)) == After(fns + [fn], AnalyzeAll(rev, script, entries, starts, f + 1, w1))
  {
    var rest := AnalyzeAll(rev, script, entries, starts, f + 1, w1);
    assert AnalyzeAll(rev, script, entries, starts, f, w) == After([fn], rest);
    AfterJoin(fns, fn, rest);
  }

  lemma AfterJoin(fns: seq<OldFunction>, fn: OldFunction, rest: Result<(seq<OldFunction>, Writes)>)
    ensures After(fns, After([fn], rest)) == After(fns + [fn], rest)
  {
    if rest.Ok? {
      assert fns + ([fn] + rest.value.0) == fns + [fn] + rest.value.0;
    }
  }

  lemma AnalyzeAllFails(rev: Revision, script: seq<Instruction>, entries: seq<FunctionEntry>, starts: seq<nat>, f: nat, w: Writes,
                        fns: seq<OldFunction>, e: Error)
    requires OldScript(script) && |starts| == |entries| && f < |entries| && forall k | 0 <= k < |starts| :: starts[k] < |script|
    requires Analyzed(rev, script, f, entries[f].nameHash, starts[f], EndOf(starts, |script| - 1, starts[f]), w) == Err(e)
    ensures After(fns, AnalyzeAll(rev, script, entries, starts, f, w)) == Err(e)
  {
  }

  /** The loop that analyses the functions in index order. */
  method AnalyzeFunctions(rev: Revision, instructions: seq<Instruction>, entries: seq<FunctionEntry>, starts: seq<nat>, lasts: seq<nat>)
    returns (r: Result<(seq<OldFunction>, Writes)>)
    requires OldScript(instructions) && |starts| == |entries| == |lasts|
    requires forall k | 0 <= k < |starts| :: starts[k] < |instructions| && lasts[k] == EndOf(starts, |instructions| - 1, starts[k])
    ensures r == AnalyzeAll(rev, instructions, entries, starts, 0, Writes(map[], map[], map[]))
  {
    var fns: seq<OldFunction> := [];
    var w := Writes(map[], map[], map[]);
    AfterNothing(AnalyzeAll(rev, instructions, entries, starts, 0, w));
    for f := 0 to |entries|
      invariant AnalyzeAll(rev, instructions, entries, starts, 0, Writes(map[], map[], map[])) ==
        After(fns, AnalyzeAll(rev, instructions, entries, starts, f, w))
    {
      assert starts[f] < |instructions| && lasts[f] == EndOf(starts, |instructions| - 1, starts[f]);
      var a := AnalyzeFunction(rev, instructions, f, entries[f].nameHash, starts[f], lasts[f], w);
      if a.Err? {
        AnalyzeAllFails(rev, instructions, entries, starts, f, w, fns, a.error);
        return Err(a.error);
      }
      var (fn, w1) := a.value;
      AnalyzeAllStep(rev, instructions, entries, starts, f, w, fns, fn, w1);
      fns := fns + [fn];
      w := w1;
    }
    assert After(fns, AnalyzeAll(rev, instructions, entries, starts, |entries|, w)) == Ok((fns + [], w));
    assert fns + [] == fns;
    return Ok((fns, w));
  }

  /** `BuildFromScript`. The instructions' `Block`, `JumpTarget` and `SwitchTargets` are returned as writes. */
  method BuildFromScript(rev: Revision, script: MjoScript) returns (r: Result<LegacyGraph>)
    requires OldScript(script.instructions)
    ensures r == LegacyBuild(rev, script.instructions, script.functionIndex)
  {
    if script.functionIndex.None? {
      return Err(Thrown(NullReference));
    }
    var starts := MarkFunctionStarts(script.instructions, script.functionIndex.value);
    if starts.Err? {
      return Err(starts.error);
    }
    var lasts := FindFunctionEnds(|script.instructions|, starts.value);
    var a := AnalyzeFunctions(rev, script.instructions, script.functionIndex.value, starts.value, lasts);
    if a.Err? {
      return Err(a.error);
    }
    return Ok(LegacyGraph(a.value.0, a.value.1));
  }
}

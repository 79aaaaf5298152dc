// What `ToInstructionList` of src/MajiroLib/Script/Analysis/ControlFlow/ControlFlowPass.cs
// computes, as functions of the script's functions: the flattened instruction list, each
// instruction laid out at the running sum of the sizes before it, every jump and switch given
// back a displacement to the block it refers to, and the function index rebuilt from the
// first instruction of each function. The lemmas at the end show that the displacements
// land on the blocks they were computed from.

module Relisting {
  import opened Wrappers
  import opened Instructions
  import opened Graph
  import opened Scripts
  import opened ControlFlow
  import opened Encoder

  const Overflow: string := "Arithmetic operation resulted in an overflow."

  // ---------------------------------------------------------------------------------------
  // Flattening: `script.Functions.SelectMany(function => function.Instructions).ToList()`

  /** Every block the function lists is one of its own. */
  predicate ListsOwnBlocks(f: Function) {
    f.blocks.Some? && forall k | 0 <= k < |f.blocks.value| :: f.blocks.value[k] < |f.arena|
  }

  /** Why a function's instructions cannot be listed: its `Blocks` is null, or names a block it does not hold. */
  function ListError(f: Function): (r: Option<Error>)
    ensures r.None? <==> ListsOwnBlocks(f)
  {
    if f.blocks.None? then Some(Thrown(NullReference))
    else if exists k | 0 <= k < |f.blocks.value| :: f.blocks.value[k] >= |f.arena| then Some(Thrown(IndexOutOfRange))
    else None
  }

  predicate AllListed(fs: seq<Function>) {
    forall i | 0 <= i < |fs| :: ListsOwnBlocks(fs[i])
  }

  /** `function.Instructions` in the graph forms: the instructions of its blocks, in list order. */
  function Body(f: Function): seq<Instruction>
    requires ListsOwnBlocks(f)
  {
    BlockInstructions(f.arena, f.blocks.value)
  }

  /** The error the enumeration meets first: that of the first function from i on that cannot be listed. */
  function FlattenError(fs: seq<Function>, i: nat): (r: Option<Error>)
    requires i <= |fs|
    ensures r.None? <==> forall j | i <= j < |fs| :: ListsOwnBlocks(fs[j])
    decreases |fs| - i
  {
    if i == |fs| then None
    else if ListError(fs[i]).Some? then ListError(fs[i])
    else FlattenError(fs, i + 1)
  }

  /**
   * `Functions.SelectMany(function => function.Instructions)` with `Instructions` as the
   * revision of ControlFlow/Function.cs in this repository defines it: each function's index
   * range of the script's list, the first function's exception first.
   */
  function FlattenAsWritten(fs: seq<Function>, script: seq<Instruction>): (r: Result<seq<Instruction>>)
    ensures r.Ok? <==> forall k | 0 <= k < |fs| :: FunctionInstructions(fs[k], script).Ok?
    ensures r.Ok? && |fs| > 0 ==> FunctionInstructions(fs[0], script).value <= r.value
  {
    if |fs| == 0 then Ok([])
    else match FunctionInstructions(fs[0], script)
      case Err(e) => Err(e)
      case Ok(head) =>
        match FlattenAsWritten(fs[1..], script)
        case Err(e) => Err(e)
        case Ok(tail) =>
          assert forall k | 1 <= k < |fs| :: fs[k] == fs[1..][k - 1];
          Ok(head + tail)
  }

  /**
   * Neither the graph pass nor the parser sets a function's instruction indices, so as written
   * the flattening throws for every script with a function; the model flattens the blocks.
   */
  lemma FlattenAsWrittenFails(fs: seq<Function>, script: seq<Instruction>)
    requires |fs| > 0 && forall k | 0 <= k < |fs| :: fs[k].firstInstructionIndex == -1
    ensures FlattenAsWritten(fs, script) == Err(Thrown("Specified argument was out of the range of valid values"))
  {
  }

  /** The flattened list: the bodies of the functions, one after the other. */
  function Flat(fs: seq<Function>): seq<Instruction>
    requires AllListed(fs)
  {
    if |fs| == 0 then [] else Flat(fs[..|fs| - 1]) + Body(fs[|fs| - 1])
  }

  /**
   * For each position of the flattened list, the function it came from. An instruction refers
   * to a block of its own function, so resolving it needs that function.
   */
  function Owners(fs: seq<Function>): (r: seq<nat>)
    requires AllListed(fs)
    ensures |r| == |Flat(fs)| && forall p | 0 <= p < |r| :: r[p] < |fs|
  {
    if |fs| == 0 then []
    else
      var n := |fs| - 1;
      Owners(fs[..n]) + seq(|Body(fs[n])|, j => n)
  }

  /** Where function i's body starts in the flattened list. */
  function Before(fs: seq<Function>, i: nat): nat
    requires AllListed(fs) && i <= |fs|
  {
    |Flat(fs[..i])|
  }

  /** The first position of s that holds t. */
  function IndexOf(s: seq<BlockId>, t: BlockId): (k: nat)
    requires t in s
    ensures k < |s| && s[k] == t && t !in s[..k]
  {
    if s[0] == t then 0
    else
      var k := IndexOf(s[1..], t) + 1;
      assert s[..k] == [s[0]] + s[1..][..k - 1];
      k
  }

  /** Where block t of function i starts in the flattened list: at its first listing. */
  function BlockStart(fs: seq<Function>, i: nat, t: BlockId): nat
    requires AllListed(fs) && i < |fs| && t in fs[i].blocks.value
  {
    var f := fs[i];
    Before(fs, i) + |BlockInstructions(f.arena, f.blocks.value[..IndexOf(f.blocks.value, t)])|
  }

  // ---------------------------------------------------------------------------------------
  // Loops that stop at the first exception

  /** The values of the steps from k on, or the error of the first step from k on that failed. */
  function Collect<T>(steps: seq<Result<T>>, k: nat): (r: Result<seq<T>>)
    requires k <= |steps|
    ensures r.Ok? <==> forall j | k <= j < |steps| :: steps[j].Ok?
    ensures r.Ok? ==> |r.value| == |steps| - k && forall j | k <= j < |steps| :: r.value[j - k] == steps[j].value
    decreases |steps| - k
  {
    if k == |steps| then Ok([])
    else match steps[k]
      case Err(e) => Err(e)
      case Ok(v) =>
        match Collect(steps, k + 1)
        case Err(e) => Err(e)
        case Ok(rest) => Ok([v] + rest)
  }

  /** A loop that stops at step k reports that step's error. */
  lemma {:induction false} CollectFirstError<T>(steps: seq<Result<T>>, k: nat, m: nat)
    requires m <= k < |steps| && steps[k].Err? && forall j | m <= j < k :: steps[j].Ok?
    ensures Collect(steps, m) == Err(steps[k].error)
    decreases k - m
  {
    if m < k {
      CollectFirstError(steps, k, m + 1);
    }
  }

  /** A loop that gets through every step yields their values. */
  lemma CollectAll<T>(steps: seq<Result<T>>, values: seq<T>)
    requires |values| == |steps| && forall j | 0 <= j < |steps| :: steps[j] == Ok(values[j])
    ensures Collect(steps, 0) == Ok(values)
  {
    assert Collect(steps, 0).value == values;
  }

  // ---------------------------------------------------------------------------------------
  // The first loop: sizes and offsets

  /** `GetInstructionSize` of each instruction of the flattened list. */
  function Sizes(flat: seq<Instruction>): (r: seq<Result<UInt32>>)
    ensures |r| == |flat| && forall k | 0 <= k < |flat| :: r[k] == InstructionSize(flat[k])
  {
    seq(|flat|, k requires 0 <= k < |flat| => InstructionSize(flat[k]))
  }

  /** The `uint` offset after the instructions of the given sizes: their sum, wrapped around. */
  function RunningOffset(sizes: seq<UInt32>): UInt32 {
    if |sizes| == 0 then 0 else Wrap32(RunningOffset(sizes[..|sizes| - 1]) + sizes[|sizes| - 1])
  }

  /** Instruction k once laid out: at the running offset, with its size, in no block. */
  function PlacedAt(ins: Instruction, sizes: seq<UInt32>, k: nat): Instruction
    requires k < |sizes|
  {
    ins.(offset := Some(RunningOffset(sizes[..k])), size := Some(sizes[k]), block := None)
  }

  function Placed(flat: seq<Instruction>, sizes: seq<UInt32>): (r: seq<Instruction>)
    requires |sizes| == |flat|
    ensures |r| == |flat| && forall k | 0 <= k < |r| :: r[k] == PlacedAt(flat[k], sizes, k)
  {
    seq(|flat|, k requires 0 <= k < |flat| => PlacedAt(flat[k], sizes, k))
  }

  /**
   * The first loop after |sizes| steps: the steps so far gave these sizes, the instructions so
   * far are laid out with them, and the rest are as flattened.
   */
  ghost predicate PlacedUpTo(flat: seq<Instruction>, steps: seq<Result<UInt32>>, sizes: seq<UInt32>, listed: seq<Instruction>,
                             offset: UInt32) {
    |listed| == |flat| == |steps| && |sizes| <= |flat| && offset == RunningOffset(sizes) &&
    (forall j | 0 <= j < |sizes| :: steps[j] == Ok(sizes[j]) && listed[j] == PlacedAt(flat[j], sizes, j)) &&
    forall j | |sizes| <= j < |flat| :: listed[j] == flat[j]
  }

  lemma PlacedStart(flat: seq<Instruction>, steps: seq<Result<UInt32>>)
    requires |steps| == |flat|
    ensures PlacedUpTo(flat, steps, [], flat, 0)
  {
  }

  lemma RunningOffsetAppend(sizes: seq<UInt32>, size: UInt32, offset: UInt32)
    requires offset == RunningOffset(sizes)
    ensures RunningOffset(sizes + [size]) == Wrap32(offset + size)
  {
    assert (sizes + [size])[..|sizes|] == sizes;
  }

  /** Appending a size changes where no earlier instruction is laid out, and places the next one at the old total. */
  lemma PlacedAtAppend(ins: Instruction, sizes: seq<UInt32>, size: UInt32, j: nat)
    requires j <= |sizes|
    ensures j < |sizes| ==> PlacedAt(ins, sizes + [size], j) == PlacedAt(ins, sizes, j)
    ensures j == |sizes| ==>
      PlacedAt(ins, sizes + [size], j) == ins.(offset := Some(RunningOffset(sizes)), size := Some(size), block := None)
  {
    assert (sizes + [size])[..j] == sizes[..j];
  }

  /** One step of the first loop. */
  lemma PlacedStep(flat: seq<Instruction>, steps: seq<Result<UInt32>>, sizes: seq<UInt32>, listed: seq<Instruction>,
                   offset: UInt32, size: UInt32)
    requires PlacedUpTo(flat, steps, sizes, listed, offset) && |sizes| < |flat| && steps[|sizes|] == Ok(size)
    ensures var k := |sizes|;
      PlacedUpTo(flat, steps, sizes + [size], listed[k := listed[k].(offset := Some(offset), size := Some(size), block := None)],
                 Wrap32(offset + size))
  {
    RunningOffsetAppend(sizes, size, offset);
    var k := |sizes|;
    var next := sizes + [size];
    var stepped := listed[k := listed[k].(offset := Some(RunningOffset(sizes)), size := Some(size), block := None)];
    forall j | 0 <= j < |next|
      ensures steps[j] == Ok(next[j]) && stepped[j] == PlacedAt(flat[j], next, j)
    {
      PlacedAtAppend(flat[j], sizes, size, j);
    }
    forall j | |next| <= j < |flat|
      ensures stepped[j] == flat[j]
    {
      assert stepped[j] == listed[j];
    }
    assert |stepped| == |flat| && |next| <= |flat|;
    assert PlacedUpTo(flat, steps, next, stepped, Wrap32(offset + size));
  }

  /** The first loop stops at the first step that throws, with that exception. */
  lemma PlacedStops(flat: seq<Instruction>, steps: seq<Result<UInt32>>, sizes: seq<UInt32>, listed: seq<Instruction>,
                    offset: UInt32)
    requires PlacedUpTo(flat, steps, sizes, listed, offset) && |sizes| < |flat| && steps[|sizes|].Err?
    ensures Collect(steps, 0) == Err(steps[|sizes|].error)
  {
    CollectFirstError(steps, |sizes|, 0);
  }

  /** The first loop got through every step. */
  lemma PlacedDone(flat: seq<Instruction>, steps: seq<Result<UInt32>>, sizes: seq<UInt32>, listed: seq<Instruction>,
                   offset: UInt32)
    requires PlacedUpTo(flat, steps, sizes, listed, offset) && |sizes| == |flat|
    ensures Collect(steps, 0) == Ok(sizes) && listed == Placed(flat, sizes)
  {
    CollectAll(steps, sizes);
  }

  // ---------------------------------------------------------------------------------------
  // The second loop: displacements

  /**
   * `target.StartOffset!.Value` for block t of function i, once the list is laid out: the offset
   * of the block's first instruction, which the first loop set when the function lists the block.
   */
  function TargetStart(fs: seq<Function>, placed: seq<Instruction>, i: nat, t: BlockId): Result<UInt32>
    requires AllListed(fs) && i < |fs| && |placed| == |Flat(fs)|
  {
    var f := fs[i];
    if t >= |f.arena| then Err(Thrown(IndexOutOfRange))
    else if |f.arena[t].instructions| == 0 then Err(Thrown(NoElements))
    else
      var o := if t in f.blocks.value then (BlockStartWithin(fs, i, t); placed[BlockStart(fs, i, t)].offset)
               else f.arena[t].instructions[0].offset;
      if o.None? then Err(Thrown(NullableWithoutValue)) else Ok(o.value)
  }

  /** `checked((int)(target - source))`, computed in `long`. */
  function Displacement(target: int, source: int): (r: Result<Int32>)
    ensures r.Ok? <==> -0x8000_0000 <= target - source < 0x8000_0000
    ensures r.Ok? ==> r.value == target - source
  {
    if -0x8000_0000 <= target - source < 0x8000_0000 then Ok(target - source) else Err(Thrown(Overflow))
  }

  /** Where case k of a switch at offset ends: past the opcode, the count and k + 1 displacements. */
  function CaseSource(offset: UInt32, k: nat): int {
    offset + 2 + 2 + (k + 1) * 4
  }

  /** Case k of the switch loop: the displacement from the end of the case to its target block. */
  function CaseAt(fs: seq<Function>, placed: seq<Instruction>, i: nat, offset: UInt32, targets: seq<BlockId>, k: nat)
    : Result<Int32>
    requires AllListed(fs) && i < |fs| && |placed| == |Flat(fs)| && k < |targets|
  {
    match TargetStart(fs, placed, i, targets[k])
    case Err(e) => Err(e)
    case Ok(t) => Displacement(t, CaseSource(offset, k))
  }

  function Cases(fs: seq<Function>, placed: seq<Instruction>, i: nat, offset: UInt32, targets: seq<BlockId>)
    : (r: seq<Result<Int32>>)
    requires AllListed(fs) && i < |fs| && |placed| == |Flat(fs)|
    ensures |r| == |targets| && forall k | 0 <= k < |targets| :: r[k] == CaseAt(fs, placed, i, offset, targets, k)
  {
    seq(|targets|, k requires 0 <= k < |targets| => CaseAt(fs, placed, i, offset, targets, k))
  }

  /**
   * One step of the second loop, for an instruction of function i: a jump gets the displacement
   * from its end to its target block, a switch one displacement per case, and both drop their
   * block references; any other instruction stays as laid out.
   */
  function Resolve(fs: seq<Function>, placed: seq<Instruction>, i: nat, ins: Instruction): Result<Instruction>
    requires AllListed(fs) && i < |fs| && |placed| == |Flat(fs)| && ins.offset.Some? && ins.size.Some?
  {
    if IsJump(ins) then
      if ins.jumpTarget.None? then Err(AssertFailed("instruction.JumpTarget != null"))
      else match TargetStart(fs, placed, i, ins.jumpTarget.value)
        case Err(e) => Err(e)
        case Ok(t) =>
          match Displacement(t, Low32(ins.offset.value + ins.size.value))
          case Err(e) => Err(e)
          case Ok(d) => Ok(ins.(jumpOffset := Some(d), jumpTarget := None))
    else if IsSwitch(ins) then
      if ins.switchTargets.None? then Err(AssertFailed("instruction.SwitchTargets != null"))
      else match Collect(Cases(fs, placed, i, ins.offset.value, ins.switchTargets.value), 0)
        case Err(e) => Err(e)
        case Ok(cases) => Ok(ins.(switchOffsets := Some(cases), switchTargets := None))
    else Ok(ins)
  }

  /** Whether every laid-out instruction carries its offset and size. */
  predicate AllPlaced(placed: seq<Instruction>) {
    forall p | 0 <= p < |placed| :: placed[p].offset.Some? && placed[p].size.Some?
  }

  /** For each position, the function it belongs to. */
  predicate OwnedBy(fs: seq<Function>, placed: seq<Instruction>, owners: seq<nat>) {
    |owners| == |placed| && forall p | 0 <= p < |owners| :: owners[p] < |fs|
  }

  /** `Resolve` of each instruction, in the function its position belongs to. */
  function Resolutions(fs: seq<Function>, placed: seq<Instruction>, owners: seq<nat>): (r: seq<Result<Instruction>>)
    requires AllListed(fs) && |placed| == |Flat(fs)| && AllPlaced(placed) && OwnedBy(fs, placed, owners)
    ensures |r| == |placed| && forall p | 0 <= p < |placed| :: r[p] == Resolve(fs, placed, owners[p], placed[p])
  {
    seq(|placed|, p requires 0 <= p < |placed| => Resolve(fs, placed, owners[p], placed[p]))
  }

  /** Resolution keeps where an instruction is laid out. */
  lemma ResolveKeepsPlace(fs: seq<Function>, placed: seq<Instruction>, i: nat, ins: Instruction)
    requires AllListed(fs) && i < |fs| && |placed| == |Flat(fs)| && ins.offset.Some? && ins.size.Some?
    requires Resolve(fs, placed, i, ins).Ok?
    ensures Resolve(fs, placed, i, ins).value.offset == ins.offset && Resolve(fs, placed, i, ins).value.size == ins.size
  {
  }

  // ---------------------------------------------------------------------------------------
  // The third loop: the function index

  /** The index entry of function i: its name hash and the offset of its first instruction, which `First()` needs. */
  function EntryAt(fs: seq<Function>, listed: seq<Instruction>, i: nat): Result<FunctionEntry>
    requires AllListed(fs) && |listed| == |Flat(fs)| && AllPlaced(listed) && i < |fs|
  {
    if |Body(fs[i])| == 0 then Err(Thrown(NoElements))
    else
      FlatAt(fs, i, 0);
      Ok(FunctionEntry(fs[i].nameHash, listed[Before(fs, i)].offset.value))
  }

  function Entries(fs: seq<Function>, listed: seq<Instruction>): (r: seq<Result<FunctionEntry>>)
    requires AllListed(fs) && |listed| == |Flat(fs)| && AllPlaced(listed)
    ensures |r| == |fs| && forall i | 0 <= i < |fs| :: r[i] == EntryAt(fs, listed, i)
  {
    seq(|fs|, i requires 0 <= i < |fs| => EntryAt(fs, listed, i))
  }

  // ---------------------------------------------------------------------------------------
  // The whole conversion

  datatype Listing = Listing(instructions: seq<Instruction>, index: seq<FunctionEntry>, entryPointOffset: UInt32)

  /**
   * The first two loops of `ToInstructionList` over the flattened functions: the list laid out
   * and resolved, or the exception the flattening or one of the loops stops at.
   */
  function LaidOutResolved(fs: seq<Function>): (r: Result<seq<Instruction>>)
    ensures r.Ok? ==> ResolvedFrom(fs, r.value) && |r.value| == |Flat(fs)| && AllPlaced(r.value)
  {
    if FlattenError(fs, 0).Some? then Err(FlattenError(fs, 0).value)
    else if Collect(Sizes(Flat(fs)), 0).Err? then Err(Collect(Sizes(Flat(fs)), 0).error)
    else
      match Collect(Resolutions(fs, ListedPlaced(fs), Owners(fs)), 0)
      case Err(e) => Err(e)
      case Ok(resolved) =>
        ResolvedPlaced(fs, ListedPlaced(fs), Owners(fs), resolved);
        Ok(resolved)
  }

  /**
   * `ToInstructionList` from the ControlFlowGraph state: the instruction list, the function
   * index and the entry point offset it leaves, or the exception it stops at. `entry` is the
   * position of `EntryPointFunction` in the functions.
   */
  function Relist(functions: Option<seq<Function>>, entry: Option<nat>): Result<Listing> {
    if functions.None? then Err(Thrown(NullReference))
    else
      var fs := functions.value;
      match LaidOutResolved(fs)
      case Err(e) => Err(e)
      case Ok(resolved) =>
        match Collect(Entries(fs, resolved), 0)
        case Err(e) => Err(e)
        case Ok(index) => EntryListing(resolved, index, entry)
  }

  /**
   * The last step of `ToInstructionList`: the entry point offset is that of the index entry of
   * `EntryPointFunction`, and reading it throws when there is none.
   */
  function EntryListing(resolved: seq<Instruction>, index: seq<FunctionEntry>, entry: Option<nat>): (r: Result<Listing>)
    ensures r.Ok? <==> entry.Some? && entry.value < |index|
    ensures r.Ok? ==>
              r.value.instructions == resolved && r.value.index == index &&
              r.value.entryPointOffset == index[entry.value].offset
  {
    if entry.None? then Err(Thrown(NullReference))
    else if entry.value >= |index| then Err(Thrown(IndexOutOfRange))
    else Ok(Listing(resolved, index, index[entry.value].offset))
  }

  // Where the conversion stops, stage by stage.

  lemma ResolvedUnlisted(fs: seq<Function>)
    requires FlattenError(fs, 0).Some?
    ensures LaidOutResolved(fs) == Err(FlattenError(fs, 0).value)
  {
  }

  lemma ResolvedUnsized(fs: seq<Function>)
    requires AllListed(fs) && Collect(Sizes(Flat(fs)), 0).Err?
    ensures LaidOutResolved(fs) == Err(Collect(Sizes(Flat(fs)), 0).error)
  {
  }

  lemma ResolvedUnresolved(fs: seq<Function>)
    requires AllListed(fs) && Collect(Sizes(Flat(fs)), 0).Ok?
    requires Collect(Resolutions(fs, ListedPlaced(fs), Owners(fs)), 0).Err?
    ensures LaidOutResolved(fs) == Err(Collect(Resolutions(fs, ListedPlaced(fs), Owners(fs)), 0).error)
  {
  }

  lemma ResolvedDone(fs: seq<Function>, resolved: seq<Instruction>)
    requires ResolvedFrom(fs, resolved)
    ensures LaidOutResolved(fs) == Ok(resolved)
  {
  }

  lemma RelistUnresolved(fs: seq<Function>, entry: Option<nat>)
    requires LaidOutResolved(fs).Err?
    ensures Relist(Some(fs), entry) == Err(LaidOutResolved(fs).error)
  {
  }

  lemma RelistUnindexed(fs: seq<Function>, entry: Option<nat>, resolved: seq<Instruction>)
    requires LaidOutResolved(fs) == Ok(resolved)
    requires Collect(Entries(fs, resolved), 0).Err?
    ensures Relist(Some(fs), entry) == Err(Collect(Entries(fs, resolved), 0).error)
  {
  }

  lemma RelistEnd(fs: seq<Function>, entry: Option<nat>, resolved: seq<Instruction>, index: seq<FunctionEntry>)
    requires LaidOutResolved(fs) == Ok(resolved)
    requires Collect(Entries(fs, resolved), 0) == Ok(index)
    ensures |index| == |fs| && Relist(Some(fs), entry) == EntryListing(resolved, index, entry)
  {
  }

  /** A successful relisting has one index entry per function. */
  lemma RelistedIndexCount(fs: seq<Function>, entry: Option<nat>)
    requires Relist(Some(fs), entry).Ok?
    ensures |Relist(Some(fs), entry).value.index| == |fs|
  {
    var resolved := LaidOutResolved(fs).value;
    var index := Collect(Entries(fs, resolved), 0).value;
    RelistEnd(fs, entry, resolved, index);
  }

  /** The resolved list is laid out where the placed one is. */
  lemma ResolvedPlaced(fs: seq<Function>, placed: seq<Instruction>, owners: seq<nat>, resolved: seq<Instruction>)
    requires AllListed(fs) && |placed| == |Flat(fs)| && AllPlaced(placed) && OwnedBy(fs, placed, owners)
    requires Collect(Resolutions(fs, placed, owners), 0) == Ok(resolved)
    ensures |resolved| == |placed| && AllPlaced(resolved)
    ensures forall p | 0 <= p < |placed| :: resolved[p].offset == placed[p].offset && resolved[p].size == placed[p].size
  {
    forall p | 0 <= p < |placed|
      ensures resolved[p].offset == placed[p].offset && resolved[p].size == placed[p].size
    {
      assert resolved[p] == Resolve(fs, placed, owners[p], placed[p]).value;
      ResolveKeepsPlace(fs, placed, owners[p], placed[p]);
    }
  }

  // ---------------------------------------------------------------------------------------
  // Positions in the flattened list

  /** Instruction j of function i's body sits at `Before(fs, i) + j`. */
  lemma {:induction false} FlatAt(fs: seq<Function>, i: nat, j: nat)
    requires AllListed(fs) && i < |fs| && j < |Body(fs[i])|
    ensures Before(fs, i) + j < |Flat(fs)| && Flat(fs)[Before(fs, i) + j] == Body(fs[i])[j]
    decreases |fs|
  {
    var n := |fs| - 1;
    var init := fs[..n];
    InitListed(fs);
    assert Flat(fs) == Flat(init) + Body(fs[n]);
    if i == n {
      assert init == fs[..i];
    } else {
      FlatAt(init, i, j);
      assert init[..i] == fs[..i];
      assert init[i] == fs[i];
    }
  }

  /** The position `Before(fs, i) + j` of the flattened list belongs to function i. */
  lemma {:induction false} OwnerAt(fs: seq<Function>, i: nat, j: nat)
    requires AllListed(fs) && i < |fs| && j < |Body(fs[i])|
    ensures Before(fs, i) + j < |Owners(fs)| && Owners(fs)[Before(fs, i) + j] == i
    decreases |fs|
  {
    var n := |fs| - 1;
    if i == n {
      OwnerAtLast(fs, j);
    } else {
      var init := fs[..n];
      InitListed(fs);
      assert init[i] == fs[i];
      OwnerAt(init, i, j);
      BeforeInit(fs, i);
      OwnerAtInit(fs, Before(init, i) + j);
    }
  }

  lemma OwnerAtLast(fs: seq<Function>, j: nat)
    requires AllListed(fs) && |fs| > 0 && j < |Body(fs[|fs| - 1])|
    ensures Before(fs, |fs| - 1) + j < |Owners(fs)| && Owners(fs)[Before(fs, |fs| - 1) + j] == |fs| - 1
  {
    var n := |fs| - 1;
    var init := fs[..n];
    InitListed(fs);
    var tail := seq(|Body(fs[n])|, j => n);
    assert Owners(fs) == Owners(init) + tail;
    assert Before(fs, n) == |Owners(init)|;
    assert Owners(fs)[|Owners(init)| + j] == tail[j];
  }

  lemma OwnerAtInit(fs: seq<Function>, p: nat)
    requires AllListed(fs) && |fs| > 0 && AllListed(fs[..|fs| - 1]) && p < |Owners(fs[..|fs| - 1])|
    ensures p < |Owners(fs)| && Owners(fs)[p] == Owners(fs[..|fs| - 1])[p]
  {
    var owners := Owners(fs[..|fs| - 1]);
    var tail := seq(|Body(fs[|fs| - 1])|, j => |fs| - 1);
    assert Owners(fs) == owners + tail;
    ConcatAt(owners, tail, p);
  }

  lemma BeforeInit(fs: seq<Function>, i: nat)
    requires AllListed(fs) && i < |fs| && AllListed(fs[..|fs| - 1])
    ensures Before(fs, i) == Before(fs[..|fs| - 1], i)
  {
    assert fs[..|fs| - 1][..i] == fs[..i];
  }

  lemma ConcatAt<T>(a: seq<T>, b: seq<T>, p: nat)
    requires p < |a|
    ensures (a + b)[p] == a[p]
  {
  }

  lemma InitListed(fs: seq<Function>)
    requires AllListed(fs) && |fs| > 0
    ensures AllListed(fs[..|fs| - 1])
  {
    var init := fs[..|fs| - 1];
    forall m | 0 <= m < |init| ensures ListsOwnBlocks(init[m]) {
      assert init[m] == fs[m];
    }
  }

  /** Instruction j of the q-th listed block sits after the instructions of the blocks listed before it. */
  lemma {:induction false} BlockInstructionsAt(arena: seq<BasicBlock>, order: seq<BlockId>, q: nat, j: nat)
    requires forall k | 0 <= k < |order| :: order[k] < |arena|
    requires q < |order| && j < |arena[order[q]].instructions|
    ensures |BlockInstructions(arena, order[..q])| + j < |BlockInstructions(arena, order)|
    ensures BlockInstructions(arena, order)[|BlockInstructions(arena, order[..q])| + j] == arena[order[q]].instructions[j]
    decreases |order|
  {
    var n := |order| - 1;
    var init := order[..n];
    assert BlockInstructions(arena, order) == BlockInstructions(arena, init) + arena[order[n]].instructions;
    if q == n {
      assert init == order[..q];
    } else {
      BlockInstructionsAt(arena, init, q, j);
      assert init[..q] == order[..q];
      assert init[q] == order[q];
    }
  }

  /** The first instruction of a listed block that has one follows the blocks listed before its first listing. */
  lemma BlockFirstAt(arena: seq<BasicBlock>, order: seq<BlockId>, t: BlockId)
    requires forall k | 0 <= k < |order| :: order[k] < |arena|
    requires t in order && t < |arena| && |arena[t].instructions| > 0
    ensures var m := |BlockInstructions(arena, order[..IndexOf(order, t)])|;
      m < |BlockInstructions(arena, order)| && BlockInstructions(arena, order)[m] == arena[t].instructions[0]
  {
    BlockInstructionsAt(arena, order, IndexOf(order, t), 0);
  }

  /** The first instruction of a listed block that has one is in the flattened list, at BlockStart. */
  lemma BlockStartWithin(fs: seq<Function>, i: nat, t: BlockId)
    requires AllListed(fs) && i < |fs| && t in fs[i].blocks.value && t < |fs[i].arena| && |fs[i].arena[t].instructions| > 0
    ensures BlockStart(fs, i, t) < |Flat(fs)| && Flat(fs)[BlockStart(fs, i, t)] == fs[i].arena[t].instructions[0]
  {
    var f := fs[i];
    var m := |BlockInstructions(f.arena, f.blocks.value[..IndexOf(f.blocks.value, t)])|;
    assert m < |Body(fs[i])| && Body(fs[i])[m] == f.arena[t].instructions[0] by {
      BlockFirstAt(f.arena, f.blocks.value, t);
    }
    assert BlockStart(fs, i, t) == Before(fs, i) + m;
    FlatAt(fs, i, m);
  }

  // ---------------------------------------------------------------------------------------
  // What a successful conversion leaves

  /** The sizes the first loop computed, when it got through. */
  function ListedSizes(fs: seq<Function>): seq<UInt32>
    requires AllListed(fs) && Collect(Sizes(Flat(fs)), 0).Ok?
  {
    Collect(Sizes(Flat(fs)), 0).value
  }

  /** The list as the first loop leaves it. */
  function ListedPlaced(fs: seq<Function>): (r: seq<Instruction>)
    requires AllListed(fs) && Collect(Sizes(Flat(fs)), 0).Ok?
    ensures |r| == |Flat(fs)| && AllPlaced(r) && OwnedBy(fs, r, Owners(fs))
  {
    Placed(Flat(fs), ListedSizes(fs))
  }

  /** A conversion that succeeds got through each of its loops, and these are what they left. */
  lemma RelistedSteps(fs: seq<Function>, entry: Option<nat>, l: Listing)
    requires Relist(Some(fs), entry) == Ok(l)
    ensures AllListed(fs) && Collect(Sizes(Flat(fs)), 0).Ok?
    ensures Collect(Resolutions(fs, ListedPlaced(fs), Owners(fs)), 0) == Ok(l.instructions)
    ensures |l.instructions| == |Flat(fs)| && AllPlaced(l.instructions)
    ensures Collect(Entries(fs, l.instructions), 0) == Ok(l.index)
    ensures entry.Some? && entry.value < |fs| && |l.index| == |fs| && l.entryPointOffset == l.index[entry.value].offset
  {
  }

  /** `(uint)(source + (target - source))` is the target, whatever `uint` wrap the source went through. */
  lemma LandsOn(target: UInt32, source: int, start: int)
    requires Low32(start) == Low32(source)
    ensures Low32(start + (target - source)) == target
  {
  }

  /** Instruction b is laid out right after a: at a's offset plus its size, wrapped around. */
  predicate Follows(a: Instruction, b: Instruction) {
    a.offset.Some? && a.size.Some? && b.offset == Some(Wrap32(a.offset.value + a.size.value))
  }

  /** The running offset grows by one size at a time. */
  lemma RunningOffsetStep(sizes: seq<UInt32>, p: nat)
    requires p < |sizes|
    ensures RunningOffset(sizes[..p + 1]) == Wrap32(RunningOffset(sizes[..p]) + sizes[p])
  {
    assert sizes[..p + 1][..p] == sizes[..p];
  }

  /** What the second loop got through: the resolved list of a flattening whose sizes are known. */
  predicate ResolvedFrom(fs: seq<Function>, resolved: seq<Instruction>) {
    AllListed(fs) && Collect(Sizes(Flat(fs)), 0).Ok? &&
    Collect(Resolutions(fs, ListedPlaced(fs), Owners(fs)), 0) == Ok(resolved)
  }

  /** Instruction p of the resolved list is the resolution of the laid-out instruction p. */
  lemma ResolvedAt(fs: seq<Function>, resolved: seq<Instruction>, p: nat)
    requires ResolvedFrom(fs, resolved) && p < |Flat(fs)|
    ensures |resolved| == |Flat(fs)| && Resolve(fs, ListedPlaced(fs), Owners(fs)[p], ListedPlaced(fs)[p]) == Ok(resolved[p])
  {
  }

  /** The laid-out list: its offsets and sizes, and what they say about the flattened instructions. */
  lemma {:induction false} LayoutOf(flat: seq<Instruction>, sizes: seq<UInt32>, listed: seq<Instruction>, p: nat)
    requires Collect(Sizes(flat), 0) == Ok(sizes) && |listed| == |flat|
    requires forall q | 0 <= q < |flat| :: listed[q].offset == Placed(flat, sizes)[q].offset && listed[q].size == Placed(flat, sizes)[q].size
    requires p < |listed|
    ensures listed[p].offset.Some? && listed[p].size.Some?
    ensures InstructionSize(flat[p]) == Ok(listed[p].size.value)
    ensures p == 0 ==> listed[p].offset == Some(0)
    ensures p + 1 < |listed| ==> Follows(listed[p], listed[p + 1])
  {
    assert listed[p].size == Some(sizes[p]) && listed[p].offset == Some(RunningOffset(sizes[..p]));
    if p + 1 < |listed| {
      var next := RunningOffset(sizes[..p + 1]);
      assert listed[p + 1].offset == Some(next);
      RunningOffsetStep(sizes, p);
    }
  }

  /** A conversion that succeeds leaves the resolved list of its functions. */
  lemma RelistedResolved(fs: seq<Function>, entry: Option<nat>, l: Listing)
    requires Relist(Some(fs), entry) == Ok(l)
    ensures ResolvedFrom(fs, l.instructions) && |l.instructions| == |Flat(fs)|
  {
    RelistedSteps(fs, entry, l);
  }

  /**
   * The instructions are laid out back to back from offset 0, each with the size its operands
   * encode to.
   */
  lemma RelistedLayout(fs: seq<Function>, entry: Option<nat>, l: Listing, p: nat)
    requires Relist(Some(fs), entry) == Ok(l) && p < |l.instructions|
    ensures AllListed(fs) && |l.instructions| == |Flat(fs)|
    ensures l.instructions[p].offset.Some? && l.instructions[p].size.Some?
    ensures InstructionSize(Flat(fs)[p]) == Ok(l.instructions[p].size.value)
    ensures p == 0 ==> l.instructions[p].offset == Some(0)
    ensures p + 1 < |l.instructions| ==> Follows(l.instructions[p], l.instructions[p + 1])
  {
    RelistedResolved(fs, entry, l);
    ResolvedPlaced(fs, ListedPlaced(fs), Owners(fs), l.instructions);
    LayoutOf(Flat(fs), ListedSizes(fs), l.instructions, p);
  }

  /**
   * What resolution leaves of a flattened instruction: the instruction laid out and taken out of
   * its block; a jump with its target block traded for a displacement, a switch with its target
   * blocks traded for one displacement per case.
   */
  predicate KeptAs(src: Instruction, ins: Instruction) {
    var laid := src.(offset := ins.offset, size := ins.size, block := None);
    if IsJump(src) then
      src.jumpTarget.Some? && ins.jumpOffset.Some? && ins == laid.(jumpOffset := ins.jumpOffset, jumpTarget := None)
    else if IsSwitch(src) then
      src.switchTargets.Some? && ins.switchOffsets.Some? && |ins.switchOffsets.value| == |src.switchTargets.value| &&
      ins == laid.(switchOffsets := ins.switchOffsets, switchTargets := None)
    else ins == laid
  }

  lemma ResolveKept(fs: seq<Function>, placed: seq<Instruction>, i: nat, ins: Instruction, src: Instruction)
    requires AllListed(fs) && i < |fs| && |placed| == |Flat(fs)| && ins.offset.Some? && ins.size.Some?
    requires Resolve(fs, placed, i, ins).Ok? && ins == src.(offset := ins.offset, size := ins.size, block := None)
    ensures KeptAs(src, Resolve(fs, placed, i, ins).value)
  {
  }

  lemma RelistedKept(fs: seq<Function>, entry: Option<nat>, l: Listing, p: nat)
    requires Relist(Some(fs), entry) == Ok(l) && p < |l.instructions|
    ensures AllListed(fs) && |l.instructions| == |Flat(fs)| && KeptAs(Flat(fs)[p], l.instructions[p])
  {
    RelistedResolved(fs, entry, l);
    ResolvedAt(fs, l.instructions, p);
    ResolveKept(fs, ListedPlaced(fs), Owners(fs)[p], ListedPlaced(fs)[p], Flat(fs)[p]);
  }

  /** What `target.StartOffset!.Value` found, when it found something. */
  lemma TargetStartOk(fs: seq<Function>, placed: seq<Instruction>, i: nat, t: BlockId)
    requires AllListed(fs) && i < |fs| && |placed| == |Flat(fs)| && TargetStart(fs, placed, i, t).Ok?
    ensures t < |fs[i].arena| && |fs[i].arena[t].instructions| > 0
    ensures t in fs[i].blocks.value ==>
      BlockStart(fs, i, t) < |placed| && placed[BlockStart(fs, i, t)].offset == Some(TargetStart(fs, placed, i, t).value)
    ensures t !in fs[i].blocks.value ==> fs[i].arena[t].instructions[0].offset == Some(TargetStart(fs, placed, i, t).value)
  {
    if t in fs[i].blocks.value {
      BlockStartWithin(fs, i, t);
    }
  }

  /** A resolved jump lands where its target block starts. */
  lemma ResolveJump(fs: seq<Function>, placed: seq<Instruction>, i: nat, ins: Instruction)
    requires AllListed(fs) && i < |fs| && |placed| == |Flat(fs)| && ins.offset.Some? && ins.size.Some?
    requires Resolve(fs, placed, i, ins).Ok? && IsJump(ins)
    ensures ins.jumpTarget.Some? && TargetStart(fs, placed, i, ins.jumpTarget.value).Ok?
    ensures var r := Resolve(fs, placed, i, ins).value;
      r.offset == ins.offset && r.size == ins.size && r.jumpOffset.Some? &&
      JumpDestination(r) == TargetStart(fs, placed, i, ins.jumpTarget.value).value
  {
    var target := TargetStart(fs, placed, i, ins.jumpTarget.value).value;
    LandsOn(target, Low32(ins.offset.value + ins.size.value), ins.offset.value + ins.size.value);
  }

  /** A resolved switch's case k lands where that case's target block starts. */
  lemma ResolveCase(fs: seq<Function>, placed: seq<Instruction>, i: nat, ins: Instruction, k: nat)
    requires AllListed(fs) && i < |fs| && |placed| == |Flat(fs)| && ins.offset.Some? && ins.size.Some?
    requires Resolve(fs, placed, i, ins).Ok? && IsSwitch(ins) && !IsJump(ins)
    requires ins.switchTargets.Some? && k < |ins.switchTargets.value|
    ensures TargetStart(fs, placed, i, ins.switchTargets.value[k]).Ok?
    ensures var r := Resolve(fs, placed, i, ins).value;
      r.offset == ins.offset && r.switchOffsets.Some? && |r.switchOffsets.value| == |ins.switchTargets.value| &&
      CaseDestinations(r.offset.value, r.switchOffsets.value)[k] == TargetStart(fs, placed, i, ins.switchTargets.value[k]).value
  {
    var cases := Cases(fs, placed, i, ins.offset.value, ins.switchTargets.value);
    assert cases[k].Ok?;
    var target := TargetStart(fs, placed, i, ins.switchTargets.value[k]).value;
    LandsOn(target, CaseSource(ins.offset.value, k), ins.offset.value + 4 + 4 * k + 4);
  }

  /**
   * Where the jump src of function i, once resolved into ins, lands: on the first instruction of
   * its target block, at that block's first listing when the function lists it, else wherever
   * that instruction still says it is.
   */
  predicate JumpLands(fs: seq<Function>, listed: seq<Instruction>, i: nat, src: Instruction, ins: Instruction)
    requires AllListed(fs) && i < |fs|
  {
    IsJump(src) ==>
      src.jumpTarget.Some? && ins.offset.Some? && ins.size.Some? && ins.jumpOffset.Some? &&
      var t := src.jumpTarget.value;
      t < |fs[i].arena| && |fs[i].arena[t].instructions| > 0 &&
      if t in fs[i].blocks.value then
        BlockStart(fs, i, t) < |listed| && listed[BlockStart(fs, i, t)].offset.Some? &&
        JumpDestination(ins) == listed[BlockStart(fs, i, t)].offset.value
      else
        fs[i].arena[t].instructions[0].offset.Some? && JumpDestination(ins) == fs[i].arena[t].instructions[0].offset.value
  }

  /** The same for case k of a switch. */
  predicate CaseLands(fs: seq<Function>, listed: seq<Instruction>, i: nat, src: Instruction, ins: Instruction, k: nat)
    requires AllListed(fs) && i < |fs|
  {
    IsSwitch(src) && !IsJump(src) && src.switchTargets.Some? && k < |src.switchTargets.value| ==>
      ins.offset.Some? && ins.switchOffsets.Some? && |ins.switchOffsets.value| == |src.switchTargets.value| &&
      var t := src.switchTargets.value[k];
      var lands := CaseDestinations(ins.offset.value, ins.switchOffsets.value)[k];
      t < |fs[i].arena| && |fs[i].arena[t].instructions| > 0 &&
      if t in fs[i].blocks.value then
        BlockStart(fs, i, t) < |listed| && listed[BlockStart(fs, i, t)].offset.Some? &&
        lands == listed[BlockStart(fs, i, t)].offset.value
      else
        fs[i].arena[t].instructions[0].offset.Some? && lands == fs[i].arena[t].instructions[0].offset.value
  }

  lemma JumpLandsAt(fs: seq<Function>, resolved: seq<Instruction>, p: nat)
    requires ResolvedFrom(fs, resolved) && p < |Flat(fs)|
    ensures |resolved| == |Flat(fs)| && JumpLands(fs, resolved, Owners(fs)[p], Flat(fs)[p], resolved[p])
  {
    var placed := ListedPlaced(fs);
    var i := Owners(fs)[p];
    ResolvedAt(fs, resolved, p);
    ResolvedPlaced(fs, placed, Owners(fs), resolved);
    if IsJump(placed[p]) {
      ResolveJump(fs, placed, i, placed[p]);
      TargetStartOk(fs, placed, i, placed[p].jumpTarget.value);
    }
  }

  lemma CaseLandsAt(fs: seq<Function>, resolved: seq<Instruction>, p: nat, k: nat)
    requires ResolvedFrom(fs, resolved) && p < |Flat(fs)|
    ensures |resolved| == |Flat(fs)| && CaseLands(fs, resolved, Owners(fs)[p], Flat(fs)[p], resolved[p], k)
  {
    var placed := ListedPlaced(fs);
    var i := Owners(fs)[p];
    ResolvedAt(fs, resolved, p);
    ResolvedPlaced(fs, placed, Owners(fs), resolved);
    var ins := placed[p];
    if IsSwitch(ins) && !IsJump(ins) && ins.switchTargets.Some? && k < |ins.switchTargets.value| {
      ResolveCase(fs, placed, i, ins, k);
      TargetStartOk(fs, placed, i, ins.switchTargets.value[k]);
    }
  }

  /** Every jump of a converted script lands on the first instruction of the block it referred to. */
  lemma RelistedJumpLands(fs: seq<Function>, entry: Option<nat>, l: Listing, p: nat)
    requires Relist(Some(fs), entry) == Ok(l) && p < |l.instructions|
    ensures AllListed(fs) && |l.instructions| == |Flat(fs)|
    ensures JumpLands(fs, l.instructions, Owners(fs)[p], Flat(fs)[p], l.instructions[p])
  {
    RelistedResolved(fs, entry, l);
    JumpLandsAt(fs, l.instructions, p);
  }

  /** Every case of every switch of a converted script lands on the first instruction of its block. */
  lemma RelistedCasesLand(fs: seq<Function>, entry: Option<nat>, l: Listing, p: nat, k: nat)
    requires Relist(Some(fs), entry) == Ok(l) && p < |l.instructions|
    ensures AllListed(fs) && |l.instructions| == |Flat(fs)|
    ensures CaseLands(fs, l.instructions, Owners(fs)[p], Flat(fs)[p], l.instructions[p], k)
  {
    RelistedResolved(fs, entry, l);
    CaseLandsAt(fs, l.instructions, p, k);
  }

  /** Function i's index entry: its name hash, at the offset of the first instruction of its body. */
  predicate IndexedAt(fs: seq<Function>, l: Listing, i: nat)
    requires AllListed(fs) && i < |fs| && |l.index| == |fs|
  {
    |Body(fs[i])| > 0 && Before(fs, i) < |l.instructions| && l.instructions[Before(fs, i)].offset.Some? &&
    l.index[i] == FunctionEntry(fs[i].nameHash, l.instructions[Before(fs, i)].offset.value)
  }

  /**
   * The function index has one entry per function, in order, at the offset of the function's
   * first instruction; the entry point is that of `EntryPointFunction`.
   */
  lemma RelistedIndex(fs: seq<Function>, entry: Option<nat>, l: Listing, i: nat)
    requires Relist(Some(fs), entry) == Ok(l) && i < |fs|
    ensures AllListed(fs) && |l.index| == |fs| && IndexedAt(fs, l, i)
    ensures entry.Some? && entry.value < |fs| && l.entryPointOffset == l.index[entry.value].offset
  {
    RelistedSteps(fs, entry, l);
    assert Entries(fs, l.instructions)[i].Ok?;
    FlatAt(fs, i, 0);
  }
}

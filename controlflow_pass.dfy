// `AnalyzeFunction` of src/MajiroLib/Script/Analysis/ControlFlow/ControlFlowPass.cs put
// together: the boundary scan, the ordered starts, the blocks filled with their spans, the
// sort, the link loop, the analysis of every block and the pruning of unreachable ones.

module ControlFlowPass {
  import opened Wrappers
  import opened Instructions
  import opened Graph
  import opened Scripts
  import opened ControlFlow
  import opened FunctionAnalysis
  import opened Pruning
  import opened Encoder
  import opened Relisting

  /** The starts of a function, ascending: its first instruction and every index the scan marks. */
  ghost predicate StartsOf(instructions: seq<Instruction>, first: nat, last: nat, keys: seq<nat>)
    requires first <= last < |instructions|
  {
    Increasing(keys) && forall s: nat :: s in keys <==> s == first || s in MarkedIndices(instructions, first, last, last + 1)
  }

  /** The blocks of the ordered starts, each holding its span, before any edge is added. */
  function SpanBlocks(instructions: seq<Instruction>, keys: seq<nat>, first: nat, last: nat): (r: seq<BasicBlock>)
    requires Keys(instructions, keys, first, last)
  {
    seq(|keys|, k requires 0 <= k < |keys| => NewSpanBlock(instructions, keys, first, last, k))
  }

  /** The blocks after the link loop. */
  function LinkedArena(arena: seq<BasicBlock>): seq<BasicBlock>
    requires AllInhabited(arena)
  {
    seq(|arena|, k requires 0 <= k < |arena| => LinkedBlock(arena, k, true))
  }

  /**
   * The function the analysis loop starts from: the linked blocks in order, the entry block at
   * the position of the first instruction's start, no exit block yet, and the type lists of the
   * argument check and the alloca the scan met.
   */
  function AnalysisStart(instructions: seq<Instruction>, nameHash: bv32, keys: seq<nat>, first: nat, last: nat): Function
    requires Keys(instructions, keys, first, last) && AllInhabited(SpanBlocks(instructions, keys, first, last))
  {
    NewFunction(nameHash).(entryBlock := Some(PositionOf(keys, first)), exitBlocks := Some([]),
                           arena := LinkedArena(SpanBlocks(instructions, keys, first, last)),
                           blocks := Some(Identity(|keys|)),
                           parameterTypes := TypesFound(instructions, first, last + 1, false),
                           localTypes := TypesFound(instructions, first, last + 1, true))
  }

  /** The ordered starts give blocks, and neither the sort nor a lookup of the analysis throws. */
  predicate Analysable(instructions: seq<Instruction>, nameHash: bv32, keys: seq<nat>, first: nat, last: nat) {
    Keys(instructions, keys, first, last) && !SortThrows(SpanBlocks(instructions, keys, first, last)) &&
    AllInhabited(SpanBlocks(instructions, keys, first, last)) &&
    AllTargetsFound(AnalysisStart(instructions, nameHash, keys, first, last))
  }

  /**
   * `AnalyzeFunction` for the function whose instructions are [first, last]. It fails when the
   * boundary scan fails, when the sort meets a block without instructions, and when a block's
   * targets cannot be found. Otherwise the blocks are those of the ordered starts, linked,
   * each analysed, and pruned of the edges of unreachable blocks.
   */
  method AnalyzeFunction(instructions: seq<Instruction>, nameHash: bv32, first: nat, last: nat)
    returns (r: Result<Function>, ghost keys: seq<nat>, ghost analysed: Function, ghost gone: set<BlockId>, ghost order: seq<BlockId>)
    requires first <= last < |instructions|
    ensures ScanClean(instructions, first, last) ==> StartsOf(instructions, first, last, keys) && Keys(instructions, keys, first, last)
    ensures r.Ok? <==> ScanClean(instructions, first, last) && Analysable(instructions, nameHash, keys, first, last)
    ensures ScanClean(instructions, first, last) && SortThrows(SpanBlocks(instructions, keys, first, last)) ==> r == Err(Thrown(CompareFailed))
    ensures r.Ok? ==>
      var start := AnalysisStart(instructions, nameHash, keys, first, last);
      AnalysedUpTo(start, Plan(start), analysed) && PrunedTo(analysed.arena, r.value.arena, gone, order) &&
      r.value == analysed.(arena := r.value.arena)
  {
    keys, analysed, gone, order := [], NewFunction(nameHash), {}, [];
    var marks := MarkBlockStarts(instructions, first, last);
    if marks.Err? {
      return Err(marks.error), keys, analysed, gone, order;
    }
    var m := marks.value;
    var sorted := SortedStarts(m.starts);
    keys := sorted;
    OrderedStarts(instructions, first, last, m.starts, sorted);
    var blocks := FillBlocks(instructions, sorted, first, last);
    assert blocks == SpanBlocks(instructions, sorted, first, last);
    if SortThrows(blocks) {
      return Err(Thrown(CompareFailed)), keys, analysed, gone, order;
    }
    NoThrowInhabited(instructions, sorted, first, last);
    var linked := LinkBlocks(blocks, true);
    assert linked == LinkedArena(blocks);
    var start := NewFunction(nameHash).(entryBlock := Some(PositionOf(sorted, first)), exitBlocks := Some([]),
                                        arena := linked, blocks := Some(Identity(|linked|)),
                                        parameterTypes := m.parameterTypes, localTypes := m.localTypes);
    assert start == AnalysisStart(instructions, nameHash, sorted, first, last);
    var step := AnalyzeBlocks(start);
    if step.Err? {
      return Err(step.error), keys, analysed, gone, order;
    }
    var g := step.value;
    analysed := g;
    LinkWellLinked(blocks, true, linked);
    AnalysedWellLinked(start, g);
    var pruned;
    pruned, gone, order := PruneUnreachable(g.arena);
    r := Ok(g.(arena := pruned));
  }

  /** The ordered starts of a clean scan are the function's starts, and each has an offset. */
  lemma OrderedStarts(instructions: seq<Instruction>, first: nat, last: nat, starts: seq<nat>, keys: seq<nat>)
    requires first <= last < |instructions| && ScanClean(instructions, first, last)
    requires |starts| > 0 && starts[0] == first && Distinct(starts)
    requires forall s: nat :: s in starts <==> s == first || s in MarkedIndices(instructions, first, last, last + 1)
    requires Increasing(keys) && forall y :: y in keys <==> y in starts
    ensures StartsOf(instructions, first, last, keys) && Keys(instructions, keys, first, last)
  {
    MarkedFound(instructions, first, last, last + 1);
    assert starts[0] in starts;
    forall k | 0 <= k < |keys| ensures keys[k] < |instructions| && (keys[k] != first ==> instructions[keys[k]].offset.Some?) {
      assert keys[k] in keys;
    }
  }

  /**
   * A block start follows every branch: the instruction after a branch that is not the
   * function's last, like each of its successors, is one of the function's starts, so the
   * block analysis finds a block at every offset a branch leads to.
   */
  lemma FollowerIsStart(instructions: seq<Instruction>, first: nat, last: nat, keys: seq<nat>, i: nat)
    requires first <= i < last < |instructions| && ScanClean(instructions, first, last)
    requires StartsOf(instructions, first, last, keys) && Branch(instructions[i])
    ensures instructions[i].offset.Some? && instructions[i].size.Some? && NextOffsets(instructions[i]).Ok?
    ensures IndexFromOffset(instructions, FallThrough(instructions[i])) in keys
    ensures forall k | 0 <= k < |NextOffsets(instructions[i]).value| :: IndexFromOffset(instructions, NextOffsets(instructions[i]).value[k]) in keys
  {
    assert ScanOk(instructions, i, last);
    var next := NextOffsets(instructions[i]).value;
    var marked := MarkedOffsets(instructions, i, last).value;
    assert marked == next + [FallThrough(instructions[i])];
    MarkedFound(instructions, first, last, last + 1);
    BranchOffsetsMarked(instructions, first, last, i, |next|);
    assert marked[|next|] == FallThrough(instructions[i]);
    var f := IndexFromOffset(instructions, FallThrough(instructions[i]));
    assert f >= 0;
    forall k | 0 <= k < |next| ensures IndexFromOffset(instructions, next[k]) in keys {
      BranchOffsetsMarked(instructions, first, last, i, k);
      assert marked[k] == next[k];
      assert IndexFromOffset(instructions, next[k]) >= 0;
    }
  }

  /** When the sort does not throw every block holds an instruction: with one block, the entry holds the first. */
  lemma NoThrowInhabited(instructions: seq<Instruction>, keys: seq<nat>, first: nat, last: nat)
    requires Keys(instructions, keys, first, last) && !SortThrows(SpanBlocks(instructions, keys, first, last))
    ensures AllInhabited(SpanBlocks(instructions, keys, first, last))
  {
    var blocks := SpanBlocks(instructions, keys, first, last);
    if |keys| < 2 {
      var e := PositionOf(keys, first);
      assert e == 0;
      assert |Span(instructions, keys, 0, last)| > 0;
      assert |blocks[0].instructions| > 0;
    }
  }

  /** The head of an increasing list is its least member. */
  lemma HeadLeast(a: seq<nat>)
    requires Increasing(a) && |a| > 0
    ensures forall y | y in a :: a[0] <= y
  {
    forall y | y in a ensures a[0] <= y {
      var j :| 0 <= j < |a| && a[j] == y;
    }
  }

  lemma TailsAgree(a: seq<nat>, b: seq<nat>)
    requires Increasing(a) && Increasing(b) && |a| > 0 && |b| > 0 && a[0] == b[0] && forall y :: y in a <==> y in b
    ensures Increasing(a[1..]) && Increasing(b[1..]) && forall y :: y in a[1..] <==> y in b[1..]
  {
    forall y ensures y in a[1..] <==> y in b[1..] {
      if y in a[1..] {
        var j :| 1 <= j < |a| && a[j] == y;
        assert y in b && y != b[0];
      }
      if y in b[1..] {
        var j :| 1 <= j < |b| && b[j] == y;
        assert y in a && y != a[0];
      }
    }
  }

  /** Two increasing lists with the same members are the same list. */
  lemma {:induction false} IncreasingUnique(a: seq<nat>, b: seq<nat>)
    requires Increasing(a) && Increasing(b) && forall y :: y in a <==> y in b
    ensures a == b
  {
    assert |a| > 0 ==> a[0] in b;
    assert |b| > 0 ==> b[0] in a;
    if |a| > 0 && |b| > 0 {
      HeadLeast(a);
      HeadLeast(b);
      assert a[0] == b[0];
      TailsAgree(a, b);
      IncreasingUnique(a[1..], b[1..]);
      assert a == [a[0]] + a[1..] && b == [b[0]] + b[1..];
    }
  }

  /** The starts of a function, and so its analysis, are determined by its instructions. */
  lemma StartsUnique(instructions: seq<Instruction>, first: nat, last: nat, keys: seq<nat>, keys': seq<nat>)
    requires first <= last < |instructions| && StartsOf(instructions, first, last, keys) && StartsOf(instructions, first, last, keys')
    ensures keys == keys'
  {
    IncreasingUnique(keys, keys');
  }

  /** What `AnalyzeFunction` yields once it succeeds, in terms of the function the analysis starts from. */
  ghost predicate AnalyzedAs(instructions: seq<Instruction>, nameHash: bv32, first: nat, last: nat, keys: seq<nat>,
                             analysed: Function, gone: set<BlockId>, order: seq<BlockId>, result: Function)
    requires Analysable(instructions, nameHash, keys, first, last)
  {
    var start := AnalysisStart(instructions, nameHash, keys, first, last);
    AnalysedUpTo(start, Plan(start), analysed) && PrunedTo(analysed.arena, result.arena, gone, order) &&
    result == analysed.(arena := result.arena)
  }

  /** The starting function holds a block per start, each inhabited, and no exit block yet. */
  lemma StartShape(instructions: seq<Instruction>, nameHash: bv32, keys: seq<nat>, first: nat, last: nat)
    requires Keys(instructions, keys, first, last) && AllInhabited(SpanBlocks(instructions, keys, first, last))
    ensures var f := AnalysisStart(instructions, nameHash, keys, first, last);
      |f.arena| == |keys| && AllInhabited(f.arena) && f.exitBlocks == Some([]) && f.blocks == Some(Identity(|keys|))
  {
    var f := AnalysisStart(instructions, nameHash, keys, first, last);
    var blocks := SpanBlocks(instructions, keys, first, last);
    forall k | 0 <= k < |f.arena| ensures |f.arena[k].instructions| > 0 {
      assert f.arena[k] == LinkedBlock(blocks, k, true);
    }
  }

  /** Block k of the starting function: the k-th span with its block tag, entry and name as created, no exit yet. */
  lemma StartBlock(instructions: seq<Instruction>, nameHash: bv32, keys: seq<nat>, first: nat, last: nat, k: nat,
                   f: Function, span: seq<Instruction>)
    requires Keys(instructions, keys, first, last) && AllInhabited(SpanBlocks(instructions, keys, first, last)) && k < |keys|
    requires f == AnalysisStart(instructions, nameHash, keys, first, last) && span == Span(instructions, keys, k, last)
    ensures |f.arena| == |keys| && |f.arena[k].instructions| == |span| > 0
    ensures f.arena[k].isEntryBlock == (keys[k] == first) && !f.arena[k].isExitBlock
    ensures f.arena[k].name == NewSpanBlock(instructions, keys, first, last, k).name
    ensures f.arena[k].instructions[0].offset == instructions[keys[k]].offset
    ensures EndsInReturn(f, k) <==> IsReturn(span[|span| - 1])
  {
    var blocks := SpanBlocks(instructions, keys, first, last);
    StartBlockIs(instructions, keys, first, last, k, f.arena, blocks);
    assert span[0] == instructions[keys[k]];
    StartBlockLast(f, k, span);
  }

  /** Block k of the starting arena is the linked k-th span block. */
  lemma StartBlockIs(instructions: seq<Instruction>, keys: seq<nat>, first: nat, last: nat, k: nat,
                     arena: seq<BasicBlock>, blocks: seq<BasicBlock>)
    requires Keys(instructions, keys, first, last) && k < |keys|
    requires blocks == SpanBlocks(instructions, keys, first, last) && AllInhabited(blocks) && arena == LinkedArena(blocks)
    ensures |arena| == |keys| && arena[k] == LinkedBlock(blocks, k, true)
    ensures blocks[k] == NewSpanBlock(instructions, keys, first, last, k)
  {
  }

  /** The last instruction of block k is the span's last, tagged with the block. */
  lemma StartBlockLast(f: Function, k: nat, span: seq<Instruction>)
    requires k < |f.arena| && AllInhabited(f.arena) && |f.arena[k].instructions| == |span| > 0
    requires forall i | 0 <= i < |span| :: f.arena[k].instructions[i] == span[i].(block := Some(k))
    ensures EndsInReturn(f, k) <==> IsReturn(span[|span| - 1])
  {
    assert Last(f.arena[k]) == span[|span| - 1].(block := Some(k));
  }

  /**
   * Analysis and pruning keep a block's name, entry flag and first offset; they flag and list a
   * block as an exit exactly when it ends in a return, and leave it unreachable exactly when it
   * was dropped.
   */
  lemma AnalysedPrunedBlock(f: Function, g: Function, gone: set<BlockId>, order: seq<BlockId>, result: Function, k: nat)
    requires AllInhabited(f.arena) && f.exitBlocks == Some([]) && AllTargetsFound(f) && k < |f.arena|
    requires AnalysedUpTo(f, Plan(f), g) && PrunedTo(g.arena, result.arena, gone, order) && result == g.(arena := result.arena)
    ensures |result.arena| == |f.arena| && result.blocks == f.blocks && result.exitBlocks.Some?
    ensures result.arena[k].name == f.arena[k].name && result.arena[k].isEntryBlock == f.arena[k].isEntryBlock
    ensures |result.arena[k].instructions| == |f.arena[k].instructions|
    ensures result.arena[k].instructions[0].offset == f.arena[k].instructions[0].offset
    ensures k in result.exitBlocks.value <==> EndsInReturn(f, k)
    ensures result.arena[k].isExitBlock <==> EndsInReturn(f, k) || f.arena[k].isExitBlock
    ensures IsUnreachable(result.arena[k]) <==> k in gone
  {
    assert g.arena[k] == PartialBlock(f, Plan(f), k);
    PartialBlockStarts(f, Plan(f), k);
    assert result.arena[k] == Dropped(g.arena, gone, k);
    PrunedUnreachable(g.arena, result.arena, gone, order, k);
    ExitsBeforeSpec(f, |f.arena|);
    AnalysedExits(f, g, k);
  }

  /**
   * Block k of the result holds the k-th start's span: it is the entry block exactly when it
   * starts at the function's first instruction and keeps the name it was created with.
   */
  lemma AnalyzedBlock(instructions: seq<Instruction>, nameHash: bv32, first: nat, last: nat, keys: seq<nat>,
                      analysed: Function, gone: set<BlockId>, order: seq<BlockId>, result: Function, k: nat)
    requires Analysable(instructions, nameHash, keys, first, last)
    requires AnalyzedAs(instructions, nameHash, first, last, keys, analysed, gone, order, result) && k < |keys|
    ensures |result.arena| == |keys| && result.blocks == Some(Identity(|keys|))
    ensures result.arena[k].isEntryBlock <==> keys[k] == first
    ensures result.arena[k].name == NewSpanBlock(instructions, keys, first, last, k).name
    ensures |result.arena[k].instructions| == |Span(instructions, keys, k, last)| > 0
    ensures result.arena[k].instructions[0].offset == instructions[keys[k]].offset
  {
    StartShape(instructions, nameHash, keys, first, last);
    StartBlock(instructions, nameHash, keys, first, last, k,
               AnalysisStart(instructions, nameHash, keys, first, last), Span(instructions, keys, k, last));
    AnalysedPrunedBlock(AnalysisStart(instructions, nameHash, keys, first, last), analysed, gone, order, result, k);
  }

  /**
   * Block k of the result is listed among the exit blocks, and flagged as one, exactly when its
   * span ends in a return; it is unreachable exactly when it was dropped.
   */
  lemma AnalyzedExit(instructions: seq<Instruction>, nameHash: bv32, first: nat, last: nat, keys: seq<nat>,
                     analysed: Function, gone: set<BlockId>, order: seq<BlockId>, result: Function, k: nat)
    requires Analysable(instructions, nameHash, keys, first, last)
    requires AnalyzedAs(instructions, nameHash, first, last, keys, analysed, gone, order, result) && k < |keys|
    ensures |result.arena| == |keys| && result.exitBlocks.Some?
    ensures var span := Span(instructions, keys, k, last);
      |span| > 0 && (k in result.exitBlocks.value <==> IsReturn(span[|span| - 1])) &&
      (result.arena[k].isExitBlock <==> IsReturn(span[|span| - 1]))
    ensures IsUnreachable(result.arena[k]) <==> k in gone
  {
    StartShape(instructions, nameHash, keys, first, last);
    StartBlock(instructions, nameHash, keys, first, last, k,
               AnalysisStart(instructions, nameHash, keys, first, last), Span(instructions, keys, k, last));
    AnalysedPrunedBlock(AnalysisStart(instructions, nameHash, keys, first, last), analysed, gone, order, result, k);
  }

  /**
   * The successful result as a whole: its edges are within the blocks, mirrored and without
   * duplicates; its entry block is the block of the first instruction, and is never dropped.
   */
  lemma AnalyzedFunction(instructions: seq<Instruction>, nameHash: bv32, first: nat, last: nat, keys: seq<nat>,
                         analysed: Function, gone: set<BlockId>, order: seq<BlockId>, result: Function)
    requires Analysable(instructions, nameHash, keys, first, last)
    requires AnalyzedAs(instructions, nameHash, first, last, keys, analysed, gone, order, result)
    ensures WellLinked(result.arena) && |result.arena| == |keys|
    ensures result.nameHash == nameHash && result.entryBlock.Some?
    ensures var e := result.entryBlock.value;
      e < |keys| && keys[e] == first && result.arena[e].isEntryBlock && e !in gone
  {
    var start := AnalysisStart(instructions, nameHash, keys, first, last);
    var blocks := SpanBlocks(instructions, keys, first, last);
    StartShape(instructions, nameHash, keys, first, last);
    LinkWellLinked(blocks, true, start.arena);
    AnalysedWellLinked(start, analysed);
    PrunedWellLinked(analysed.arena, result.arena, gone, order);
    var e := PositionOf(keys, first);
    AnalyzedBlock(instructions, nameHash, first, last, keys, analysed, gone, order, result, e);
    assert !Dead(analysed.arena, gone, e);
  }

  // ---------------------------------------------------------------------------------------
  // ToInstructionList

  /**
   * The second loop's body for one instruction of function i: a jump gets the displacement from
   * its end to the start of its target block, a switch one displacement per case, each from the
   * end of that case. Offsets are read from `placed`, the list as the first loop left it.
   */
  method ResolveInstruction(fs: seq<Function>, placed: seq<Instruction>, i: nat, ins: Instruction) returns (r: Result<Instruction>)
    requires AllListed(fs) && i < |fs| && |placed| == |Flat(fs)| && ins.offset.Some? && ins.size.Some?
    ensures r == Resolve(fs, placed, i, ins)
  {
    if IsJump(ins) {
      if ins.jumpTarget.None? {
        return Err(AssertFailed("instruction.JumpTarget != null"));
      }
      var target := TargetStart(fs, placed, i, ins.jumpTarget.value);
      if target.Err? {
        return Err(target.error);
      }
      var d := Displacement(target.value, Low32(ins.offset.value + ins.size.value));
      if d.Err? {
        return Err(d.error);
      }
      return Ok(ins.(jumpOffset := Some(d.value), jumpTarget := None));
    } else if IsSwitch(ins) {
      if ins.switchTargets.None? {
        return Err(AssertFailed("instruction.SwitchTargets != null"));
      }
      var targets := ins.switchTargets.value;
      ghost var cases := Cases(fs, placed, i, ins.offset.value, targets);
      var offsets: seq<Int32> := [];
      for k := 0 to |targets|
        invariant |offsets| == k && forall j | 0 <= j < k :: cases[j] == Ok(offsets[j])
      {
        var target := TargetStart(fs, placed, i, targets[k]);
        if target.Err? {
          CollectFirstError(cases, k, 0);
          return Err(target.error);
        }
        var d := Displacement(target.value, ins.offset.value + 2 + 2 + (k + 1) * 4);
        if d.Err? {
          CollectFirstError(cases, k, 0);
          return Err(d.error);
        }
        offsets := offsets + [d.value];
      }
      CollectAll(cases, offsets);
      return Ok(ins.(switchOffsets := Some(offsets), switchTargets := None));
    }
    return Ok(ins);
  }

  /**
   * The first loop: each instruction, in list order, gets its size, the running `uint` offset
   * and no block. It stops at the first instruction whose size cannot be computed.
   */
  method LayOut(script: MjoScript) returns (r: Result<seq<UInt32>>)
    modifies script`instructions
    ensures r == Collect(Sizes(old(script.instructions)), 0)
    ensures r.Ok? ==> script.instructions == Placed(old(script.instructions), r.value)
  {
    var placed;
    r, placed := LaidOut(script.instructions);
    script.instructions := placed;
  }

  /** The loop of `LayOut` over the list itself; on an exception the list is as far as it got. */
  method LaidOut(flat: seq<Instruction>) returns (r: Result<seq<UInt32>>, list: seq<Instruction>)
    ensures r == Collect(Sizes(flat), 0)
    ensures r.Ok? ==> list == Placed(flat, r.value)
  {
    ghost var steps := Sizes(flat);
    list := flat;
    var offset: UInt32 := 0;
    var sizes: seq<UInt32> := [];
    PlacedStart(flat, steps);
    while |sizes| < |list|
      invariant PlacedUpTo(flat, steps, sizes, list, offset)
      decreases |flat| - |sizes|
    {
      var size;
      size, list, offset := PlaceNext(flat, steps, sizes, list, offset);
      if size.Err? {
        PlacedStops(flat, steps, sizes, list, offset);
        return Err(size.error), list;
      }
      sizes := sizes + [size.value];
    }
    PlacedDone(flat, steps, sizes, list, offset);
    return Ok(sizes), list;
  }

  /** One turn of that loop: the next instruction's size, and on success the instruction laid out at the running offset. */
  method PlaceNext(ghost flat: seq<Instruction>, ghost steps: seq<Result<UInt32>>, sizes: seq<UInt32>, list: seq<Instruction>,
                   offset: UInt32)
    returns (size: Result<UInt32>, list': seq<Instruction>, offset': UInt32)
    requires steps == Sizes(flat) && PlacedUpTo(flat, steps, sizes, list, offset) && |sizes| < |flat|
    ensures size == steps[|sizes|]
    ensures size.Err? ==> list' == list && offset' == offset
    ensures size.Ok? ==> PlacedUpTo(flat, steps, sizes + [size.value], list', offset')
  {
    var k := |sizes|;
    size := GetInstructionSize(list[k]);
    if size.Err? {
      return size, list, offset;
    }
    PlacedStep(flat, steps, sizes, list, offset, size.value);
    list' := list[k := list[k].(offset := Some(offset), size := Some(size.value), block := None)];
    offset' := Wrap32(offset + size.value);
  }

  /**
   * The second loop: every instruction is resolved in the function its position belongs to. It
   * stops at the first instruction that cannot be.
   */
  method ResolveAll(script: MjoScript, fs: seq<Function>) returns (r: Result<()>)
    requires AllListed(fs) && |script.instructions| == |Flat(fs)| && AllPlaced(script.instructions)
    modifies script`instructions
    ensures var res := Collect(Resolutions(fs, old(script.instructions), Owners(fs)), 0);
      (r.Ok? <==> res.Ok?) && (r.Err? ==> r.error == res.error) && (res.Ok? ==> script.instructions == res.value)
  {
    var placed := script.instructions;
    var owners := Owners(fs);
    ghost var steps := Resolutions(fs, placed, owners);
    var p := 0;
    while p < |script.instructions|
      invariant p <= |script.instructions| == |placed|
      invariant forall j | 0 <= j < p :: steps[j] == Ok(script.instructions[j])
    {
      var resolved := ResolveInstruction(fs, placed, owners[p], placed[p]);
      if resolved.Err? {
        CollectFirstError(steps, p, 0);
        return Err(resolved.error);
      }
      script.instructions := script.instructions[p := resolved.value];
      p := p + 1;
    }
    CollectAll(steps, script.instructions);
    return Ok(());
  }

  /**
   * The third loop: an index entry per function, in order, at the offset of its first
   * instruction as laid out. It stops at the first function without instructions.
   */
  method IndexFunctions(script: MjoScript, fs: seq<Function>) returns (r: Result<()>)
    requires AllListed(fs) && |script.instructions| == |Flat(fs)| && AllPlaced(script.instructions)
    modifies script`functionIndex
    ensures var res := Collect(Entries(fs, script.instructions), 0);
      (r.Ok? <==> res.Ok?) && (r.Err? ==> r.error == res.error) && (res.Ok? ==> script.functionIndex == Some(res.value))
  {
    ghost var steps := Entries(fs, script.instructions);
    script.functionIndex := Some([]);
    for i := 0 to |fs|
      invariant script.functionIndex.Some? && |script.functionIndex.value| == i
      invariant forall j | 0 <= j < i :: steps[j] == Ok(script.functionIndex.value[j])
    {
      if |Body(fs[i])| == 0 {
        CollectFirstError(steps, i, 0);
        return Err(Thrown(NoElements));
      }
      FlatAt(fs, i, 0);
      var first := script.instructions[Before(fs, i)];
      script.functionIndex := Some(script.functionIndex.value + [FunctionEntry(fs[i].nameHash, first.offset.value)]);
    }
    CollectAll(steps, script.functionIndex.value);
    return Ok(());
  }

  const ToListFrom: string := "Unable to convert script to instruction list representation from current state: "

  /**
   * What `ToInstructionList` leaves of the script, given what `Relist` computes from its
   * functions: on success an instruction list with the listing's instructions, index and entry
   * point and no functions; on an exception the same exception, with the script in transition.
   */
  predicate ListedAs(script: MjoScript, r: Result<()>, relisted: Result<Listing>, readMark: bool)
    reads script
  {
    (r.Ok? <==> relisted.Ok?) && (r.Err? ==> r.error == relisted.error && script.representation == InTransition) &&
    (r.Ok? ==>
      script.representation == InstructionList && script.instructions == relisted.value.instructions &&
      script.functionIndex == Some(relisted.value.index) && script.entryPointOffset == Some(relisted.value.entryPointOffset) &&
      script.functions.None? && script.entryPointFunction.None? && script.enableReadMark == readMark)
  }

  /**
   * The functions flattened into the script's instruction list, then laid out and resolved by
   * the first two loops: what `Resolved` computes.
   */
  method ListResolved(script: MjoScript, fs: seq<Function>) returns (r: Result<seq<Instruction>>)
    modifies script`instructions
    ensures r == LaidOutResolved(fs) && (r.Ok? ==> script.instructions == r.value)
  {
    var unlisted := FlattenError(fs, 0);
    if unlisted.Some? {
      ResolvedUnlisted(fs);
      return Err(unlisted.value);
    }
    script.instructions := Flat(fs);
    var sizes := LayOut(script);
    if sizes.Err? {
      ResolvedUnsized(fs);
      return Err(sizes.error);
    }
    var resolved := ResolveAll(script, fs);
    if resolved.Err? {
      ResolvedUnresolved(fs);
      return Err(resolved.error);
    }
    ResolvedDone(fs, script.instructions);
    return Ok(script.instructions);
  }

  /** The conversion proper, once the script is in transition. */
  method Relisted(script: MjoScript) returns (r: Result<()>)
    requires script.representation == InTransition
    modifies script
    ensures ListedAs(script, r, Relist(old(script.functions), old(script.entryPointFunction)), old(script.enableReadMark))
  {
    ghost var relisted := Relist(script.functions, script.entryPointFunction);
    if script.functions.None? {
      return Err(Thrown(NullReference));
    }
    var fs := script.functions.value;
    var entryFunction := script.entryPointFunction;
    assert relisted == Relist(Some(fs), entryFunction);
    var resolved := ListResolved(script, fs);
    if resolved.Err? {
      RelistUnresolved(fs, entryFunction);
      return Err(resolved.error);
    }
    r := Indexed(script, fs, entryFunction, resolved.value);
  }

  /** The third loop and the entry point, once the list is laid out and resolved. */
  method Indexed(script: MjoScript, fs: seq<Function>, entryFunction: Option<nat>, listed: seq<Instruction>)
    returns (r: Result<()>)
    requires script.representation == InTransition
    requires LaidOutResolved(fs) == Ok(listed) && script.instructions == listed
    modifies script
    ensures ListedAs(script, r, Relist(Some(fs), entryFunction), old(script.enableReadMark))
  {
    var indexed := IndexFunctions(script, fs);
    if indexed.Err? {
      RelistUnindexed(fs, entryFunction, listed);
      return Err(indexed.error);
    }
    RelistEnd(fs, entryFunction, listed, script.functionIndex.value);
    r := Entered(script, entryFunction, listed, script.functionIndex.value);
  }

  /** The entry point of the converted script, once the function index is built. */
  method Entered(script: MjoScript, entryFunction: Option<nat>, listed: seq<Instruction>, index: seq<FunctionEntry>)
    returns (r: Result<()>)
    requires script.representation == InTransition
    requires script.instructions == listed && script.functionIndex == Some(index)
    modifies script
    ensures ListedAs(script, r, EntryListing(listed, index, entryFunction), old(script.enableReadMark))
  {
    script.functions := None;
    if entryFunction.None? {
      return Err(Thrown(NullReference));
    }
    var entry := entryFunction.value;
    if entry >= |index| {
      return Err(Thrown(IndexOutOfRange));
    }
    script.entryPointOffset := Some(index[entry].offset);
    script.entryPointFunction := None;
    script.representation := InstructionList;
    return Ok(());
  }

  /**
   * `ToInstructionList`. From an instruction list it does nothing; from a state other than the
   * control flow graph it throws. Otherwise it does what `Relist` computes.
   */
  method ToInstructionList(script: MjoScript) returns (r: Result<()>)
    modifies script
    ensures old(script.representation) == InstructionList ==> r == Ok(()) && unchanged(script)
    ensures old(script.representation) != InstructionList && old(script.representation) != ControlFlowGraph ==>
      r == Err(Thrown(ToListFrom + RepresentationName(old(script.representation)))) && unchanged(script)
    ensures old(script.representation) == ControlFlowGraph ==>
      ListedAs(script, r, Relist(old(script.functions), old(script.entryPointFunction)), old(script.enableReadMark)) &&
      !script.instructionsNull
  {
    if script.representation == InstructionList {
      return Ok(());
    }
    if script.representation != ControlFlowGraph {
      return Err(Thrown(ToListFrom + RepresentationName(script.representation)));
    }
    script.representation := InTransition;
    r := Relisted(script);
    // the flattened list replaces whatever list the script had, null or not
    script.instructionsNull := false;
  }
}

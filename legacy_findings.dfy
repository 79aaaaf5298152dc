// A worked counterexample for the second legacy graph builder
// (src/MajiroLib/Script/Analysis/ControlFlow/ControlFlowGraph.cs). Its scan records the index
// after each branch among the start indices, but not among the block starts (line 111), so no
// block begins there; a loop compiled as `jmp cond; body; cond: brtrue body; ret` then fails,
// because the backward branch leads to the body, which has no block of its own.

module LegacyFindings {
  import opened Wrappers
  import opened Instructions
  import Opcodes
  import opened LegacyGraphs

  /** An instruction with just an opcode, its encoding, an offset, a size and a jump offset. */
  function Op(value: Opcodes.UInt16, encoding: string, offset: UInt32, size: UInt32, jump: Option<Int32>): Instruction {
    Instruction(Opcodes.Opcode(value, "op", None, encoding, "", []), Some(offset), Some(size), 0, 0, 0, jump, [], None, None, 0, 0, 0, 0,
                None, None, None, None, None, None, None)
  }

  /** `jmp +2` over the body to the condition, the body, the condition, `brtrue -10` back to the body, `ret`. */
  function Loop(): seq<Instruction> {
    [Op(0x82c, "j", 0, 6, Some(2)), Op(0x801, "", 6, 2, None), Op(0x801, "", 8, 2, None), Op(0x82d, "j", 10, 6, Some(-10)), Op(0x82b, "", 16, 2, None)]
  }

  /** The scan's outcome: blocks at 0, 2 and 4; the index after each branch only among the start indices. */
  function LoopScan(): Scan {
    Scan([0, 2, 4], [0, 2, 1, 4, 4], None)
  }

  lemma LoopShape()
    ensures |Loop()| == 5 && OldScript(Loop())
    ensures Loop()[0].offset == Some(0) && Loop()[1].offset == Some(6) && Loop()[2].offset == Some(8)
    ensures Loop()[3].offset == Some(10) && Loop()[4].offset == Some(16)
  {
  }

  lemma LoopJumpNext()
    ensures Successors(Second, Loop()[0]) == Ok([8])
  {
    var p := Loop();
    assert ControlFlow.NextOffsets(p[0]) == Ok([8]);
  }

  lemma LoopBranchNext()
    ensures Successors(Second, Loop()[3]) == Ok([6, 16])
  {
    var p := Loop();
    assert ControlFlow.JumpDestination(p[3]) == 6;
    assert ControlFlow.FallThrough(p[3]) == 16;
    assert ControlFlow.NextOffsets(p[3]) == Ok([ControlFlow.JumpDestination(p[3])] + [ControlFlow.FallThrough(p[3])]);
    assert [6] + [16] == [6, 16];
  }

  lemma LoopIndex8()
    ensures Scripts.IndexFromOffset(Loop(), 8) == 2
  {
    LoopShape();
  }

  lemma LoopIndex6()
    ensures Scripts.IndexFromOffset(Loop(), 6) == 1
  {
    LoopShape();
  }

  lemma LoopIndex16()
    ensures Scripts.IndexFromOffset(Loop(), 16) == 4
  {
    LoopShape();
  }

  /** The scan after the opening jump. */
  function LoopAfterJump(): Scan {
    Scan([0, 2], [0, 2, 1], None)
  }

  lemma LoopMarkJump()
    ensures MarkOne(Loop(), 8, ScanStart(0)) == Ok(Scan([0, 2], [0, 2], None))
  {
    LoopIndex8();
    assert 2 !in ScanStart(0).startIndices;
    assert [0] + [2] == [0, 2];
  }

  lemma LoopStepJump()
    ensures OldScript(Loop())
    ensures ScanAt(Second, Loop(), 0, ScanStart(0)) == Ok(LoopAfterJump())
  {
    LoopShape();
    LoopJumpNext();
    LoopMarkJump();
    var p := Loop();
    assert Mark(p, [8], ScanStart(0)) == Ok(Scan([0, 2], [0, 2], None));
    assert [0, 2] + [1] == [0, 2, 1];
  }

  lemma LoopMarkBody()
    ensures MarkOne(Loop(), 6, LoopAfterJump()) == Ok(LoopAfterJump())
  {
    LoopIndex6();
  }

  lemma LoopMarkExit()
    ensures MarkOne(Loop(), 16, LoopAfterJump()) == Ok(Scan([0, 2, 4], [0, 2, 1, 4], None))
  {
    LoopIndex16();
    var s := LoopAfterJump();
    assert 4 !in s.startIndices;
    assert s.blockStarts + [4] == [0, 2, 4] && s.startIndices + [4] == [0, 2, 1, 4];
  }

  lemma LoopMarkBranch()
    ensures Mark(Loop(), [6, 16], LoopAfterJump()) == Ok(Scan([0, 2, 4], [0, 2, 1, 4], None))
  {
    LoopMarkBody();
    LoopMarkExit();
    var p := Loop();
    var s1 := LoopAfterJump();
    assert Mark(p, [16], s1) == Ok(Scan([0, 2, 4], [0, 2, 1, 4], None));
    assert [6, 16][1..] == [16];
  }

  lemma LoopStepBranch()
    ensures OldScript(Loop())
    ensures ScanAt(Second, Loop(), 3, LoopAfterJump()) == Ok(LoopScan())
  {
    LoopShape();
    LoopBranchNext();
    LoopMarkBranch();
    assert [0, 2, 1, 4] + [4] == [0, 2, 1, 4, 4];
  }

  /** The scan of the function gets through and leaves the body without a block start. */
  lemma LoopScanned()
    ensures OldScript(Loop())
    ensures ScanFrom(Second, Loop(), 0, 4, ScanStart(0)) == Ok(LoopScan())
  {
    LoopStepJump();
    LoopStepBranch();
    var p := Loop();
    var s1 := LoopAfterJump();
    assert ScanFrom(Second, p, 3, 4, s1) == Ok(LoopScan());
    assert ScanAt(Second, p, 2, s1) == Ok(s1);
    assert ScanFrom(Second, p, 2, 4, s1) == Ok(LoopScan());
    assert ScanAt(Second, p, 1, s1) == Ok(s1);
    assert ScanFrom(Second, p, 1, 4, s1) == Ok(LoopScan());
  }

  /** The sorted blocks: [0, 0], [2, 3] and [4, 4]; the body at index 1 lies in none. */
  function LoopBlocks(): seq<OldBlock> {
    [OldBlock(0, 0, true, false, [], []), OldBlock(2, 3, false, false, [], []), OldBlock(4, 4, false, false, [], [])]
  }

  lemma LoopKeys()
    ensures FunctionAnalysis.SortedStarts([0, 2, 4]) == [0, 2, 4]
  {
    assert [0, 2, 4][..2] == [0, 2] && [0, 2][..1] == [0] && [0][..0] == [];
    assert FunctionAnalysis.SortedStarts([0]) == [0];
    assert FunctionAnalysis.Insert(2, [0]) == [0, 2];
    assert FunctionAnalysis.Insert(4, [0, 2]) == [0, 2, 4];
  }

  lemma LoopEnds()
    ensures EndOf(LoopScan().startIndices, 4, 0) == 0 && EndOf(LoopScan().startIndices, 4, 2) == 3 && EndOf(LoopScan().startIndices, 4, 4) == 4
  {
    var si := LoopScan().startIndices;
    assert EndOf(si, 4, 3) == 3;
  }

  lemma LoopSorted()
    ensures FunctionAnalysis.SortedStarts([0, 2, 4]) == [0, 2, 4]
    ensures SortedBlocks([0, 2, 4], LoopScan().startIndices, 0, 4) == LoopBlocks()
  {
    LoopKeys();
    LoopEnds();
  }

  lemma LoopPrepared()
    ensures OldScript(Loop()) && Scanned(Second, Loop(), LoopScan(), 0, 4)
    ensures Prepared(Second, Loop(), 0, LoopScan(), 0, 4, Writes(map[], map[], map[])).blocks == LoopBlocks()
  {
    LoopScanned();
    LoopSorted();
    var p := Loop();
    var b := LoopBlocks();
    assert LastsWithin(p, b);
    assert !LinksNext(p, b, 0) && !LinksNext(p, b, 1);
    assert LinkFrom(p, b, 2) == b;
    assert LinkFrom(p, b, 1) == b;
  }

  lemma LoopJumpTarget()
    ensures FindFrom(Loop(), LoopBlocks(), 8, 0) == Ok(Some(1))
  {
    var p := Loop();
    var b := LoopBlocks();
    assert FindFrom(p, b, 8, 1) == Ok(Some(1));
  }

  lemma LoopWithin()
    ensures |Loop()| == 5 && LastsWithin(Loop(), LoopBlocks()) && FirstsWithin(Loop(), LoopBlocks())
  {
    var b := LoopBlocks();
    assert |b| == 3;
    assert b[0].lastInstructionIndex == 0 && b[1].lastInstructionIndex == 3 && b[2].lastInstructionIndex == 4;
    assert b[0].firstInstructionIndex == 0 && b[1].firstInstructionIndex == 2 && b[2].firstInstructionIndex == 4;
  }

  lemma LoopFirstLinked()
    ensures LinkTargets(Loop(), LoopBlocks(), 0, [8]) == Ok(AddEdge(LoopBlocks(), 0, 1))
  {
    LoopJumpTarget();
    var p := Loop();
    var b := LoopBlocks();
    assert LinkTargets(p, AddEdge(b, 0, 1), 0, []) == Ok(AddEdge(b, 0, 1));
    assert [8][1..] == [];
  }

  lemma LoopFirstLookup()
    ensures Lookup(Loop(), AddEdge(LoopBlocks(), 0, 1), 0, 8) == Ok(Some(BlockRef(0, 1)))
  {
    var p := Loop();
    var b := AddEdge(LoopBlocks(), 0, 1);
    assert FindFrom(p, b, 8, 1) == Ok(Some(1));
  }

  lemma LoopFirstBlock(w: Writes)
    ensures OldScript(Loop()) && LastsWithin(Loop(), LoopBlocks())
    ensures AnalyzeStep(Second, Loop(), 0, Built(LoopBlocks(), [], w), 0).Ok?
    ensures AnalyzeStep(Second, Loop(), 0, Built(LoopBlocks(), [], w), 0).value.blocks == AddEdge(LoopBlocks(), 0, 1)
  {
    LoopShape();
    LoopJumpNext();
    LoopWithin();
    LoopFirstLinked();
    LoopFirstLookup();
    var p := Loop();
    var b := LoopBlocks();
    assert b[0].lastInstructionIndex == 0;
    assert !IsReturn(p[0]) && IsJump(p[0]) && ControlFlow.JumpDestination(p[0]) == 8;
  }

  /** No block starts at the body's offset 6. */
  lemma LoopBodyUnmarked()
    ensures FindFrom(Loop(), AddEdge(LoopBlocks(), 0, 1), 6, 0) == Ok(None)
  {
    LoopWithin();
    var p := Loop();
    var b := AddEdge(LoopBlocks(), 0, 1);
    assert |b| == 3 && b[0].firstInstructionIndex == 0 && b[1].firstInstructionIndex == 2 && b[2].firstInstructionIndex == 4;
    assert p[0].offset == Some(0) && p[2].offset == Some(8) && p[4].offset == Some(16);
    assert FindFrom(p, b, 6, 2) == Ok(None);
  }

  lemma LoopSecondBlock(c: Built)
    requires c.blocks == AddEdge(LoopBlocks(), 0, 1)
    ensures OldScript(Loop()) && LastsWithin(Loop(), c.blocks)
    ensures AnalyzeStep(Second, Loop(), 0, c, 1) == Err(Thrown(InvalidJumpTarget))
  {
    LoopShape();
    LoopBranchNext();
    LoopWithin();
    LoopBodyUnmarked();
    var p := Loop();
    var b := c.blocks;
    assert b[1].lastInstructionIndex == 3 && !IsReturn(p[3]);
    assert LinkTargets(p, b, 1, [6, 16]) == Err(Thrown(InvalidJumpTarget));
  }

  lemma LoopAnalysisFails(pre: Built)
    requires pre.blocks == LoopBlocks() && pre.exits == []
    ensures OldScript(Loop()) && LastsWithin(Loop(), pre.blocks)
    ensures AnalyzeFrom(Second, Loop(), 0, pre, 0) == Err(Thrown(InvalidJumpTarget))
  {
    LoopFirstBlock(pre.writes);
    assert pre == Built(LoopBlocks(), [], pre.writes);
    var b1 := AnalyzeStep(Second, Loop(), 0, pre, 0).value;
    LoopSecondBlock(b1);
    assert AnalyzeFrom(Second, Loop(), 0, b1, 1) == Err(Thrown(InvalidJumpTarget));
  }

  /** The analysis of the loop fails with "Invalid jump target" at the backward branch. */
  lemma LoopRejected()
    ensures OldScript(Loop())
    ensures Analyzed(Second, Loop(), 0, 0, 0, 4, Writes(map[], map[], map[])) == Err(Thrown(InvalidJumpTarget))
  {
    LoopScanned();
    LoopPrepared();
    LoopAnalysisFails(Prepared(Second, Loop(), 0, LoopScan(), 0, 4, Writes(map[], map[], map[])));
  }
}

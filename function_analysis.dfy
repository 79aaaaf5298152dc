// `AnalyzeFunction` and `AnalyzeBasicBlock` of
// src/MajiroLib/Script/Analysis/ControlFlow/ControlFlowPass.cs: the marked starts become the
// blocks of one function, the blocks are linked, and the edges out of unreachable blocks are
// dropped. The arena holds the blocks in ascending order of their first instruction, so block
// ids are positions in the sorted `Blocks` list and that list is 0, 1, ..., n - 1.

module FunctionAnalysis {
  import opened Wrappers
  import opened Flags
  import opened Instructions
  import opened Graph
  import opened Scripts
  import opened ControlFlow
  import Numerals

  // ---------------------------------------------------------------------------------------
  // Ordering the starts (`blockStarts.Keys.OrderBy(i => i)`)

  predicate Increasing(s: seq<nat>) {
    forall j, k | 0 <= j < k < |s| :: s[j] < s[k]
  }

  /** x put into its place in an increasing sequence that does not hold it. */
  function Insert(x: nat, s: seq<nat>): (r: seq<nat>)
    requires Increasing(s) && x !in s
    ensures Increasing(r) && |r| == |s| + 1 && forall y :: y in r <==> y in s || y == x
  {
    if |s| == 0 then [x]
    else if x < s[0] then [x] + s
    else
      assert forall y :: y in s <==> y == s[0] || y in s[1..];
      var t := Insert(x, s[1..]);
      assert forall j | 0 <= j < |t| :: t[j] in t && t[j] > s[0];
      [s[0]] + t
  }

  /** The starts in ascending order: the same indices, each once. */
  function SortedStarts(starts: seq<nat>): (r: seq<nat>)
    requires Distinct(starts)
    ensures Increasing(r) && |r| == |starts| && forall y :: y in r <==> y in starts
  {
    if |starts| == 0 then []
    else
      var init := starts[..|starts| - 1];
      assert forall y :: y in starts <==> y in init || y == starts[|starts| - 1];
      Insert(starts[|starts| - 1], SortedStarts(init))
  }

  /** The position of a start in the ordered starts. */
  function PositionOf(keys: seq<nat>, x: nat): (k: nat)
    requires x in keys
    ensures k < |keys| && keys[k] == x
  {
    if keys[0] == x then 0 else PositionOf(keys[1..], x) + 1
  }

  // ---------------------------------------------------------------------------------------
  // The blocks (`new BasicBlock(function, label)` and the loop that finds block ends)

  /** The label `MarkBasicBlockStart` gives a block: `block_` and the offset in at least four hex digits. */
  function BlockLabel(offset: UInt32): string {
    "block_" + Numerals.HexPadded(offset, 4)
  }

  /** Where block k stops: before the next start or after the function's last instruction, whichever comes first. */
  function BlockEnd(keys: seq<nat>, k: nat, last: nat): nat
    requires k < |keys|
  {
    if k + 1 < |keys| && keys[k + 1] <= last then keys[k + 1] else last + 1
  }

  /** The instructions of block k: from its start to its end, none when it starts past the function's end. */
  function Span(instructions: seq<Instruction>, keys: seq<nat>, k: nat, last: nat): seq<Instruction>
    requires Increasing(keys) && k < |keys| && last < |instructions|
  {
    if keys[k] <= last then instructions[keys[k]..BlockEnd(keys, k, last)] else []
  }

  /** `instructions[i].Block = basicBlock`: each instruction of block k knows it. */
  function Tagged(s: seq<Instruction>, k: BlockId): (r: seq<Instruction>)
    ensures |r| == |s| && forall j | 0 <= j < |r| :: r[j] == s[j].(block := Some(k))
  {
    seq(|s|, j requires 0 <= j < |s| => s[j].(block := Some(k)))
  }

  /**
   * Block k as the pass creates it: the entry block for the function's first instruction, a
   * labelled block otherwise; no edges, not yet an exit, holding its span.
   */
  function NewSpanBlock(instructions: seq<Instruction>, keys: seq<nat>, first: nat, last: nat, k: nat): BasicBlock
    requires Increasing(keys) && k < |keys| && last < |instructions| && keys[k] < |instructions|
  {
    var name := if keys[k] == first then "entry"
                else if instructions[keys[k]].offset.Some? then BlockLabel(instructions[keys[k]].offset.value) else "";
    NewBlock(name).(isEntryBlock := keys[k] == first, instructions := Tagged(Span(instructions, keys, k, last), k))
  }

  /** The starts of a function: increasing instruction indices that include its first one; the others have offsets. */
  predicate Keys(instructions: seq<Instruction>, keys: seq<nat>, first: nat, last: nat) {
    Increasing(keys) && first in keys && first <= last < |instructions| &&
    forall k | 0 <= k < |keys| :: keys[k] < |instructions| && (keys[k] != first ==> instructions[keys[k]].offset.Some?)
  }

  /** The loop over the ordered starts that gives each block its instructions. */
  method FillBlocks(instructions: seq<Instruction>, keys: seq<nat>, first: nat, last: nat) returns (arena: seq<BasicBlock>)
    requires Keys(instructions, keys, first, last)
    ensures |arena| == |keys|
    ensures forall k | 0 <= k < |keys| :: arena[k] == NewSpanBlock(instructions, keys, first, last, k)
  {
    arena := [];
    for k := 0 to |keys|
      invariant Filled(instructions, keys, first, last, arena, k)
    {
      var block := FillNewBlock(instructions, keys, first, last, k);
      FilledOne(instructions, keys, first, last, arena, k, block);
      arena := arena + [block];
    }
  }

  /** The blocks of the starts before k are filled. */
  ghost predicate Filled(instructions: seq<Instruction>, keys: seq<nat>, first: nat, last: nat, arena: seq<BasicBlock>, k: nat)
    requires Keys(instructions, keys, first, last) && k <= |keys|
  {
    |arena| == k && forall j | 0 <= j < k :: arena[j] == NewSpanBlock(instructions, keys, first, last, j)
  }

  lemma FilledOne(instructions: seq<Instruction>, keys: seq<nat>, first: nat, last: nat, arena: seq<BasicBlock>, k: nat, block: BasicBlock)
    requires Keys(instructions, keys, first, last) && k < |keys|
    requires Filled(instructions, keys, first, last, arena, k) && block == NewSpanBlock(instructions, keys, first, last, k)
    ensures Filled(instructions, keys, first, last, arena + [block], k + 1)
  {
    var arena' := arena + [block];
    forall j | 0 <= j < k + 1 ensures arena'[j] == NewSpanBlock(instructions, keys, first, last, j) {
      if j < k {
        assert arena'[j] == arena[j];
      }
    }
  }

  /** One turn of that loop: the block named for its start, flagged when it is the entry, holding its span. */
  method FillNewBlock(instructions: seq<Instruction>, keys: seq<nat>, first: nat, last: nat, k: nat) returns (block: BasicBlock)
    requires Keys(instructions, keys, first, last) && k < |keys|
    ensures block == NewSpanBlock(instructions, keys, first, last, k)
  {
    var start := keys[k];
    var name := if start == first then "entry" else BlockLabel(instructions[start].offset.value);
    block := NewBlock(name).(isEntryBlock := start == first);
    var taken := FillBlock(instructions, keys, k, last);
    block := block.(instructions := taken);
  }

  /** The inner loop for block k: from its start on, up to the function's end or the instruction before the next start. */
  method FillBlock(instructions: seq<Instruction>, keys: seq<nat>, k: nat, last: nat) returns (taken: seq<Instruction>)
    requires Increasing(keys) && k < |keys| && last < |instructions|
    ensures taken == Tagged(Span(instructions, keys, k, last), k)
  {
    taken := [];
    var i := keys[k];
    if i > last {
      return;
    }
    while true
      invariant keys[k] <= i <= last
      invariant forall j | keys[k] < j <= i :: j !in keys
      invariant taken == Tagged(instructions[keys[k]..i], k)
      decreases last - i
    {
      TaggedStep(instructions, keys[k], i, k);
      taken := taken + [instructions[i].(block := Some(k))];
      if i == last || i + 1 in keys {
        EndFound(keys, k, last, i);
        return;
      }
      i := i + 1;
    }
  }

  lemma TaggedStep(instructions: seq<Instruction>, a: nat, i: nat, k: BlockId)
    requires a <= i < |instructions|
    ensures Tagged(instructions[a..i], k) + [instructions[i].(block := Some(k))] == Tagged(instructions[a..i + 1], k)
  {
    var s := Tagged(instructions[a..i], k) + [instructions[i].(block := Some(k))];
    var t := Tagged(instructions[a..i + 1], k);
    assert |s| == |t|;
    forall j | 0 <= j < |s| ensures s[j] == t[j] {
      if j < i - a {
        assert s[j] == instructions[a..i][j].(block := Some(k));
      }
    }
  }

  /** Where the inner loop stops is the block's end. */
  lemma EndFound(keys: seq<nat>, k: nat, last: nat, i: nat)
    requires Increasing(keys) && k < |keys| && keys[k] <= i <= last
    requires forall j | keys[k] < j <= i :: j !in keys
    requires i == last || i + 1 in keys
    ensures BlockEnd(keys, k, last) == i + 1
  {
    if i < last {
      var m :| 0 <= m < |keys| && keys[m] == i + 1;
      assert k < m;
      assert keys[k + 1] <= keys[m];
      assert keys[k + 1] in keys;
    } else if k + 1 < |keys| {
      assert keys[k + 1] in keys;
    }
  }

  /** The spans of blocks [0, m) one after the other. */
  function Spans(instructions: seq<Instruction>, keys: seq<nat>, last: nat, m: nat): seq<Instruction>
    requires Increasing(keys) && m <= |keys| && last < |instructions|
  {
    if m == 0 then [] else Spans(instructions, keys, last, m - 1) + Span(instructions, keys, m - 1, last)
  }

  /**
   * The blocks tile the instructions with no gap and no overlap: one after the other they are
   * the instructions from the first start through the function's last instruction.
   */
  lemma {:induction false} SpansTile(instructions: seq<Instruction>, keys: seq<nat>, last: nat)
    requires Increasing(keys) && |keys| > 0 && keys[0] <= last < |instructions|
    ensures Spans(instructions, keys, last, |keys|) == instructions[keys[0]..last + 1]
  {
    SpansReach(instructions, keys, last, |keys|);
  }

  /** After m blocks the spans reach the end of block m - 1, or the function's end once the starts are past it. */
  lemma {:induction false} SpansReach(instructions: seq<Instruction>, keys: seq<nat>, last: nat, m: nat)
    requires Increasing(keys) && 0 < m <= |keys| && keys[0] <= last < |instructions|
    ensures keys[m - 1] <= last ==> Spans(instructions, keys, last, m) == instructions[keys[0]..BlockEnd(keys, m - 1, last)]
    ensures keys[m - 1] > last ==> Spans(instructions, keys, last, m) == instructions[keys[0]..last + 1]
  {
    if m > 1 {
      SpansReach(instructions, keys, last, m - 1);
      SpansStep(instructions, keys, last, m);
    }
  }

  /** One more block: its span continues where the spans before it stop. */
  lemma SpansStep(instructions: seq<Instruction>, keys: seq<nat>, last: nat, m: nat)
    requires Increasing(keys) && 1 < m <= |keys| && keys[0] <= last < |instructions|
    requires keys[m - 2] <= last ==> Spans(instructions, keys, last, m - 1) == instructions[keys[0]..BlockEnd(keys, m - 2, last)]
    requires keys[m - 2] > last ==> Spans(instructions, keys, last, m - 1) == instructions[keys[0]..last + 1]
    ensures keys[m - 1] <= last ==> Spans(instructions, keys, last, m) == instructions[keys[0]..BlockEnd(keys, m - 1, last)]
    ensures keys[m - 1] > last ==> Spans(instructions, keys, last, m) == instructions[keys[0]..last + 1]
  {
    var before := Spans(instructions, keys, last, m - 1);
    var span := Span(instructions, keys, m - 1, last);
    assert Spans(instructions, keys, last, m) == before + span;
    assert keys[m - 2] < keys[m - 1];
    if keys[m - 1] <= last {
      assert BlockEnd(keys, m - 2, last) == keys[m - 1];
      Joined(instructions, keys[0], keys[m - 1], BlockEnd(keys, m - 1, last));
    } else {
      assert span == [];
      assert keys[m - 2] <= last ==> BlockEnd(keys, m - 2, last) == last + 1;
      assert before + [] == before;
    }
  }

  lemma Joined(s: seq<Instruction>, a: nat, b: nat, c: nat)
    requires a <= b <= c <= |s|
    ensures s[a..b] + s[b..c] == s[a..c]
  {
  }

  /** `List.Sort` wraps what its comparison throws; the comparison reads each block's first instruction. */
  const CompareFailed: string := "Failed to compare two elements in the array."

  /** Sorting two or more blocks compares each of them, so one without instructions makes the sort throw. */
  predicate SortThrows(arena: seq<BasicBlock>) {
    |arena| >= 2 && exists k | 0 <= k < |arena| :: |arena[k].instructions| == 0
  }

  /**
   * With offsets that ascend along the script, the blocks' first offsets ascend along the
   * arena: ordering by start index, as the arena does, is the order `List.Sort` gives.
   */
  lemma SortedByOffset(instructions: seq<Instruction>, keys: seq<nat>, first: nat, last: nat, j: nat, k: nat)
    requires Keys(instructions, keys, first, last) && Ascending(instructions) && j < k < |keys|
    requires keys[k] <= last
    ensures |Span(instructions, keys, j, last)| > 0 && |Span(instructions, keys, k, last)| > 0
    ensures Span(instructions, keys, j, last)[0].offset.value < Span(instructions, keys, k, last)[0].offset.value
  {
    assert keys[j] < keys[k];
  }

  // ---------------------------------------------------------------------------------------
  // Edges

  /** Every edge names a block of the arena. */
  predicate EdgesWithin(arena: seq<BasicBlock>) {
    forall k | 0 <= k < |arena| ::
      (forall j | j in arena[k].successors :: 0 <= j < |arena|) && (forall j | j in arena[k].predecessors :: 0 <= j < |arena|)
  }

  /** Every successor edge has its predecessor edge, and the other way round. */
  predicate Symmetric(arena: seq<BasicBlock>) {
    forall k, j | 0 <= k < |arena| && 0 <= j < |arena| :: j in arena[k].successors <==> k in arena[j].predecessors
  }

  /** No edge is listed twice. */
  predicate NoDuplicates(arena: seq<BasicBlock>) {
    forall k | 0 <= k < |arena| :: Distinct(arena[k].successors) && Distinct(arena[k].predecessors)
  }

  /** The edge lists are well formed: within the arena, symmetric, without repetitions. */
  predicate WellLinked(arena: seq<BasicBlock>) {
    EdgesWithin(arena) && Symmetric(arena) && NoDuplicates(arena)
  }

  /** A block with no edges. */
  predicate Unlinked(b: BasicBlock) {
    b.successors == [] && b.predecessors == []
  }

  predicate AllInhabited(arena: seq<BasicBlock>) {
    forall k | 0 <= k < |arena| :: |arena[k].instructions| > 0
  }

  function Last(b: BasicBlock): Instruction
    requires |b.instructions| > 0
  {
    b.instructions[|b.instructions| - 1]
  }

  // ---------------------------------------------------------------------------------------
  // The link loop ("link consecutive blocks")

  /**
   * Whether the link loop lets block k fall through to block k + 1: it is not the last block,
   * not marked as an exit, and ends in neither an unconditional jump nor a switch. The loop
   * runs before any block is marked as an exit, so as written the exit test never fires;
   * with exitsKnown it is taken to see the return the block ends in.
   */
  predicate Falls(arena: seq<BasicBlock>, k: nat, exitsKnown: bool)
    requires k < |arena| && AllInhabited(arena)
  {
    k + 1 < |arena| && !arena[k].isExitBlock && !(exitsKnown && IsReturn(Last(arena[k]))) &&
    !IsUnconditionalJump(Last(arena[k])) && !IsSwitch(Last(arena[k]))
  }

  /**
   * Whether block k is reachable when the loop comes to it: it is the entry block, or the
   * block before it was reachable and linked to it. The loop skips the other blocks.
   */
  predicate Chained(arena: seq<BasicBlock>, k: nat, exitsKnown: bool)
    requires k < |arena| && AllInhabited(arena)
  {
    arena[k].isEntryBlock || (k > 0 && Chained(arena, k - 1, exitsKnown) && Falls(arena, k - 1, exitsKnown))
  }

  /** The loop adds the edge from k to k + 1. */
  predicate LinksOn(arena: seq<BasicBlock>, k: nat, exitsKnown: bool)
    requires k < |arena| && AllInhabited(arena)
  {
    Chained(arena, k, exitsKnown) && Falls(arena, k, exitsKnown)
  }

  function LinkSuccessors(arena: seq<BasicBlock>, k: nat, exitsKnown: bool): seq<BlockId>
    requires k < |arena| && AllInhabited(arena)
  {
    if LinksOn(arena, k, exitsKnown) then [k + 1] else []
  }

  function LinkPredecessors(arena: seq<BasicBlock>, k: nat, exitsKnown: bool): seq<BlockId>
    requires k < |arena| && AllInhabited(arena)
  {
    if k > 0 && LinksOn(arena, k - 1, exitsKnown) then [k - 1] else []
  }

  /** Block k after the link loop. */
  function LinkedBlock(arena: seq<BasicBlock>, k: nat, exitsKnown: bool): BasicBlock
    requires k < |arena| && AllInhabited(arena)
  {
    arena[k].(successors := LinkSuccessors(arena, k, exitsKnown), predecessors := LinkPredecessors(arena, k, exitsKnown))
  }

  /**
   * The link loop over blocks with no edges yet: the blocks from the entry block on are
   * chained to their next block until one cannot fall through; an unreachable block is skipped.
   */
  method LinkBlocks(arena: seq<BasicBlock>, exitsKnown: bool) returns (linked: seq<BasicBlock>)
    requires AllInhabited(arena) && forall k | 0 <= k < |arena| :: Unlinked(arena[k])
    ensures |linked| == |arena|
    ensures forall k | 0 <= k < |arena| :: linked[k] == LinkedBlock(arena, k, exitsKnown)
  {
    linked := arena;
    if |arena| == 0 {
      return;
    }
    var i := 0;
    while i + 1 < |arena|
      invariant i < |arena| && LinkedUpTo(arena, exitsKnown, i, linked)
    {
      var block := linked[i];
      if !IsUnreachable(block) && !block.isExitBlock && !(exitsKnown && IsReturn(Last(block))) &&
         !IsUnconditionalJump(Last(block)) && !IsSwitch(Last(block)) && i + 1 !in block.successors {
        var next := linked[i := block.(successors := block.successors + [i + 1])];
        next := next[i + 1 := next[i + 1].(predecessors := next[i + 1].predecessors + [i])];
        LinkOn(arena, exitsKnown, i, linked, next);
        linked := next;
      } else {
        LinkOff(arena, exitsKnown, i, linked);
      }
      i := i + 1;
    }
    LinkDone(arena, exitsKnown, i, linked);
  }

  /** Block j once the link loop has come to block i. */
  function LinkingBlock(arena: seq<BasicBlock>, exitsKnown: bool, i: nat, j: nat): BasicBlock
    requires j < |arena| && AllInhabited(arena)
  {
    arena[j].(successors := if j < i then LinkSuccessors(arena, j, exitsKnown) else [],
              predecessors := if j <= i then LinkPredecessors(arena, j, exitsKnown) else [])
  }

  ghost predicate LinkedUpTo(arena: seq<BasicBlock>, exitsKnown: bool, i: nat, linked: seq<BasicBlock>)
    requires AllInhabited(arena)
  {
    |linked| == |arena| && forall j | 0 <= j < |arena| :: linked[j] == LinkingBlock(arena, exitsKnown, i, j)
  }

  lemma LinkOn(arena: seq<BasicBlock>, exitsKnown: bool, i: nat, linked: seq<BasicBlock>, next: seq<BasicBlock>)
    requires AllInhabited(arena) && forall k | 0 <= k < |arena| :: Unlinked(arena[k])
    requires i + 1 < |arena| && LinkedUpTo(arena, exitsKnown, i, linked)
    requires !IsUnreachable(linked[i]) && !linked[i].isExitBlock && !(exitsKnown && IsReturn(Last(linked[i]))) &&
             !IsUnconditionalJump(Last(linked[i])) && !IsSwitch(Last(linked[i]))
    requires next == linked[i := linked[i].(successors := linked[i].successors + [i + 1])]
                           [i + 1 := linked[i + 1].(predecessors := linked[i + 1].predecessors + [i])]
    ensures LinkedUpTo(arena, exitsKnown, i + 1, next)
  {
    assert linked[i] == LinkingBlock(arena, exitsKnown, i, i);
    assert Chained(arena, i, exitsKnown) && LinksOn(arena, i, exitsKnown);
    forall j | 0 <= j < |arena|
      ensures next[j] == LinkingBlock(arena, exitsKnown, i + 1, j)
    {
      assert linked[j] == LinkingBlock(arena, exitsKnown, i, j);
    }
  }

  lemma LinkOff(arena: seq<BasicBlock>, exitsKnown: bool, i: nat, linked: seq<BasicBlock>)
    requires AllInhabited(arena) && forall k | 0 <= k < |arena| :: Unlinked(arena[k])
    requires i + 1 < |arena| && LinkedUpTo(arena, exitsKnown, i, linked)
    requires !(!IsUnreachable(linked[i]) && !linked[i].isExitBlock && !(exitsKnown && IsReturn(Last(linked[i]))) &&
               !IsUnconditionalJump(Last(linked[i])) && !IsSwitch(Last(linked[i])) && i + 1 !in linked[i].successors)
    ensures LinkedUpTo(arena, exitsKnown, i + 1, linked)
  {
    assert linked[i] == LinkingBlock(arena, exitsKnown, i, i);
    assert !LinksOn(arena, i, exitsKnown);
    forall j | 0 <= j < |arena|
      ensures linked[j] == LinkingBlock(arena, exitsKnown, i + 1, j)
    {
      assert linked[j] == LinkingBlock(arena, exitsKnown, i, j);
    }
  }

  lemma LinkDone(arena: seq<BasicBlock>, exitsKnown: bool, i: nat, linked: seq<BasicBlock>)
    requires AllInhabited(arena) && i + 1 == |arena| && LinkedUpTo(arena, exitsKnown, i, linked)
    ensures forall k | 0 <= k < |arena| :: linked[k] == LinkedBlock(arena, k, exitsKnown)
  {
    forall k | 0 <= k < |arena|
      ensures linked[k] == LinkedBlock(arena, k, exitsKnown)
    {
      assert linked[k] == LinkingBlock(arena, exitsKnown, i, k);
    }
  }

  /** The link loop leaves the edge lists well formed. */
  lemma LinkWellLinked(arena: seq<BasicBlock>, exitsKnown: bool, linked: seq<BasicBlock>)
    requires AllInhabited(arena) && |linked| == |arena|
    requires forall k | 0 <= k < |arena| :: linked[k] == LinkedBlock(arena, k, exitsKnown)
    ensures WellLinked(linked)
  {
    forall k | 0 <= k < |arena|
      ensures linked[k].successors == [] || (k + 1 < |arena| && linked[k].successors == [k + 1])
      ensures linked[k].predecessors == [] || (k > 0 && linked[k].predecessors == [k - 1])
    {
      assert linked[k] == LinkedBlock(arena, k, exitsKnown);
      LinkShape(arena, exitsKnown, k);
    }
    forall k, j | 0 <= k < |arena| && 0 <= j < |arena|
      ensures j in linked[k].successors <==> k in linked[j].predecessors
    {
      assert linked[k] == LinkedBlock(arena, k, exitsKnown);
      assert linked[j] == LinkedBlock(arena, j, exitsKnown);
      LinkEdge(arena, exitsKnown, k, j);
    }
  }

  /** The loop gives a block at most the next block as successor and at most the one before as predecessor. */
  lemma LinkShape(arena: seq<BasicBlock>, exitsKnown: bool, k: nat)
    requires AllInhabited(arena) && k < |arena|
    ensures LinkSuccessors(arena, k, exitsKnown) == [] || (k + 1 < |arena| && LinkSuccessors(arena, k, exitsKnown) == [k + 1])
    ensures LinkPredecessors(arena, k, exitsKnown) == [] || (k > 0 && LinkPredecessors(arena, k, exitsKnown) == [k - 1])
  {
  }

  /** The edge from k to j is in both lists or in neither. */
  lemma LinkEdge(arena: seq<BasicBlock>, exitsKnown: bool, k: nat, j: nat)
    requires AllInhabited(arena) && k < |arena| && j < |arena|
    ensures j in LinkSuccessors(arena, k, exitsKnown) <==> k in LinkPredecessors(arena, j, exitsKnown)
  {
    if j in LinkSuccessors(arena, k, exitsKnown) {
      assert j == k + 1;
    }
    if k in LinkPredecessors(arena, j, exitsKnown) {
      assert k == j - 1;
    }
  }

  /**
   * As written, the link loop gives a reachable block that ends in a return a successor when
   * another block follows it: `IsExitBlock` is only set later, by `AnalyzeBasicBlock`.
   */
  lemma ReturnLinkedAsWritten(arena: seq<BasicBlock>, k: nat)
    requires AllInhabited(arena) && k + 1 < |arena| && Chained(arena, k, false) && !arena[k].isExitBlock
    requires IsReturn(Last(arena[k])) && !IsUnconditionalJump(Last(arena[k])) && !IsSwitch(Last(arena[k]))
    ensures LinkedBlock(arena, k, false).successors == [k + 1]
  {
  }

  /** With exits known the loop never gives a block that ends in a return a successor. */
  lemma ReturnNotLinked(arena: seq<BasicBlock>, k: nat)
    requires AllInhabited(arena) && k < |arena| && IsReturn(Last(arena[k]))
    ensures LinkedBlock(arena, k, true).successors == []
  {
  }

  // ---------------------------------------------------------------------------------------
  // `AnalyzeBasicBlock`: exits, successors from the last instruction, resolved targets

  /** The `Blocks` list of the pass: every block of the arena, in arena order. */
  function Identity(n: nat): (r: seq<BlockId>)
    ensures |r| == n && forall k | 0 <= k < n :: r[k] == k
  {
    seq(n, k requires 0 <= k < n => k)
  }

  /** The lookups of a list of offsets, in order; the first that fails is the error. */
  function Lookups(f: Function, offsets: seq<UInt32>): (r: Result<seq<BlockId>>)
    ensures r.Ok? <==> forall i | 0 <= i < |offsets| :: BasicBlockFromOffset(f, offsets[i]).Ok?
    ensures r.Ok? ==> |r.value| == |offsets| && forall i | 0 <= i < |offsets| :: BasicBlockFromOffset(f, offsets[i]) == Ok(r.value[i])
  {
    if |offsets| == 0 then Ok([])
    else
      match Lookups(f, offsets[..|offsets| - 1])
      case Err(e) => Err(e)
      case Ok(ts) =>
        match BasicBlockFromOffset(f, offsets[|offsets| - 1])
        case Err(e) => Err(e)
        case Ok(t) => Ok(ts + [t])
  }

  /** Block k ends in a return. */
  predicate EndsInReturn(f: Function, k: nat)
    requires k < |f.arena| && AllInhabited(f.arena)
  {
    IsReturn(Last(f.arena[k]))
  }

  /**
   * The blocks `AnalyzeBasicBlock` links block k to: none after a return, else the blocks
   * found, in order, at the offsets control can go to from its last instruction.
   */
  function TargetsOf(f: Function, k: nat): Result<seq<BlockId>>
    requires k < |f.arena| && AllInhabited(f.arena)
  {
    if EndsInReturn(f, k) then Ok([])
    else
      match NextOffsets(Last(f.arena[k]))
      case Err(e) => Err(e)
      case Ok(offsets) => Lookups(f, offsets)
  }

  /** Every block's targets can be found. */
  predicate AllTargetsFound(f: Function)
    requires AllInhabited(f.arena)
  {
    forall k | 0 <= k < |f.arena| :: TargetsOf(f, k).Ok?
  }

  /** The targets of every block, once they can be found. */
  function Plan(f: Function): (plan: seq<seq<BlockId>>)
    requires AllInhabited(f.arena) && AllTargetsFound(f)
    ensures |plan| == |f.arena| && forall k | 0 <= k < |f.arena| :: TargetsOf(f, k) == Ok(plan[k])
  {
    seq(|f.arena|, k requires 0 <= k < |f.arena| => TargetsOf(f, k).value)
  }

  /** The targets of the blocks before |plan| are the plan. */
  ghost predicate Planned(f: Function, plan: seq<seq<BlockId>>)
    requires AllInhabited(f.arena)
  {
    |plan| <= |f.arena| && forall k | 0 <= k < |plan| :: TargetsOf(f, k) == Ok(plan[k])
  }

  /** `Successors.Contains` before each `Add`: the new blocks are appended in order, each once. */
  function AppendNew(s: seq<BlockId>, ts: seq<BlockId>): (r: seq<BlockId>)
    ensures forall x :: x in r <==> x in s || x in ts
    ensures |r| >= |s| && r[..|s|] == s
    ensures Distinct(s) ==> Distinct(r)
  {
    if |ts| == 0 then s
    else
      var u := AppendNew(s, ts[..|ts| - 1]);
      assert forall x :: x in ts <==> x in ts[..|ts| - 1] || x == ts[|ts| - 1];
      if ts[|ts| - 1] in u then u else u + [ts[|ts| - 1]]
  }

  /** Block k's analysis adds the edge from k to j: j is a target the link loop had not added. */
  predicate Gains(f: Function, plan: seq<seq<BlockId>>, k: nat, j: nat)
    requires k < |plan| <= |f.arena|
  {
    j in plan[k] && j !in f.arena[k].successors
  }

  /** The blocks before m whose analysis makes them predecessors of j, in block order. */
  function PredecessorsFrom(f: Function, plan: seq<seq<BlockId>>, j: nat, m: nat): seq<BlockId>
    requires m <= |plan| <= |f.arena|
  {
    if m == 0 then [] else PredecessorsFrom(f, plan, j, m - 1) + (if Gains(f, plan, m - 1, j) then [m - 1] else [])
  }

  /**
   * A block's last instruction once analysed with targets ts: a jump refers to the block at its
   * destination, the first target, and drops its displacement; a switch refers to the blocks
   * of its cases and drops their displacements.
   */
  function Resolved(l: Instruction, ts: seq<BlockId>): Instruction {
    if IsReturn(l) then l
    else if IsJump(l) then l.(jumpTarget := if |ts| > 0 then Some(ts[0]) else None, jumpOffset := None)
    else if IsSwitch(l) then l.(switchTargets := Some(ts), switchOffsets := None)
    else l
  }

  /** The blocks before m that end in a return, in block order. */
  function ExitsBefore(f: Function, m: nat): seq<BlockId>
    requires m <= |f.arena| && AllInhabited(f.arena)
  {
    if m == 0 then [] else ExitsBefore(f, m - 1) + (if EndsInReturn(f, m - 1) then [m - 1] else [])
  }

  /** Block j once the blocks before |plan| have been analysed with the targets the plan gives them. */
  function PartialBlock(f: Function, plan: seq<seq<BlockId>>, j: nat): BasicBlock
    requires |plan| <= |f.arena| && j < |f.arena| && AllInhabited(f.arena)
  {
    var b := f.arena[j];
    var ins := b.instructions;
    var analysed :=
      if j < |plan| then
        b.(isExitBlock := if IsReturn(Last(b)) then true else b.isExitBlock,
           successors := AppendNew(b.successors, plan[j]),
           instructions := ins[..|ins| - 1] + [Resolved(Last(b), plan[j])])
      else b;
    analysed.(predecessors := b.predecessors + PredecessorsFrom(f, plan, j, |plan|))
  }

  /** The function once the blocks before |plan| have been analysed. */
  ghost predicate AnalysedUpTo(f: Function, plan: seq<seq<BlockId>>, g: Function)
    requires |plan| <= |f.arena| && AllInhabited(f.arena) && f.exitBlocks.Some?
  {
    g == f.(exitBlocks := Some(f.exitBlocks.value + ExitsBefore(f, |plan|)), arena := g.arena) &&
    |g.arena| == |f.arena| && forall j | 0 <= j < |f.arena| :: g.arena[j] == PartialBlock(f, plan, j)
  }

  /** The lookups of the pass see the same blocks while the analysis changes edges and last instructions. */
  predicate SameStarts(a: seq<BasicBlock>, b: seq<BasicBlock>) {
    |a| == |b| &&
    forall k | 0 <= k < |a| :: |a[k].instructions| == |b[k].instructions| &&
      (|a[k].instructions| > 0 ==> a[k].instructions[0].offset == b[k].instructions[0].offset)
  }

  lemma {:induction false} FindBlockSame(a: seq<BasicBlock>, b: seq<BasicBlock>, order: seq<BlockId>, offset: UInt32, k: nat)
    requires SameStarts(a, b) && k <= |order|
    ensures FindBlock(a, order, offset, k) == FindBlock(b, order, offset, k)
    decreases |order| - k
  {
    if k < |order| {
      FindBlockSame(a, b, order, offset, k + 1);
    }
  }

  /** So the lookups give what they gave before the analysis began. */
  lemma LookupSame(f: Function, g: Function, offset: UInt32)
    requires SameStarts(f.arena, g.arena) && f.blocks == g.blocks
    ensures BasicBlockFromOffset(g, offset) == BasicBlockFromOffset(f, offset)
  {
    if f.blocks.Some? {
      FindBlockSame(f.arena, g.arena, f.blocks.value, offset, 0);
    }
  }

  /** Block by block, analysis keeps the number of instructions and the first offset. */
  lemma PartialBlockStarts(f: Function, plan: seq<seq<BlockId>>, j: nat)
    requires |plan| <= |f.arena| && j < |f.arena| && AllInhabited(f.arena)
    ensures |PartialBlock(f, plan, j).instructions| == |f.arena[j].instructions|
    ensures PartialBlock(f, plan, j).instructions[0].offset == f.arena[j].instructions[0].offset
    ensures j >= |plan| ==> PartialBlock(f, plan, j).instructions == f.arena[j].instructions
    ensures j >= |plan| ==> PartialBlock(f, plan, j).successors == f.arena[j].successors
  {
    var ins := f.arena[j].instructions;
    if j < |plan| {
      var ins' := ins[..|ins| - 1] + [Resolved(Last(f.arena[j]), plan[j])];
      assert ins'[0].offset == ins[0].offset;
    }
  }

  /**
   * A block of which only the edges changed, and at most the last instruction, has the same
   * instructions and first offset; while block k is linking, its instructions are untouched.
   */
  lemma AnalysedSameStarts(f: Function, plan: seq<seq<BlockId>>, g: Function)
    requires |plan| <= |f.arena| && AllInhabited(f.arena) && f.exitBlocks.Some?
    requires AnalysedUpTo(f, plan, g)
    ensures SameStarts(f.arena, g.arena) && AllInhabited(g.arena) && g.blocks == f.blocks
  {
    forall j | 0 <= j < |f.arena|
      ensures |f.arena[j].instructions| == |g.arena[j].instructions| > 0
      ensures f.arena[j].instructions[0].offset == g.arena[j].instructions[0].offset
    {
      PartialBlockStarts(f, plan, j);
    }
  }

  lemma AnalysedStart(f: Function)
    requires AllInhabited(f.arena) && f.exitBlocks.Some?
    ensures AnalysedUpTo(f, [], f)
  {
    assert f.exitBlocks.value + [] == f.exitBlocks.value;
    forall j | 0 <= j < |f.arena| ensures f.arena[j] == PartialBlock(f, [], j) {
      assert f.arena[j].predecessors + [] == f.arena[j].predecessors;
    }
  }

  /**
   * Block j, as p, once block k has linked to the targets ts on top of the successors base it
   * had: k's successors are base with the new targets appended, and each new target lists k.
   */
  function AddEdges(p: BasicBlock, j: nat, k: nat, base: seq<BlockId>, ts: seq<BlockId>): BasicBlock {
    p.(successors := if j == k then AppendNew(base, ts) else p.successors,
       predecessors := p.predecessors + (if j in ts && j !in base then [k] else []))
  }

  /** The function while block |plan| links to the targets ts it has looked up so far. */
  ghost predicate Linking(f: Function, plan: seq<seq<BlockId>>, ts: seq<BlockId>, g: Function)
    requires |plan| < |f.arena| && AllInhabited(f.arena) && f.exitBlocks.Some?
  {
    g == f.(exitBlocks := Some(f.exitBlocks.value + ExitsBefore(f, |plan|)), arena := g.arena) &&
    |g.arena| == |f.arena| &&
    forall j | 0 <= j < |f.arena| :: g.arena[j] == AddEdges(PartialBlock(f, plan, j), j, |plan|, f.arena[|plan|].successors, ts)
  }

  lemma LinkingStart(f: Function, plan: seq<seq<BlockId>>, g: Function)
    requires |plan| < |f.arena| && AllInhabited(f.arena) && f.exitBlocks.Some?
    requires AnalysedUpTo(f, plan, g)
    ensures Linking(f, plan, [], g)
  {
    var k := |plan|;
    forall j | 0 <= j < |f.arena| ensures g.arena[j] == AddEdges(PartialBlock(f, plan, j), j, k, f.arena[k].successors, []) {
      PartialBlockStarts(f, plan, j);
      assert PartialBlock(f, plan, j).predecessors + [] == PartialBlock(f, plan, j).predecessors;
    }
  }

  lemma LinkingSameStarts(f: Function, plan: seq<seq<BlockId>>, ts: seq<BlockId>, g: Function)
    requires |plan| < |f.arena| && AllInhabited(f.arena) && f.exitBlocks.Some?
    requires Linking(f, plan, ts, g)
    ensures SameStarts(f.arena, g.arena) && AllInhabited(g.arena) && g.blocks == f.blocks
    ensures g.arena[|plan|].instructions == f.arena[|plan|].instructions
    ensures g.arena[|plan|].successors == AppendNew(f.arena[|plan|].successors, ts)
  {
    forall j | 0 <= j < |f.arena|
      ensures |f.arena[j].instructions| == |g.arena[j].instructions| > 0
      ensures f.arena[j].instructions[0].offset == g.arena[j].instructions[0].offset
    {
      PartialBlockStarts(f, plan, j);
    }
    PartialBlockStarts(f, plan, |plan|);
  }

  /** A new target t, block by block: k gains t as a successor, then t gains k as a predecessor. */
  lemma AddEdgesNew(p: BasicBlock, j: nat, k: nat, base: seq<BlockId>, ts: seq<BlockId>, t: BlockId)
    requires t !in AppendNew(base, ts)
    ensures
      var a := AddEdges(p, j, k, base, ts);
      var a1 := if j == k then a.(successors := a.successors + [t]) else a;
      AddEdges(p, j, k, base, ts + [t]) == if j == t then a1.(predecessors := a1.predecessors + [k]) else a1
  {
    assert (ts + [t])[..|ts|] == ts;
    assert AppendNew(base, ts + [t]) == AppendNew(base, ts) + [t];
    assert t !in ts && t !in base;
    var gained := j in ts && j !in base;
    assert (j in ts + [t] && j !in base) == (gained || j == t);
    if j == t {
      assert !gained;
      assert p.predecessors + [] == p.predecessors;
    }
  }

  /** A target already linked, block by block: nothing changes. */
  lemma AddEdgesOld(p: BasicBlock, j: nat, k: nat, base: seq<BlockId>, ts: seq<BlockId>, t: BlockId)
    requires t in AppendNew(base, ts)
    ensures AddEdges(p, j, k, base, ts + [t]) == AddEdges(p, j, k, base, ts)
  {
    assert (ts + [t])[..|ts|] == ts;
    assert (j in ts + [t]) == (j in ts || j == t);
    assert (j in ts + [t] && j !in base) == (j in ts && j !in base);
  }

  /** A target block k already links to adds nothing. */
  lemma LinkingSkip(f: Function, plan: seq<seq<BlockId>>, ts: seq<BlockId>, g: Function, t: BlockId)
    requires |plan| < |f.arena| && AllInhabited(f.arena) && f.exitBlocks.Some?
    requires Linking(f, plan, ts, g) && t in g.arena[|plan|].successors
    ensures Linking(f, plan, ts + [t], g)
  {
    var k := |plan|;
    LinkingSameStarts(f, plan, ts, g);
    forall j | 0 <= j < |f.arena| ensures g.arena[j] == AddEdges(PartialBlock(f, plan, j), j, k, f.arena[k].successors, ts + [t]) {
      AddEdgesOld(PartialBlock(f, plan, j), j, k, f.arena[k].successors, ts, t);
    }
  }

  /** A new target: k gains it as a successor, then it gains k as a predecessor. */
  lemma LinkingAdd(f: Function, plan: seq<seq<BlockId>>, ts: seq<BlockId>, g: Function, t: BlockId)
    requires |plan| < |f.arena| && AllInhabited(f.arena) && f.exitBlocks.Some?
    requires Linking(f, plan, ts, g) && t < |f.arena| && t !in g.arena[|plan|].successors
    ensures
      var k := |plan|;
      var g1 := g.(arena := g.arena[k := g.arena[k].(successors := g.arena[k].successors + [t])]);
      Linking(f, plan, ts + [t], g1.(arena := g1.arena[t := g1.arena[t].(predecessors := g1.arena[t].predecessors + [k])]))
  {
    var k := |plan|;
    LinkingSameStarts(f, plan, ts, g);
    var g1 := g.(arena := g.arena[k := g.arena[k].(successors := g.arena[k].successors + [t])]);
    var g2 := g1.(arena := g1.arena[t := g1.arena[t].(predecessors := g1.arena[t].predecessors + [k])]);
    forall j | 0 <= j < |f.arena| ensures g2.arena[j] == AddEdges(PartialBlock(f, plan, j), j, k, f.arena[k].successors, ts + [t]) {
      AddEdgesNew(PartialBlock(f, plan, j), j, k, f.arena[k].successors, ts, t);
    }
  }

  /** Block by block: once block k has linked to its targets ts and its last instruction is resolved, it is analysed. */
  lemma AddEdgesDone(f: Function, plan: seq<seq<BlockId>>, ts: seq<BlockId>, j: nat)
    requires |plan| < |f.arena| && j < |f.arena| && AllInhabited(f.arena)
    ensures
      var k := |plan|;
      var a := AddEdges(PartialBlock(f, plan, j), j, k, f.arena[k].successors, ts);
      var ins := a.instructions;
      (if j == k then a.(isExitBlock := if IsReturn(Last(f.arena[k])) then true else a.isExitBlock,
                         instructions := ins[..|ins| - 1] + [Resolved(Last(f.arena[k]), ts)]) else a)
        == PartialBlock(f, plan + [ts], j)
  {
    var k := |plan|;
    var plan' := plan + [ts];
    var b := f.arena[j];
    AddEdgesPredecessors(f, plan, ts, j);
    var a := AddEdges(PartialBlock(f, plan, j), j, k, f.arena[k].successors, ts);
    var p := PartialBlock(f, plan', j);
    assert a.predecessors == p.predecessors;
    if j < k {
      assert plan'[j] == plan[j];
      assert a.successors == p.successors && a.instructions == p.instructions && a.isExitBlock == p.isExitBlock;
    } else if j == k {
      assert a.successors == p.successors;
      assert a.instructions == b.instructions;
    } else {
      assert a.successors == b.successors == p.successors;
    }
  }

  /** Block j's predecessors once block k is done: those before, then k when k gained j. */
  lemma AddEdgesPredecessors(f: Function, plan: seq<seq<BlockId>>, ts: seq<BlockId>, j: nat)
    requires |plan| < |f.arena|
    ensures
      var k := |plan|;
      PredecessorsFrom(f, plan + [ts], j, k + 1) ==
      PredecessorsFrom(f, plan, j, k) + (if j in ts && j !in f.arena[k].successors then [k] else [])
  {
    var k := |plan|;
    var plan' := plan + [ts];
    assert plan'[..k] == plan;
    PredecessorsPrefix(f, plan, plan', j, k);
    assert Gains(f, plan', k, j) == (j in ts && j !in f.arena[k].successors);
  }

  /** Gains, and so the predecessors from the blocks before m, depend only on the plan before m. */
  lemma {:induction false} PredecessorsPrefix(f: Function, plan: seq<seq<BlockId>>, plan': seq<seq<BlockId>>, j: nat, m: nat)
    requires m <= |plan| <= |plan'| <= |f.arena| && plan'[..|plan|] == plan
    ensures PredecessorsFrom(f, plan', j, m) == PredecessorsFrom(f, plan, j, m)
  {
    if m > 0 {
      PredecessorsPrefix(f, plan, plan', j, m - 1);
      assert plan'[m - 1] == plan[m - 1];
    }
  }

  /** The blocks, once block k has linked to all its targets and its last instruction is resolved. */
  lemma LinkingDoneBlocks(f: Function, plan: seq<seq<BlockId>>, ts: seq<BlockId>, g: Function, arena: seq<BasicBlock>)
    requires |plan| < |f.arena| && AllInhabited(f.arena) && f.exitBlocks.Some?
    requires !EndsInReturn(f, |plan|) && Linking(f, plan, ts, g)
    requires
      var k := |plan|;
      var ins := g.arena[k].instructions;
      arena == g.arena[k := g.arena[k].(instructions := ins[..|ins| - 1] + [Resolved(Last(f.arena[k]), ts)])]
    ensures |arena| == |f.arena| && forall j | 0 <= j < |f.arena| :: arena[j] == PartialBlock(f, plan + [ts], j)
  {
    var k := |plan|;
    LinkingSameStarts(f, plan, ts, g);
    var ins := g.arena[k].instructions;
    forall j | 0 <= j < |f.arena| ensures arena[j] == PartialBlock(f, plan + [ts], j) {
      AddEdgesDone(f, plan, ts, j);
      if j == k {
        var a := g.arena[k];
        assert a.(isExitBlock := a.isExitBlock, instructions := ins[..|ins| - 1] + [Resolved(Last(f.arena[k]), ts)]) == arena[j];
      }
    }
  }

  /** Once block k has linked to all its targets and its last instruction is resolved, block k is analysed. */
  lemma LinkingDone(f: Function, plan: seq<seq<BlockId>>, ts: seq<BlockId>, g: Function)
    requires |plan| < |f.arena| && AllInhabited(f.arena) && f.exitBlocks.Some?
    requires !EndsInReturn(f, |plan|) && Linking(f, plan, ts, g)
    ensures
      var k := |plan|;
      var ins := g.arena[k].instructions;
      AnalysedUpTo(f, plan + [ts], g.(arena := g.arena[k := g.arena[k].(instructions := ins[..|ins| - 1] + [Resolved(Last(f.arena[k]), ts)])]))
  {
    var k := |plan|;
    var ins := g.arena[k].instructions;
    var arena := g.arena[k := g.arena[k].(instructions := ins[..|ins| - 1] + [Resolved(Last(f.arena[k]), ts)])];
    LinkingDoneBlocks(f, plan, ts, g, arena);
    assert ExitsBefore(f, k + 1) == ExitsBefore(f, k);
    assert |plan + [ts]| == k + 1;
  }

  /** A block that ends in a return becomes an exit and gains no edges. */
  lemma ReturnAnalysed(f: Function, plan: seq<seq<BlockId>>, g: Function)
    requires |plan| < |f.arena| && AllInhabited(f.arena) && f.exitBlocks.Some?
    requires AnalysedUpTo(f, plan, g) && EndsInReturn(f, |plan|)
    ensures
      var k := |plan|;
      AnalysedUpTo(f, plan + [[]], g.(exitBlocks := Some(g.exitBlocks.value + [k]), arena := g.arena[k := g.arena[k].(isExitBlock := true)]))
  {
    var k := |plan|;
    LinkingStart(f, plan, g);
    var g' := g.(exitBlocks := Some(g.exitBlocks.value + [k]), arena := g.arena[k := g.arena[k].(isExitBlock := true)]);
    var ins := f.arena[k].instructions;
    assert ins[..|ins| - 1] + [ins[|ins| - 1]] == ins;
    assert f.exitBlocks.value + ExitsBefore(f, k + 1) == f.exitBlocks.value + ExitsBefore(f, k) + [k];
    forall j | 0 <= j < |f.arena| ensures g'.arena[j] == PartialBlock(f, plan + [[]], j) {
      AddEdgesDone(f, plan, [], j);
      PartialBlockStarts(f, plan, j);
    }
  }

  /** Some lookup fails, so the list of lookups does. */
  lemma LookupsFail(f: Function, offsets: seq<UInt32>, i: nat)
    requires i < |offsets| && BasicBlockFromOffset(f, offsets[i]).Err?
    ensures Lookups(f, offsets).Err?
  {
  }

  lemma LookupsStep(f: Function, offsets: seq<UInt32>, i: nat, ts: seq<BlockId>, t: BlockId)
    requires i < |offsets| && Lookups(f, offsets[..i]) == Ok(ts) && BasicBlockFromOffset(f, offsets[i]) == Ok(t)
    ensures Lookups(f, offsets[..i + 1]) == Ok(ts + [t])
  {
    assert offsets[..i + 1][..i] == offsets[..i];
  }

  /**
   * The `foreach` of `AnalyzeBasicBlock` over the offsets control can go to from block k: each is
   * looked up, and a block not yet among k's successors is added to them, with k added to its
   * predecessors. It fails at the first offset at which no block starts.
   */
  method LinkTargets(ghost f: Function, ghost plan: seq<seq<BlockId>>, g0: Function, k: nat, offsets: seq<UInt32>)
    returns (r: Result<Function>, ghost ts: seq<BlockId>)
    requires k == |plan| < |f.arena| && AllInhabited(f.arena) && f.exitBlocks.Some?
    requires Linking(f, plan, [], g0)
    ensures r.Ok? <==> Lookups(f, offsets).Ok?
    ensures r.Ok? ==> Lookups(f, offsets) == Ok(ts) && Linking(f, plan, ts, r.value)
  {
    var g := g0;
    ts := [];
    var i := 0;
    while i < |offsets|
      invariant i <= |offsets| && Lookups(f, offsets[..i]) == Ok(ts) && Linking(f, plan, ts, g)
    {
      LinkingSameStarts(f, plan, ts, g);
      LookupSame(f, g, offsets[i]);
      var found := BasicBlockFromOffset(g, offsets[i]);
      if found.Err? {
        LookupsFail(f, offsets, i);
        return Err(found.error), ts;
      }
      var t := found.value;
      LookupsStep(f, offsets, i, ts, t);
      if t !in g.arena[k].successors {
        LinkingAdd(f, plan, ts, g, t);
        g := g.(arena := g.arena[k := g.arena[k].(successors := g.arena[k].successors + [t])]);
        g := g.(arena := g.arena[t := g.arena[t].(predecessors := g.arena[t].predecessors + [k])]);
      } else {
        LinkingSkip(f, plan, ts, g, t);
      }
      ts := ts + [t];
      i := i + 1;
    }
    assert offsets[..i] == offsets;
    return Ok(g), ts;
  }

  /**
   * The end of `AnalyzeBasicBlock`: a jump looks up the block at its destination and drops its
   * displacement; a switch looks up the block of each case, at offset + 2 + 2 + 4(i + 1) +
   * case i, and drops the displacements. Those are the lookups the link loop already made.
   */
  method ResolveLast(ghost f: Function, g: Function, last: Instruction, ghost offsets: seq<UInt32>, ghost ts: seq<BlockId>)
    returns (resolved: Instruction)
    requires SameStarts(f.arena, g.arena) && g.blocks == f.blocks && !IsReturn(last)
    requires NextOffsets(last) == Ok(offsets) && Lookups(f, offsets) == Ok(ts)
    ensures resolved == Resolved(last, ts)
  {
    resolved := last;
    if IsJump(last) {
      assert offsets[0] == JumpDestination(last);
      JumpFound(f, g, last, offsets, ts);
      var found := BasicBlockFromOffset(g, Low32(last.offset.value + last.size.value + last.jumpOffset.value));
      resolved := last.(jumpTarget := Some(found.value), jumpOffset := None);
    } else if IsSwitch(last) {
      NextOffsetsSwitch(last);
      CasesFoundAgain(f, g, last, offsets, ts);
      var targets := ResolveCases(g, last, ts);
      resolved := last.(switchTargets := Some(targets), switchOffsets := None);
    }
  }

  /** Case c of the switch `last` continues at the block ts[c]. */
  ghost predicate CasesFound(g: Function, last: Instruction, ts: seq<BlockId>) {
    last.switchOffsets.Some? && |ts| == |last.switchOffsets.value| &&
    (|ts| > 0 ==> last.offset.Some?) &&
    forall c | 0 <= c < |ts| ::
      BasicBlockFromOffset(g, Low32(last.offset.value + 2 + 2 + 4 * (c + 1) + last.switchOffsets.value[c])) == Ok(ts[c])
  }

  /** The loop over a switch's cases that looks up the block of each. */
  method ResolveCases(g: Function, last: Instruction, ghost ts: seq<BlockId>) returns (targets: seq<BlockId>)
    requires CasesFound(g, last, ts)
    ensures targets == ts
  {
    var cases := last.switchOffsets.value;
    targets := [];
    var c := 0;
    while c < |cases|
      invariant c <= |cases| && targets == ts[..c]
    {
      var found := BasicBlockFromOffset(g, Low32(last.offset.value + 2 + 2 + 4 * (c + 1) + cases[c]));
      targets := targets + [found.value];
      c := c + 1;
    }
    assert ts[..c] == ts;
  }

  /** The lookups of the link loop are those of the case loop. */
  lemma CasesFoundAgain(f: Function, g: Function, last: Instruction, offsets: seq<UInt32>, ts: seq<BlockId>)
    requires SameStarts(f.arena, g.arena) && g.blocks == f.blocks && !IsReturn(last) && !IsJump(last) && IsSwitch(last)
    requires NextOffsets(last) == Ok(offsets) && Lookups(f, offsets) == Ok(ts) && last.switchOffsets.Some?
    ensures CasesFound(g, last, ts)
  {
    CaseCount(last, offsets, ts, f);
    forall c | 0 <= c < |ts|
      ensures BasicBlockFromOffset(g, Low32(last.offset.value + 2 + 2 + 4 * (c + 1) + last.switchOffsets.value[c])) == Ok(ts[c])
    {
      CaseOffset(last, offsets, c);
      TargetFound(f, g, offsets, ts, c);
    }
  }

  /** A switch that is not a jump has as many targets as cases. */
  lemma CaseCount(last: Instruction, offsets: seq<UInt32>, ts: seq<BlockId>, f: Function)
    requires !IsReturn(last) && !IsJump(last) && IsSwitch(last) && last.switchOffsets.Some?
    requires NextOffsets(last) == Ok(offsets) && Lookups(f, offsets) == Ok(ts)
    ensures |ts| == |last.switchOffsets.value| && (|ts| > 0 ==> last.offset.Some?)
  {
    NextOffsetsSwitch(last);
    assert |offsets| == |last.switchOffsets.value|;
  }

  /** The block a jump resolves to is the first target. */
  lemma JumpFound(f: Function, g: Function, last: Instruction, offsets: seq<UInt32>, ts: seq<BlockId>)
    requires SameStarts(f.arena, g.arena) && g.blocks == f.blocks
    requires last.offset.Some? && last.size.Some? && last.jumpOffset.Some? && |offsets| > 0 && offsets[0] == JumpDestination(last)
    requires Lookups(f, offsets) == Ok(ts)
    ensures |ts| > 0 && BasicBlockFromOffset(g, Low32(last.offset.value + last.size.value + last.jumpOffset.value)) == Ok(ts[0])
  {
    TargetFound(f, g, offsets, ts, 0);
  }

  /** Case c of a switch continues at the offset the resolution loop computes for it. */
  lemma CaseOffset(last: Instruction, offsets: seq<UInt32>, c: nat)
    requires !IsReturn(last) && !IsJump(last) && IsSwitch(last) && NextOffsets(last) == Ok(offsets)
    requires last.switchOffsets.Some? && c < |last.switchOffsets.value|
    ensures last.offset.Some? && c < |offsets|
    ensures offsets[c] == Low32(last.offset.value + 2 + 2 + 4 * (c + 1) + last.switchOffsets.value[c])
  {
    NextOffsetsSwitch(last);
    CaseArithmetic(last.offset.value, c, last.switchOffsets.value[c]);
  }

  lemma CaseArithmetic(offset: int, c: int, displacement: int)
    ensures offset + 2 + 2 + 4 * (c + 1) + displacement == offset + 4 + 4 * c + 4 + displacement
  {
  }

  /** The block at an offset of the list is the target at the same place. */
  lemma TargetFound(f: Function, g: Function, offsets: seq<UInt32>, ts: seq<BlockId>, c: nat)
    requires SameStarts(f.arena, g.arena) && g.blocks == f.blocks
    requires Lookups(f, offsets) == Ok(ts) && c < |offsets|
    ensures c < |ts| && BasicBlockFromOffset(g, offsets[c]) == Ok(ts[c])
  {
    LookupSame(f, g, offsets[c]);
  }

  /**
   * `AnalyzeBasicBlock` on block k, the first the plan has not reached: a block ending in a
   * return becomes an exit; any other block gains, in order and each once, the blocks at the
   * offsets its last instruction can continue at, and gains each of them as a predecessor, and
   * its jump or switch then refers to those blocks instead of displacements. It fails when an
   * offset cannot be read or no block starts at one.
   */
  method AnalyzeBasicBlock(ghost f: Function, ghost plan: seq<seq<BlockId>>, g: Function, k: nat)
    returns (r: Result<Function>, ghost ts: seq<BlockId>)
    requires k == |plan| < |f.arena| && AllInhabited(f.arena) && f.exitBlocks.Some?
    requires AnalysedUpTo(f, plan, g)
    ensures r.Ok? <==> TargetsOf(f, k).Ok?
    ensures r.Ok? ==> TargetsOf(f, k) == Ok(ts) && AnalysedUpTo(f, plan + [ts], r.value)
  {
    AnalysedSameStarts(f, plan, g);
    PartialBlockStarts(f, plan, k);
    var block := g.arena[k];
    var last := block.instructions[|block.instructions| - 1];
    if IsReturn(last) {
      ReturnAnalysed(f, plan, g);
      r := Ok(g.(exitBlocks := Some(g.exitBlocks.value + [k]), arena := g.arena[k := block.(isExitBlock := true)]));
      ts := [];
      return;
    }
    var next := NextOffsets(last);
    if next.Err? {
      return Err(next.error), [];
    }
    LinkingStart(f, plan, g);
    var linked;
    linked, ts := LinkTargets(f, plan, g, k, next.value);
    if linked.Err? {
      return linked, ts;
    }
    var h := linked.value;
    LinkingSameStarts(f, plan, ts, h);
    var resolved := ResolveLast(f, h, last, next.value, ts);
    LinkingDone(f, plan, ts, h);
    var ins := h.arena[k].instructions;
    r := Ok(h.(arena := h.arena[k := h.arena[k].(instructions := ins[..|ins| - 1] + [resolved])]));
  }

  /**
   * The loop of `AnalyzeFunction` that analyses every block in block order. It fails exactly
   * when some block's targets cannot be found, and otherwise yields every block analysed
   * against the targets of the original function.
   */
  method AnalyzeBlocks(f: Function) returns (r: Result<Function>)
    requires AllInhabited(f.arena) && f.exitBlocks.Some?
    ensures r.Ok? <==> AllTargetsFound(f)
    ensures r.Ok? ==> AnalysedUpTo(f, Plan(f), r.value)
  {
    AnalysedStart(f);
    var g := f;
    ghost var plan: seq<seq<BlockId>> := [];
    var k := 0;
    while k < |f.arena|
      invariant k == |plan| <= |f.arena| && Planned(f, plan) && AnalysedUpTo(f, plan, g)
    {
      var step, ts := AnalyzeBasicBlock(f, plan, g, k);
      if step.Err? {
        return Err(step.error);
      }
      g := step.value;
      plan := plan + [ts];
      k := k + 1;
    }
    assert plan == Plan(f);
    return Ok(g);
  }

  // Properties of the analysed function

  /** The targets of a block are blocks of the function, starting at the offsets its last instruction continues at. */
  lemma TargetsStart(f: Function, k: nat)
    requires k < |f.arena| && AllInhabited(f.arena) && TargetsOf(f, k).Ok? && !EndsInReturn(f, k)
    ensures NextOffsets(Last(f.arena[k])).Ok?
    ensures
      var ts := TargetsOf(f, k).value;
      var offsets := NextOffsets(Last(f.arena[k])).value;
      |ts| == |offsets| &&
      forall i | 0 <= i < |ts| :: ts[i] < |f.arena| && f.arena[ts[i]].instructions[0].offset == Some(offsets[i])
  {
  }

  lemma TargetWithin(f: Function, k: nat, t: BlockId)
    requires k < |f.arena| && AllInhabited(f.arena) && TargetsOf(f, k).Ok? && t in TargetsOf(f, k).value
    ensures t < |f.arena|
  {
    if !EndsInReturn(f, k) {
      TargetsStart(f, k);
      var i :| 0 <= i < |TargetsOf(f, k).value| && TargetsOf(f, k).value[i] == t;
    }
  }

  /** The analysis of the blocks before m makes k a predecessor of j, once, exactly when k gains the edge to j. */
  lemma {:induction false} PredecessorsFromSpec(f: Function, plan: seq<seq<BlockId>>, j: nat, m: nat)
    requires m <= |plan| <= |f.arena|
    ensures forall x: nat :: x in PredecessorsFrom(f, plan, j, m) <==> x < m && Gains(f, plan, x, j)
    ensures Distinct(PredecessorsFrom(f, plan, j, m))
  {
    if m > 0 {
      PredecessorsFromSpec(f, plan, j, m - 1);
      var s := PredecessorsFrom(f, plan, j, m - 1);
      if Gains(f, plan, m - 1, j) {
        assert m - 1 !in s;
        assert PredecessorsFrom(f, plan, j, m) == s + [m - 1];
        DistinctJoin(s, [m - 1]);
      } else {
        assert PredecessorsFrom(f, plan, j, m) == s;
      }
    }
  }

  /** The blocks in ExitsBefore(f, m) are those before m that end in a return. */
  lemma {:induction false} ExitsBeforeSpec(f: Function, m: nat)
    requires m <= |f.arena| && AllInhabited(f.arena)
    ensures forall k: nat :: k in ExitsBefore(f, m) <==> k < m && EndsInReturn(f, k)
  {
    if m > 0 {
      ExitsBeforeSpec(f, m - 1);
    }
  }

  /**
   * Once every block is analysed, a block ending in a return is an exit block, is listed among
   * the exit blocks, and gained no edge; every other block gained its targets as successors.
   */
  lemma AnalysedExits(f: Function, g: Function, k: nat)
    requires AllInhabited(f.arena) && f.exitBlocks.Some? && AllTargetsFound(f) && k < |f.arena|
    requires AnalysedUpTo(f, Plan(f), g)
    ensures EndsInReturn(f, k) ==>
      g.arena[k].isExitBlock && g.arena[k].successors == f.arena[k].successors && k in g.exitBlocks.value
    ensures !EndsInReturn(f, k) ==> g.arena[k].isExitBlock == f.arena[k].isExitBlock
    ensures forall t | t in TargetsOf(f, k).value :: t in g.arena[k].successors
  {
    ExitsBeforeSpec(f, |f.arena|);
    assert g.arena[k] == PartialBlock(f, Plan(f), k);
  }

  /** The analysis keeps the edge lists well formed. */
  lemma AnalysedWellLinked(f: Function, g: Function)
    requires AllInhabited(f.arena) && f.exitBlocks.Some? && AllTargetsFound(f) && WellLinked(f.arena)
    requires AnalysedUpTo(f, Plan(f), g)
    ensures WellLinked(g.arena)
  {
    var plan := Plan(f);
    forall k | 0 <= k < |f.arena|
      ensures (forall j | j in g.arena[k].successors :: 0 <= j < |f.arena|) && (forall j | j in g.arena[k].predecessors :: 0 <= j < |f.arena|)
      ensures Distinct(g.arena[k].successors) && Distinct(g.arena[k].predecessors)
    {
      AnalysedBlock(f, plan, g, k);
    }
    forall k, j | 0 <= k < |f.arena| && 0 <= j < |f.arena|
      ensures j in g.arena[k].successors <==> k in g.arena[j].predecessors
    {
      AnalysedEdge(f, plan, g, k, j);
    }
  }

  lemma AnalysedBlock(f: Function, plan: seq<seq<BlockId>>, g: Function, k: nat)
    requires AllInhabited(f.arena) && f.exitBlocks.Some? && AllTargetsFound(f) && WellLinked(f.arena)
    requires plan == Plan(f) && AnalysedUpTo(f, plan, g) && k < |f.arena|
    ensures (forall j | j in g.arena[k].successors :: 0 <= j < |f.arena|) && (forall j | j in g.arena[k].predecessors :: 0 <= j < |f.arena|)
    ensures Distinct(g.arena[k].successors) && Distinct(g.arena[k].predecessors)
  {
    var b := f.arena[k];
    var added := PredecessorsFrom(f, plan, k, |plan|);
    assert g.arena[k] == PartialBlock(f, plan, k);
    assert g.arena[k].predecessors == b.predecessors + added;
    assert g.arena[k].successors == AppendNew(b.successors, plan[k]);
    PredecessorsFromSpec(f, plan, k, |plan|);
    forall t | t in plan[k] ensures t < |f.arena| {
      TargetWithin(f, k, t);
    }
    forall x | x in b.predecessors ensures x !in added {
      assert k in f.arena[x].successors;
    }
    DistinctJoin(b.predecessors, added);
  }

  lemma AnalysedEdge(f: Function, plan: seq<seq<BlockId>>, g: Function, k: nat, j: nat)
    requires AllInhabited(f.arena) && f.exitBlocks.Some? && AllTargetsFound(f) && WellLinked(f.arena)
    requires plan == Plan(f) && AnalysedUpTo(f, plan, g) && k < |f.arena| && j < |f.arena|
    ensures j in g.arena[k].successors <==> k in g.arena[j].predecessors
  {
    assert g.arena[k] == PartialBlock(f, plan, k);
    assert g.arena[j] == PartialBlock(f, plan, j);
    PredecessorsFromSpec(f, plan, j, |plan|);
    assert j in f.arena[k].successors <==> k in f.arena[j].predecessors;
  }
}

// `ToControlFlowGraph` of src/MajiroLib/Script/Analysis/ControlFlow/ControlFlowPass.cs: the
// function index gives every function's first instruction, the next function's start (or the
// end of the list) its last, and `AnalyzeFunction` its blocks; then the offsets are cleared and
// the instruction list, the index and the entry point offset give way to the functions.

module GraphForm {
  import opened Wrappers
  import opened Instructions
  import opened Graph
  import opened Scripts
  import opened ControlFlow
  import opened FunctionAnalysis
  import opened Pruning
  import opened ControlFlowPass
  import opened FunctionStarts

  const ToGraphFrom: string := "Unable to convert script to control flow graph representation from current state: "

  // ---------------------------------------------------------------------------------------
  // The functions

  /** What the analysis of one function went through: its last instruction and the witnesses of `AnalyzedAs`. */
  datatype Run = Run(last: nat, keys: seq<nat>, analysed: Function, gone: set<BlockId>, order: seq<BlockId>)

  /** The last instruction of function k: the first from its start on that ends the list or precedes another start. */
  predicate Ends(starts: seq<nat>, count: nat, k: nat, last: nat)
    requires k < |starts|
  {
    starts[k] <= last < count && (last + 1 == count || last + 1 in starts) &&
    forall i | starts[k] < i <= last :: i !in starts
  }

  /** Function k ends at `run.last` and its analysis succeeds with `result`. */
  ghost predicate AnalyzedAt(instructions: seq<Instruction>, index: seq<FunctionEntry>, starts: seq<nat>,
                             run: Run, result: Function, k: nat)
    requires k < |starts| && k < |index|
  {
    Ends(starts, |instructions|, k, run.last) &&
    ScanClean(instructions, starts[k], run.last) && StartsOf(instructions, starts[k], run.last, run.keys) &&
    Analysable(instructions, index[k].nameHash, run.keys, starts[k], run.last) &&
    AnalyzedAs(instructions, index[k].nameHash, starts[k], run.last, run.keys, run.analysed, run.gone, run.order, result)
  }

  /** Function k ends at `run.last` and its analysis fails: the scan fails, or the starts are not analysable. */
  ghost predicate FailedAt(instructions: seq<Instruction>, index: seq<FunctionEntry>, starts: seq<nat>, run: Run, k: nat)
    requires k < |starts| && k < |index|
  {
    Ends(starts, |instructions|, k, run.last) &&
    (ScanClean(instructions, starts[k], run.last) ==> StartsOf(instructions, starts[k], run.last, run.keys)) &&
    !(ScanClean(instructions, starts[k], run.last) && Analysable(instructions, index[k].nameHash, run.keys, starts[k], run.last))
  }

  /**
   * The second loop: for each start in index order (the dictionary's order, as nothing is ever
   * removed from it), the function's last instruction and its analysis. The first function
   * whose analysis fails ends the loop with that exception.
   */
  method AnalyzeFunctions(instructions: seq<Instruction>, index: seq<FunctionEntry>, starts: seq<nat>)
    returns (r: Result<seq<Function>>, ghost runs: seq<Run>, ghost done: seq<Function>, ghost failedAt: nat)
    requires |starts| == |index| && forall k | 0 <= k < |starts| :: starts[k] < |instructions|
    ensures r.Ok? ==> r.value == done && |done| == |runs| == |starts|
    ensures r.Ok? ==> forall k | 0 <= k < |starts| :: AnalyzedAt(instructions, index, starts, runs[k], done[k], k)
    ensures r.Err? ==> failedAt < |starts| && |done| == failedAt && |runs| == failedAt + 1
    ensures r.Err? ==> forall k | 0 <= k < failedAt :: AnalyzedAt(instructions, index, starts, runs[k], done[k], k)
    ensures r.Err? ==> FailedAt(instructions, index, starts, runs[failedAt], failedAt)
  {
    var results: seq<Function> := [];
    runs, done, failedAt := [], [], 0;
    for k := 0 to |starts|
      invariant |results| == |runs| == k
      invariant forall j | 0 <= j < k :: AnalyzedAt(instructions, index, starts, runs[j], results[j], j)
    {
      var last := FindLastInstruction(starts, |instructions|, starts[k]);
      // The source throws when no last instruction is found; from a start within the list the search always finds one.
      assert last != -1;
      var result, keys, analysed, gone, order := AnalyzeFunction(instructions, index[k].nameHash, starts[k], last);
      ghost var run := Run(last, keys, analysed, gone, order);
      if result.Err? {
        return Err(result.error), runs + [run], results, k;
      }
      AppendRunKeeps(instructions, index, starts, runs, results, run, result.value, k);
      runs, results := runs + [run], results + [result.value];
    }
    r, done := Ok(results), results;
  }

  /** The loop's bookkeeping: function k joins the analysed ones. */
  lemma AppendRunKeeps(instructions: seq<Instruction>, index: seq<FunctionEntry>, starts: seq<nat>,
                       runs: seq<Run>, done: seq<Function>, run: Run, result: Function, k: nat)
    requires |starts| == |index| && |done| == |runs| == k < |starts|
    requires forall j | 0 <= j < k :: AnalyzedAt(instructions, index, starts, runs[j], done[j], j)
    requires AnalyzedAt(instructions, index, starts, run, result, k)
    ensures forall j | 0 <= j < k + 1 :: AnalyzedAt(instructions, index, starts, (runs + [run])[j], (done + [result])[j], j)
  {
    forall j | 0 <= j < k + 1 ensures AnalyzedAt(instructions, index, starts, (runs + [run])[j], (done + [result])[j], j) {
      if j < k {
        assert (runs + [run])[j] == runs[j] && (done + [result])[j] == done[j];
      }
    }
  }

  // ---------------------------------------------------------------------------------------
  // The offsets

  /** An instruction after the last loop: its offset and size cleared. */
  function Unplaced(i: Instruction): Instruction {
    i.(offset := None, size := None)
  }

  /**
   * A block after the last loop. Its instructions are the objects of the script's list, so
   * clearing the list's offsets clears theirs.
   */
  function UnplacedBlock(b: BasicBlock): BasicBlock {
    b.(instructions := seq(|b.instructions|, i requires 0 <= i < |b.instructions| => Unplaced(b.instructions[i])))
  }

  function Unplace(f: Function): Function {
    f.(arena := seq(|f.arena|, k requires 0 <= k < |f.arena| => UnplacedBlock(f.arena[k])))
  }

  function UnplaceAll(fs: seq<Function>): seq<Function> {
    seq(|fs|, k requires 0 <= k < |fs| => Unplace(fs[k]))
  }

  /**
   * Clearing the offsets keeps the graph: every block keeps its edges, name, flags and
   * instructions but for their offsets and sizes, which are gone.
   */
  lemma UnplacedBlocks(f: Function, k: nat)
    requires k < |f.arena|
    ensures |Unplace(f).arena| == |f.arena| && Unplace(f).entryBlock == f.entryBlock && Unplace(f).blocks == f.blocks
    ensures var b, b' := f.arena[k], Unplace(f).arena[k];
      b'.successors == b.successors && b'.predecessors == b.predecessors && b'.name == b.name &&
      b'.isEntryBlock == b.isEntryBlock && b'.isExitBlock == b.isExitBlock && |b'.instructions| == |b.instructions| &&
      forall i | 0 <= i < |b.instructions| ::
        b'.instructions[i].offset.None? && b'.instructions[i].size.None? &&
        b'.instructions[i].opcode == b.instructions[i].opcode && b'.instructions[i].jumpTarget == b.instructions[i].jumpTarget
  {
  }

  /** So the edges stay within the blocks, mirrored and without duplicates. */
  lemma UnplacedWellLinked(f: Function)
    requires WellLinked(f.arena)
    ensures WellLinked(Unplace(f).arena)
  {
    forall k | 0 <= k < |f.arena| {
      UnplacedBlocks(f, k);
    }
  }

  // ---------------------------------------------------------------------------------------
  // The conversion

  /**
   * What the loops make of the index and the instruction list: the first exception they meet
   * (a missing index, an entry without an instruction or with the start of another, a function
   * whose analysis fails), or every function analysed and its offsets cleared.
   */
  ghost predicate ConvertedAs(r: Result<seq<Function>>, index: Option<seq<FunctionEntry>>, instructions: seq<Instruction>,
                              starts: seq<nat>, runs: seq<Run>, done: seq<Function>, failedAt: nat)
  {
    (index.None? ==> r == Err(Thrown(NullReference))) &&
    (index.Some? ==> ConvertedFrom(r, index.value, instructions, starts, runs, done, failedAt))
  }

  ghost predicate ConvertedFrom(r: Result<seq<Function>>, index: seq<FunctionEntry>, instructions: seq<Instruction>,
                                starts: seq<nat>, runs: seq<Run>, done: seq<Function>, failedAt: nat)
  {
    (StartsUpTo(index, instructions, |index|).Err? ==> r == Err(StartsUpTo(index, instructions, |index|).error)) &&
    (StartsUpTo(index, instructions, |index|).Ok? ==>
       starts == StartsUpTo(index, instructions, |index|).value &&
       (r.Ok? ==>
          |done| == |runs| == |starts| && r.value == UnplaceAll(done) &&
          forall k | 0 <= k < |starts| :: AnalyzedAt(instructions, index, starts, runs[k], done[k], k)) &&
       (r.Err? ==>
          failedAt < |starts| && |done| == failedAt && |runs| == failedAt + 1 &&
          (forall k | 0 <= k < failedAt :: AnalyzedAt(instructions, index, starts, runs[k], done[k], k)) &&
          FailedAt(instructions, index, starts, runs[failedAt], failedAt)))
  }

  /** The loops of `ToControlFlowGraph` over the script's fields; `entry` is the entry point function they set. */
  method Converted(index: Option<seq<FunctionEntry>>, instructions: seq<Instruction>, entryOffset: Option<UInt32>,
                   entry0: Option<nat>)
    returns (r: Result<seq<Function>>, entry: Option<nat>,
             ghost starts: seq<nat>, ghost runs: seq<Run>, ghost done: seq<Function>, ghost failedAt: nat)
    ensures ConvertedAs(r, index, instructions, starts, runs, done, failedAt)
    ensures r.Ok? ==> index.Some? && entry == EntryAfter(index.value, entryOffset, |index.value|, entry0)
  {
    starts, runs, done, failedAt := [], [], [], 0;
    entry := entry0;
    if index.None? {
      return Err(Thrown(NullReference)), entry, starts, runs, done, failedAt;
    }
    var marked;
    marked, entry := MarkFunctionStarts(index.value, instructions, entryOffset, entry0);
    if marked.Err? {
      return Err(marked.error), entry, starts, runs, done, failedAt;
    }
    starts := marked.value;
    assert forall k | 0 <= k < |starts| :: starts[k] == IndexFromOffset(instructions, index.value[k].offset) < |instructions|;
    var analysed;
    analysed, runs, done, failedAt := AnalyzeFunctions(instructions, index.value, marked.value);
    if analysed.Err? {
      return Err(analysed.error), entry, starts, runs, done, failedAt;
    }
    r := Ok(UnplaceAll(analysed.value));
  }

  /**
   * What `ToControlFlowGraph` leaves of an instruction-list script, given what the loops make
   * of its fields: their exception, with the script in transition; or the functions, the entry
   * point function, and no instruction list, index or entry point offset.
   */
  predicate GraphedAs(script: MjoScript, r: Result<()>, converted: Result<seq<Function>>, index: Option<seq<FunctionEntry>>,
                      entryOffset: Option<UInt32>, entry0: Option<nat>, readMark: bool)
    reads script
  {
    (r.Ok? <==> converted.Ok?) && (r.Err? ==> r.error == converted.error && script.representation == InTransition) &&
    (r.Ok? ==>
       index.Some? && script.representation == ControlFlowGraph && script.functions == Some(converted.value) &&
       script.entryPointFunction == EntryAfter(index.value, entryOffset, |index.value|, entry0) &&
       script.entryPointOffset.None? && script.functionIndex.None? && script.instructions == [] &&
       script.instructionsNull && script.enableReadMark == readMark)
  }

  /**
   * Function k of the converted script: its edges are within its blocks, mirrored and without
   * duplicates, it keeps its entry's name hash, and its entry block is the block that starts at
   * the instruction the entry's offset names.
   */
  lemma GraphedFunction(instructions: seq<Instruction>, index: seq<FunctionEntry>, starts: seq<nat>,
                        run: Run, result: Function, k: nat)
    requires k < |starts| && k < |index| && AnalyzedAt(instructions, index, starts, run, result, k)
    requires starts[k] == IndexFromOffset(instructions, index[k].offset)
    ensures WellLinked(Unplace(result).arena) && Unplace(result).nameHash == index[k].nameHash
    ensures Unplace(result).entryBlock.Some? && Unplace(result).entryBlock.value < |run.keys|
    ensures instructions[run.keys[Unplace(result).entryBlock.value]].offset == Some(index[k].offset)
  {
    AnalyzedFunction(instructions, index[k].nameHash, starts[k], run.last, run.keys, run.analysed, run.gone, run.order, result);
    UnplacedWellLinked(result);
  }
}

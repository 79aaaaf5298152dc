// `ToControlFlowGraph` of src/MajiroLib/Script/Analysis/ControlFlow/ControlFlowPass.cs on the
// script object: the representation checks, and the fields the loops of GraphForm replace.

module GraphPass {
  import opened Wrappers
  import opened Instructions
  import opened Graph
  import opened Scripts
  import opened GraphForm

  /**
   * `ToControlFlowGraph`. A control flow graph is left as it is, and a script neither a graph
   * nor an instruction list throws. An instruction list becomes what `GraphedAs` says of what
   * `ConvertedAs` says its fields give.
   */
  method ToControlFlowGraph(script: MjoScript)
    returns (r: Result<()>, ghost converted: Result<seq<Function>>,
             ghost starts: seq<nat>, ghost runs: seq<Run>, ghost done: seq<Function>, ghost failedAt: nat)
    modifies script
    ensures old(script.representation) == ControlFlowGraph ==> r == Ok(()) && unchanged(script)
    ensures old(script.representation) != ControlFlowGraph && old(script.representation) != InstructionList ==>
      r == Err(Thrown(ToGraphFrom + RepresentationName(old(script.representation)))) && unchanged(script)
    ensures old(script.representation) == InstructionList ==>
      ConvertedAs(converted, old(script.functionIndex), old(script.instructions), starts, runs, done, failedAt) &&
      GraphedAs(script, r, converted, old(script.functionIndex), old(script.entryPointOffset),
                old(script.entryPointFunction), old(script.enableReadMark))
  {
    converted, starts, runs, done, failedAt := Err(Thrown(NullReference)), [], [], [], 0;
    if script.representation == ControlFlowGraph {
      return Ok(()), converted, starts, runs, done, failedAt;
    }
    if script.representation != InstructionList {
      return Err(Thrown(ToGraphFrom + RepresentationName(script.representation))), converted, starts, runs, done, failedAt;
    }
    script.representation := InTransition;
    script.functions := Some([]);
    var result, entry;
    result, entry, starts, runs, done, failedAt :=
      Converted(script.functionIndex, script.instructions, script.entryPointOffset, script.entryPointFunction);
    converted := result;
    script.entryPointFunction := entry;
    if result.Err? {
      return Err(result.error), converted, starts, runs, done, failedAt;
    }
    Install(script, result.value);
    r := Ok(());
  }

  /** The end of `ToControlFlowGraph`: the functions in, the list, index and entry point offset set to null. */
  method Install(script: MjoScript, fs: seq<Function>)
    modifies script`functions, script`entryPointOffset, script`functionIndex, script`instructions,
             script`instructionsNull, script`representation
    ensures script.functions == Some(fs) && script.representation == ControlFlowGraph
    ensures script.entryPointOffset.None? && script.functionIndex.None? && script.instructions == [] && script.instructionsNull
  {
    script.functions := Some(fs);
    script.entryPointOffset := None;
    script.functionIndex := None;
    script.instructions := [];
    script.instructionsNull := true;
    script.representation := ControlFlowGraph;
  }
}

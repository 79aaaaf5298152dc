// The first loop of `ToControlFlowGraph` (src/MajiroLib/Script/Analysis/ControlFlow/ControlFlowPass.cs):
// each entry of the function index names the instruction its function starts at, and the
// entry at the entry point offset names the entry point function.

module FunctionStarts {
  import opened Wrappers
  import opened Instructions
  import opened Scripts
  import Numerals

  const NoInstructionAt: string := "No instruction found at offset 0x"

  // ---------------------------------------------------------------------------------------
  // The function index

  /** The position of each index entry's first instruction, -1 where no instruction has its offset. */
  function Found(index: seq<FunctionEntry>, instructions: seq<Instruction>): (r: seq<int>)
    ensures |r| == |index| && forall k | 0 <= k < |index| :: r[k] == IndexFromOffset(instructions, index[k].offset)
  {
    seq(|index|, k requires 0 <= k < |index| => IndexFromOffset(instructions, index[k].offset))
  }

  /**
   * The first loop over the index entries before n, given the position each entry names: the
   * positions in index order. An entry whose offset no instruction has throws, and so does an
   * entry whose instruction an earlier entry already starts at (`Dictionary.Add`).
   */
  function StartsAmong(index: seq<FunctionEntry>, found: seq<int>, n: nat): (r: Result<seq<nat>>)
    requires n <= |index| == |found|
    ensures r.Ok? ==> |r.value| == n && forall k | 0 <= k < n :: r.value[k] == found[k]
    ensures r.Ok? ==> Distinct(r.value)
  {
    if n == 0 then Ok([])
    else match StartsAmong(index, found, n - 1)
      case Err(e) => Err(e)
      case Ok(starts) =>
        var i := found[n - 1];
        if i < 0 then Err(Thrown(NoInstructionAt + Numerals.Hex8(index[n - 1].offset)))
        else if i in starts then Err(Thrown(DuplicateKey))
        else Ok(starts + [i])
  }

  /** The first loop over the index entries before n. */
  function StartsUpTo(index: seq<FunctionEntry>, instructions: seq<Instruction>, n: nat): (r: Result<seq<nat>>)
    requires n <= |index|
    ensures r.Ok? ==> |r.value| == n && forall k | 0 <= k < n :: r.value[k] == IndexFromOffset(instructions, index[k].offset)
    ensures r.Ok? ==> Distinct(r.value)
  {
    StartsAmong(index, Found(index, instructions), n)
  }

  /** The loop gets through the entries before n exactly when each is found and no two are at the same place. */
  lemma {:induction false} StartsAmongSucceed(index: seq<FunctionEntry>, found: seq<int>, n: nat)
    requires n <= |index| == |found|
    ensures StartsAmong(index, found, n).Ok? <==>
      forall k | 0 <= k < n :: found[k] != -1 && found[k] >= 0 && forall j | 0 <= j < k :: found[j] != found[k]
  {
    if n > 0 {
      StartsAmongSucceed(index, found, n - 1);
      match StartsAmong(index, found, n - 1)
      case Err(_) =>
      case Ok(starts) =>
        var i := found[n - 1];
        assert i in starts <==> exists j | 0 <= j < n - 1 :: found[j] == i by {
          if i in starts {
            var j :| 0 <= j < |starts| && starts[j] == i;
            assert found[j] == i;
          }
        }
    }
  }

  /**
   * The loop gets through the entries before n exactly when each entry's offset is some
   * instruction's and no two entries start at the same instruction.
   */
  lemma StartsSucceed(index: seq<FunctionEntry>, instructions: seq<Instruction>, n: nat)
    requires n <= |index|
    ensures StartsUpTo(index, instructions, n).Ok? <==>
      forall k | 0 <= k < n :: IndexFromOffset(instructions, index[k].offset) != -1 &&
        forall j | 0 <= j < k :: IndexFromOffset(instructions, index[j].offset) != IndexFromOffset(instructions, index[k].offset)
  {
    var found := Found(index, instructions);
    StartsAmongSucceed(index, found, n);
    forall k | 0 <= k < n
      ensures found[k] != -1 <==> found[k] >= 0
    {
      assert found[k] == IndexFromOffset(instructions, index[k].offset);
    }
  }

  /** The entry the first loop makes the entry point function: the last one at the entry point offset. */
  function EntryUpTo(index: seq<FunctionEntry>, entryOffset: Option<UInt32>, n: nat): (r: Option<nat>)
    requires n <= |index|
    ensures r.None? <==> forall k | 0 <= k < n :: Some(index[k].offset) != entryOffset
    ensures r.Some? ==> r.value < n && Some(index[r.value].offset) == entryOffset &&
                        forall k | r.value < k < n :: Some(index[k].offset) != entryOffset
  {
    if n == 0 then None
    else if Some(index[n - 1].offset) == entryOffset then Some(n - 1)
    else EntryUpTo(index, entryOffset, n - 1)
  }

  /** What the entry point function is after the first loop: the last match, or what it was before. */
  function EntryAfter(index: seq<FunctionEntry>, entryOffset: Option<UInt32>, n: nat, entry0: Option<nat>): Option<nat>
    requires n <= |index|
  {
    if EntryUpTo(index, entryOffset, n).Some? then EntryUpTo(index, entryOffset, n) else entry0
  }

  /**
   * The first loop of `ToControlFlowGraph`: the start of every function of the index, and the
   * entry point function, which entries before a failing one have already set.
   */
  method MarkFunctionStarts(index: seq<FunctionEntry>, instructions: seq<Instruction>, entryOffset: Option<UInt32>,
                            entry0: Option<nat>)
    returns (r: Result<seq<nat>>, entry: Option<nat>)
    ensures r == StartsUpTo(index, instructions, |index|)
    ensures r.Ok? ==> entry == EntryAfter(index, entryOffset, |index|, entry0)
  {
    ghost var found := Found(index, instructions);
    var starts: seq<nat> := [];
    entry := entry0;
    for k := 0 to |index|
      invariant StartsAmong(index, found, k) == Ok(starts)
      invariant entry == EntryAfter(index, entryOffset, k, entry0)
    {
      var e := index[k];
      var i := FindStart(index, instructions, k, found);
      if i < 0 {
        StartsMissing(index, found, k, starts);
        return Err(Thrown(NoInstructionAt + Numerals.Hex8(e.offset))), entry;
      }
      EntryStep(index, entryOffset, k, entry0);
      if Some(e.offset) == entryOffset {
        entry := Some(k);
      }
      if i in starts {
        StartsRepeated(index, found, k, starts);
        return Err(Thrown(DuplicateKey)), entry;
      }
      StartsStep(index, found, k, starts);
      starts := starts + [i];
    }
    r := Ok(starts);
  }

  /** `InstructionIndexFromOffset` for the k-th entry of the index. */
  method FindStart(index: seq<FunctionEntry>, instructions: seq<Instruction>, k: nat, ghost found: seq<int>)
    returns (i: int)
    requires k < |index| && found == Found(index, instructions)
    ensures i == found[k]
  {
    i := IndexFromOffset(instructions, index[k].offset);
  }

  /** An entry no instruction is found for throws, and the loop goes no further. */
  lemma {:induction false} StartsMissing(index: seq<FunctionEntry>, found: seq<int>, k: nat, starts: seq<nat>)
    requires k < |index| == |found| && StartsAmong(index, found, k) == Ok(starts) && found[k] < 0
    ensures StartsAmong(index, found, |index|) == Err(Thrown(NoInstructionAt + Numerals.Hex8(index[k].offset)))
  {
    StartsStayFailed(index, found, k + 1, |index|);
  }

  /** An entry at an instruction an earlier entry starts at throws, and the loop goes no further. */
  lemma {:induction false} StartsRepeated(index: seq<FunctionEntry>, found: seq<int>, k: nat, starts: seq<nat>)
    requires k < |index| == |found| && StartsAmong(index, found, k) == Ok(starts) && found[k] >= 0 && found[k] in starts
    ensures StartsAmong(index, found, |index|) == Err(Thrown(DuplicateKey))
  {
    assert StartsAmong(index, found, k + 1) == Err(Thrown(DuplicateKey));
    StartsStayFailed(index, found, k + 1, |index|);
  }

  /** A new start extends the starts read so far. */
  lemma {:induction false} StartsStep(index: seq<FunctionEntry>, found: seq<int>, k: nat, starts: seq<nat>)
    requires k < |index| == |found| && StartsAmong(index, found, k) == Ok(starts) && found[k] >= 0 && found[k] !in starts
    ensures StartsAmong(index, found, k + 1) == Ok(starts + [found[k]])
  {
  }

  /** One more entry makes itself the entry point function when it is at the entry point offset. */
  lemma {:induction false} EntryStep(index: seq<FunctionEntry>, entryOffset: Option<UInt32>, k: nat, entry0: Option<nat>)
    requires k < |index|
    ensures EntryAfter(index, entryOffset, k + 1, entry0) ==
            if Some(index[k].offset) == entryOffset then Some(k) else EntryAfter(index, entryOffset, k, entry0)
  {
  }

  /** Once an entry has thrown, the later entries are never reached. */
  lemma {:induction false} StartsStayFailed(index: seq<FunctionEntry>, found: seq<int>, n: nat, m: nat)
    requires n <= m <= |index| == |found| && StartsAmong(index, found, n).Err?
    ensures StartsAmong(index, found, m) == StartsAmong(index, found, n)
    decreases m
  {
    if m > n {
      StartsStayFailed(index, found, n, m - 1);
    }
  }
}

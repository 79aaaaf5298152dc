// The symbolic stack of the stack simulator
// (src/MajiroLib/Script/Analysis/StackTransition/StackState.cs): a list of stack values whose
// bottom `StackBase` slots are the arguments and the next `LocalCount` slots the locals; the
// rest are temporaries. `Push`, `Pop` and the indexer change the list in place.

module StackStates {
  import opened Wrappers
  import opened Instructions

  /** A C# `int` addition: the sum wrapped into the 32-bit two's-complement range. */
  function AddInt32(a: Int32, b: Int32): (r: Int32)
    ensures -0x8000_0000 <= a + b < 0x8000_0000 ==> r == a + b
    ensures r % 0x1_0000_0000 == (a + b) % 0x1_0000_0000
  {
    var u := (a + b) % 0x1_0000_0000;
    if u < 0x8000_0000 then u else u - 0x1_0000_0000
  }

  class StackState {
    var values: seq<StackValue>
    var stackBase: Int32
    var localCount: Int32

    /** `new StackState(values, stackBase)`: a missing list becomes an empty one; the local count starts at 0. */
    constructor (initial: Option<seq<StackValue>>, base: Int32)
      ensures values == (if initial.Some? then initial.value else [])
      ensures stackBase == base && localCount == 0
    {
      values := if initial.Some? then initial.value else [];
      stackBase := base;
      localCount := 0;
    }

    /** `StackTop`: the number of values on the stack. */
    function StackTop(): (n: nat)
      reads this`values
      ensures n == |values|
    {
      |values|
    }

    /** `ArgCount`: the arguments are the slots below the base. */
    function ArgCount(): (n: int)
      reads this`stackBase
      ensures n == stackBase
    {
      stackBase
    }

    /** `TempCount`: the values above the arguments and the locals. */
    function TempCount(): (n: int)
      reads this
      ensures n + ArgCount() + localCount == StackTop()
    {
      StackTop() - ArgCount() - localCount
    }

    /** `Push`: the value goes on top; nothing else changes. */
    method Push(v: StackValue)
      modifies this`values
      ensures values == old(values) + [v]
    {
      values := values + [v];
    }

    /**
     * `Pop`: the top value, which is removed. `Values.Last()` on an empty list throws, and the
     * stack is then left as it was.
     */
    method Pop() returns (r: Result<StackValue>)
      modifies this`values
      ensures old(|values|) == 0 ==> r == Err(Thrown(NoElements)) && values == old(values)
      ensures old(|values|) > 0 ==> r == Ok(old(values)[old(|values|) - 1]) && values == old(values)[..old(|values|) - 1]
    {
      if |values| == 0 {
        return Err(Thrown(NoElements));
      }
      r := Ok(values[|values| - 1]);
      values := values[..|values| - 1];
    }

    /** The list index the indexer uses for a slot relative to the base, in `int` arithmetic. */
    function Slot(offset: Int32): (k: Int32)
      reads this`stackBase
      ensures -0x8000_0000 <= stackBase + offset < 0x8000_0000 ==> k == stackBase + offset
    {
      AddInt32(stackBase, offset)
    }

    /** `this[offset]` read: slot offset above the base, or the list's range error. */
    method Get(offset: Int32) returns (r: Result<StackValue>)
      ensures 0 <= Slot(offset) < |values| ==> r == Ok(values[Slot(offset)])
      ensures !(0 <= Slot(offset) < |values|) ==> r == Err(Thrown(IndexOutOfRange))
    {
      var k := AddInt32(stackBase, offset);
      if k < 0 || k >= |values| {
        return Err(Thrown(IndexOutOfRange));
      }
      r := Ok(values[k]);
    }

    /** `this[offset] = v`: slot offset above the base is replaced, or the list's range error leaves the stack as it was. */
    method Set(offset: Int32, v: StackValue) returns (r: Result<()>)
      modifies this`values
      ensures old(0 <= Slot(offset) < |values|) ==> r == Ok(()) && values == old(values)[old(Slot(offset)) := v]
      ensures !old(0 <= Slot(offset) < |values|) ==> r == Err(Thrown(IndexOutOfRange)) && values == old(values)
    {
      var k := AddInt32(stackBase, offset);
      if k < 0 || k >= |values| {
        return Err(Thrown(IndexOutOfRange));
      }
      values := values[k := v];
      r := Ok(());
    }

    /** `Clone`: a new state with a copy of the values, the same base and the same local count. */
    method Clone() returns (c: StackState)
      ensures fresh(c)
      ensures c.values == values && c.stackBase == stackBase && c.localCount == localCount
    {
      c := new StackState(Some(values), stackBase);
      c.localCount := localCount;
    }
  }

  /** A push followed by a pop gives the pushed value back and leaves the stack as before. */
  method PushThenPop(s: StackState, v: StackValue) returns (r: Result<StackValue>)
    modifies s`values
    ensures r == Ok(v) && s.values == old(s.values)
  {
    s.Push(v);
    r := s.Pop();
    assert old(s.values) + [v] == s.values + [v];
  }

  /** A clone does not see later changes to the original: pushing onto one leaves the other as it was. */
  method CloneIsolated(s: StackState, v: StackValue) returns (c: StackState)
    modifies s`values
    ensures fresh(c) && c.values == old(s.values) && s.values == old(s.values) + [v]
    ensures c.stackBase == s.stackBase && c.localCount == s.localCount
  {
    c := s.Clone();
    s.Push(v);
  }

  /** Writing a slot and reading it back gives the written value, when the slot is on the stack. */
  method SetThenGet(s: StackState, offset: Int32, v: StackValue) returns (r: Result<StackValue>)
    modifies s`values
    ensures old(0 <= s.Slot(offset) < |s.values|) ==> r == Ok(v)
    ensures !old(0 <= s.Slot(offset) < |s.values|) ==> r.Err? && s.values == old(s.values)
  {
    var w := s.Set(offset, v);
    r := s.Get(offset);
  }
}

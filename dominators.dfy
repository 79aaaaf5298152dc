// Dominators of a function's blocks, as `CalculateDominators` computes them
// (src/MajiroLib/Script/Analysis/Source/DecompilerPass.cs:78-139), by the iterative algorithm of
// Cooper, Harvey and Kennedy ("A Simple, Fast Dominance Algorithm").
//
// Blocks are numbered by their position in reverse post-order (rpo); `idoms[i]` is the position
// of the immediate dominator of the block at position i, or -1 while it is not yet known. The
// `while(changed)` loop and the climbing loops of `Intersect` need not stop on every graph, so
// each takes a fuel bound and runs out of it as `OutOfFuel`.

module Dominators {
  import opened Wrappers
  import opened Instructions
  import opened Graph

  /** The message of an array index outside the array (`IndexOutOfRangeException`). */
  const ArrayIndexOutside: string := "Index was outside the bounds of the array."
  /** The message of `First(predicate)` when no element matches. */
  const NoMatch: string := "Sequence contains no matching element"

  /** `rpo.IndexOf(p)`: the first position holding p, or -1 when p is not listed. */
  function PositionOf(rpo: seq<BlockId>, p: BlockId): (k: int)
    ensures -1 <= k < |rpo|
    ensures k == -1 <==> p !in rpo
    ensures k >= 0 ==> rpo[k] == p && p !in rpo[..k]
  {
    if |rpo| == 0 then -1
    else if rpo[0] == p then 0
    else
      var k := PositionOf(rpo[1..], p);
      if k == -1 then -1
      else
        assert rpo[..k + 1] == [rpo[0]] + rpo[1..][..k];
        k + 1
  }

  // ---------------------------------------------------------------------------------------
  // Intersect

  /**
   * `Intersect(b1, b2)`: while the two positions differ, the later one climbs to its immediate
   * dominator. Each climb spends one unit of fuel.
   */
  function Intersect(idoms: seq<int>, b1: int, b2: int, fuel: nat): (r: Result<int>)
    decreases fuel
  {
    if b1 == b2 then Ok(b1)
    else if fuel == 0 then Err(OutOfFuel)
    else if b1 > b2 then
      if !(0 <= b1 < |idoms|) then Err(Thrown(ArrayIndexOutside)) else Intersect(idoms, idoms[b1], b2, fuel - 1)
    else
      if !(0 <= b2 < |idoms|) then Err(Thrown(ArrayIndexOutside)) else Intersect(idoms, b1, idoms[b2], fuel - 1)
  }

  /** y is reached from x by at most n climbs along the idom links. */
  predicate OnChain(idoms: seq<int>, x: int, y: int, n: nat)
    decreases n
  {
    x == y || (n > 0 && 0 <= x < |idoms| && OnChain(idoms, idoms[x], y, n - 1))
  }

  lemma {:induction false} OnChainMore(idoms: seq<int>, x: int, y: int, n: nat)
    requires OnChain(idoms, x, y, n)
    ensures OnChain(idoms, x, y, n + 1)
    decreases n
  {
    if x != y {
      OnChainMore(idoms, idoms[x], y, n - 1);
    }
  }

  /** Whatever `Intersect` returns is a common ancestor: both positions climb to it. */
  lemma {:induction false} IntersectMeets(idoms: seq<int>, b1: int, b2: int, fuel: nat)
    requires Intersect(idoms, b1, b2, fuel).Ok?
    ensures OnChain(idoms, b1, Intersect(idoms, b1, b2, fuel).value, fuel)
    ensures OnChain(idoms, b2, Intersect(idoms, b1, b2, fuel).value, fuel)
    decreases fuel
  {
    var r := Intersect(idoms, b1, b2, fuel).value;
    if b1 != b2 {
      if b1 > b2 {
        IntersectMeets(idoms, idoms[b1], b2, fuel - 1);
        OnChainMore(idoms, b2, r, fuel - 1);
      } else {
        IntersectMeets(idoms, b1, idoms[b2], fuel - 1);
        OnChainMore(idoms, b1, r, fuel - 1);
      }
    }
  }

  /** Position 0 (the entry) is its own idom, and every known idom lies before its block and is itself known. */
  predicate Ordered(idoms: seq<int>) {
    |idoms| > 0 && idoms[0] == 0 &&
    (forall x | 1 <= x < |idoms| :: idoms[x] == -1 || 0 <= idoms[x] < x) &&
    forall x, y | 1 <= x < |idoms| && 0 <= y < |idoms| && idoms[x] == y :: idoms[y] != -1
  }

  /** A position whose idom is known. */
  predicate Known(idoms: seq<int>, x: int) {
    0 <= x < |idoms| && idoms[x] != -1
  }

  /**
   * On ordered idoms, two known positions meet without error within b1 + b2 climbs, at a known
   * position no later than either.
   */
  lemma {:induction false} IntersectBelow(idoms: seq<int>, b1: int, b2: int, fuel: nat)
    requires Ordered(idoms) && Known(idoms, b1) && Known(idoms, b2) && fuel >= b1 + b2
    ensures Intersect(idoms, b1, b2, fuel).Ok?
    ensures var r := Intersect(idoms, b1, b2, fuel).value; Known(idoms, r) && r <= b1 && r <= b2
    decreases fuel
  {
    if b1 > b2 {
      assert b1 >= 1;
      IntersectBelow(idoms, idoms[b1], b2, fuel - 1);
    } else if b2 > b1 {
      assert b2 >= 1;
      IntersectBelow(idoms, b1, idoms[b2], fuel - 1);
    }
  }

  // ---------------------------------------------------------------------------------------
  // One block's immediate dominator

  /**
   * `b.Predecessors.First(p => idoms[rpo.IndexOf(p)] != -1)`, as the position it is then
   * looked up at. A predecessor missing from rpo indexes the array at -1.
   */
  function FirstKnown(rpo: seq<BlockId>, idoms: seq<int>, preds: seq<BlockId>): (r: Result<int>)
    requires |idoms| == |rpo|
    ensures r.Ok? ==> Known(idoms, r.value)
  {
    if |preds| == 0 then Err(Thrown(NoMatch))
    else
      var pi := PositionOf(rpo, preds[0]);
      if pi == -1 then Err(Thrown(ArrayIndexOutside))
      else if idoms[pi] != -1 then Ok(pi)
      else FirstKnown(rpo, idoms, preds[1..])
  }

  /**
   * The `foreach` over the predecessors from the k-th: one equal to the current idom, or with
   * no idom yet, is skipped; any other is intersected with it.
   */
  function Refine(rpo: seq<BlockId>, idoms: seq<int>, preds: seq<BlockId>, k: nat, idom: int, fuel: nat): Result<int>
    requires |idoms| == |rpo| && k <= |preds|
    decreases |preds| - k
  {
    if k == |preds| then Ok(idom)
    else
      var pi := PositionOf(rpo, preds[k]);
      if pi == idom then Refine(rpo, idoms, preds, k + 1, idom, fuel)
      else if pi == -1 then Err(Thrown(ArrayIndexOutside))
      else if idoms[pi] == -1 then Refine(rpo, idoms, preds, k + 1, idom, fuel)
      else match Intersect(idoms, pi, idom, fuel)
        case Err(e) => Err(e)
        case Ok(m) => Refine(rpo, idoms, preds, k + 1, m, fuel)
  }

  /** The predecessors of the block at position bi; a block outside the arena throws. */
  function PredecessorsAt(arena: seq<BasicBlock>, rpo: seq<BlockId>, bi: nat): Result<seq<BlockId>>
    requires bi < |rpo|
  {
    if rpo[bi] < |arena| then Ok(arena[rpo[bi]].predecessors) else Err(Thrown(IndexOutOfRange))
  }

  /** The idom the loop body computes for the block at position bi from the current idoms. */
  function Meet(arena: seq<BasicBlock>, rpo: seq<BlockId>, idoms: seq<int>, bi: nat, fuel: nat): Result<int>
    requires |idoms| == |rpo| && bi < |rpo|
  {
    match PredecessorsAt(arena, rpo, bi)
    case Err(e) => Err(e)
    case Ok(preds) =>
      match FirstKnown(rpo, idoms, preds)
      case Err(e) => Err(e)
      case Ok(first) => Refine(rpo, idoms, preds, 0, first, fuel)
  }

  // ---------------------------------------------------------------------------------------
  // The fixed-point loop

  /** One sweep of the `for` loop from position bi, updating idoms in place. */
  function Pass(arena: seq<BasicBlock>, rpo: seq<BlockId>, idoms: seq<int>, bi: nat, changed: bool, fuel: nat)
    : (r: Result<(seq<int>, bool)>)
    requires |idoms| == |rpo|
    ensures r.Ok? ==> |r.value.0| == |rpo|
    decreases |rpo| - bi
  {
    if bi >= |rpo| then Ok((idoms, changed))
    else match Meet(arena, rpo, idoms, bi, fuel)
      case Err(e) => Err(e)
      case Ok(m) =>
        if idoms[bi] != m then Pass(arena, rpo, idoms[bi := m], bi + 1, true, fuel)
        else Pass(arena, rpo, idoms, bi + 1, changed, fuel)
  }

  /** `while(changed)`: sweeps from position 1 until one changes nothing, at most `rounds` of them. */
  function Rounds(arena: seq<BasicBlock>, rpo: seq<BlockId>, idoms: seq<int>, rounds: nat, fuel: nat)
    : (r: Result<seq<int>>)
    requires |idoms| == |rpo|
    ensures r.Ok? ==> |r.value| == |rpo|
    decreases rounds
  {
    if rounds == 0 then Err(OutOfFuel)
    else match Pass(arena, rpo, idoms, 1, false, fuel)
      case Err(e) => Err(e)
      case Ok(next) => if next.1 then Rounds(arena, rpo, next.0, rounds - 1, fuel) else Ok(next.0)
  }

  /** `Array.Fill(idoms, -1); idoms[0] = 0;` */
  function Initial(n: nat): (s: seq<int>)
    requires n >= 1
    ensures |s| == n && s[0] == 0 && forall x | 1 <= x < n :: s[x] == -1
  {
    [0] + seq(n - 1, _ => -1)
  }

  /** The immediate dominators `CalculateDominators` settles on. */
  function Idoms(arena: seq<BasicBlock>, rpo: seq<BlockId>, fuel: nat): (r: Result<seq<int>>)
    requires |rpo| >= 1
    ensures r.Ok? ==> |r.value| == |rpo|
  {
    Rounds(arena, rpo, Initial(|rpo|), fuel, fuel)
  }

  /** One step of a sweep: a failing block fails it, otherwise the block's new idom is stored. */
  lemma PassStep(arena: seq<BasicBlock>, rpo: seq<BlockId>, idoms: seq<int>, bi: nat, changed: bool, fuel: nat)
    requires |idoms| == |rpo| && bi < |rpo|
    ensures Meet(arena, rpo, idoms, bi, fuel).Err? ==> Pass(arena, rpo, idoms, bi, changed, fuel) == Err(Meet(arena, rpo, idoms, bi, fuel).error)
    ensures Meet(arena, rpo, idoms, bi, fuel).Ok? ==>
      var m := Meet(arena, rpo, idoms, bi, fuel).value;
      Pass(arena, rpo, idoms, bi, changed, fuel) ==
        if idoms[bi] != m then Pass(arena, rpo, idoms[bi := m], bi + 1, true, fuel)
        else Pass(arena, rpo, idoms, bi + 1, changed, fuel)
  {
  }

  /** A sweep that changed nothing left every idom where it was, and each equals what its block computes. */
  lemma {:induction false} PassUnchanged(arena: seq<BasicBlock>, rpo: seq<BlockId>, idoms: seq<int>, bi: nat, fuel: nat,
                                         out: seq<int>)
    requires |idoms| == |rpo|
    requires Pass(arena, rpo, idoms, bi, false, fuel) == Ok((out, false))
    ensures out == idoms
    ensures forall j | bi <= j < |rpo| :: Meet(arena, rpo, idoms, j, fuel) == Ok(idoms[j])
    decreases |rpo| - bi
  {
    if bi < |rpo| {
      PassStep(arena, rpo, idoms, bi, false, fuel);
      var m := Meet(arena, rpo, idoms, bi, fuel).value;
      if idoms[bi] != m {
        PassChanges(arena, rpo, idoms[bi := m], bi + 1, fuel);
        assert false;
      } else {
        assert Pass(arena, rpo, idoms, bi + 1, false, fuel) == Ok((out, false));
        PassUnchanged(arena, rpo, idoms, bi + 1, fuel, out);
        forall j | bi <= j < |rpo| ensures Meet(arena, rpo, idoms, j, fuel) == Ok(idoms[j]) {
          if j == bi {
            assert Meet(arena, rpo, idoms, bi, fuel) == Ok(m);
          }
        }
      }
    }
  }

  /** Once a sweep has changed something, it reports a change. */
  lemma {:induction false} PassChanges(arena: seq<BasicBlock>, rpo: seq<BlockId>, idoms: seq<int>, bi: nat, fuel: nat)
    requires |idoms| == |rpo|
    ensures Pass(arena, rpo, idoms, bi, true, fuel).Ok? ==> Pass(arena, rpo, idoms, bi, true, fuel).value.1
    decreases |rpo| - bi
  {
    if bi < |rpo| {
      PassStep(arena, rpo, idoms, bi, true, fuel);
      if Meet(arena, rpo, idoms, bi, fuel).Ok? {
        var m := Meet(arena, rpo, idoms, bi, fuel).value;
        if idoms[bi] != m {
          PassChanges(arena, rpo, idoms[bi := m], bi + 1, fuel);
        } else {
          PassChanges(arena, rpo, idoms, bi + 1, fuel);
        }
      }
    }
  }

  lemma {:induction false} PassKeepsEntry(arena: seq<BasicBlock>, rpo: seq<BlockId>, idoms: seq<int>, bi: nat, changed: bool, fuel: nat)
    requires |idoms| == |rpo| >= 1 && bi >= 1
    requires Pass(arena, rpo, idoms, bi, changed, fuel).Ok?
    ensures Pass(arena, rpo, idoms, bi, changed, fuel).value.0[0] == idoms[0]
    decreases |rpo| - bi
  {
    if bi < |rpo| {
      PassStep(arena, rpo, idoms, bi, changed, fuel);
      var m := Meet(arena, rpo, idoms, bi, fuel).value;
      if idoms[bi] != m {
        PassKeepsEntry(arena, rpo, idoms[bi := m], bi + 1, true, fuel);
      } else {
        PassKeepsEntry(arena, rpo, idoms, bi + 1, changed, fuel);
      }
    }
  }

  /**
   * The loop stops at a fixed point: the entry keeps itself as idom, and recomputing any other
   * block's idom from the result gives the result again.
   */
  lemma {:induction false} RoundsFixpoint(arena: seq<BasicBlock>, rpo: seq<BlockId>, idoms: seq<int>, rounds: nat, fuel: nat)
    requires |idoms| == |rpo| >= 1
    requires Rounds(arena, rpo, idoms, rounds, fuel).Ok?
    ensures var out := Rounds(arena, rpo, idoms, rounds, fuel).value;
      out[0] == idoms[0] && forall j | 1 <= j < |rpo| :: Meet(arena, rpo, out, j, fuel) == Ok(out[j])
    decreases rounds
  {
    var next := Pass(arena, rpo, idoms, 1, false, fuel).value;
    PassKeepsEntry(arena, rpo, idoms, 1, false, fuel);
    if next.1 {
      RoundsFixpoint(arena, rpo, next.0, rounds - 1, fuel);
    } else {
      PassUnchanged(arena, rpo, idoms, 1, fuel, next.0);
    }
  }

  /** `CalculateDominators`' result is a fixed point whose entry is its own immediate dominator. */
  lemma IdomsFixpoint(arena: seq<BasicBlock>, rpo: seq<BlockId>, fuel: nat)
    requires |rpo| >= 1 && Idoms(arena, rpo, fuel).Ok?
    ensures Idoms(arena, rpo, fuel).value[0] == 0
    ensures forall j | 1 <= j < |rpo| :: Meet(arena, rpo, Idoms(arena, rpo, fuel).value, j, fuel) == Ok(Idoms(arena, rpo, fuel).value[j])
  {
    RoundsFixpoint(arena, rpo, Initial(|rpo|), fuel, fuel);
  }

  // ---------------------------------------------------------------------------------------
  // When the order is a reverse post-order

  /** Every predecessor of a listed block is listed. */
  predicate PredecessorsListed(arena: seq<BasicBlock>, rpo: seq<BlockId>) {
    forall i | 0 <= i < |rpo| :: rpo[i] < |arena| && forall p | p in arena[rpo[i]].predecessors :: p in rpo
  }

  /**
   * Every block after the first has a predecessor listed before it, as in a reverse post-order
   * of blocks all reached from the first (its parent in the depth-first walk).
   */
  predicate EarlierPredecessors(arena: seq<BasicBlock>, rpo: seq<BlockId>)
    requires PredecessorsListed(arena, rpo)
  {
    forall i | 1 <= i < |rpo| :: HasEarlierPredecessor(arena, rpo, i)
  }

  predicate HasEarlierPredecessor(arena: seq<BasicBlock>, rpo: seq<BlockId>, i: nat)
    requires PredecessorsListed(arena, rpo) && i < |rpo|
  {
    exists p | p in arena[rpo[i]].predecessors :: PositionOf(rpo, p) < i
  }

  lemma {:induction false} FirstKnownFound(rpo: seq<BlockId>, idoms: seq<int>, preds: seq<BlockId>, q: nat)
    requires |idoms| == |rpo| && q < |preds|
    requires forall p | p in preds :: p in rpo
    requires Known(idoms, PositionOf(rpo, preds[q]))
    ensures FirstKnown(rpo, idoms, preds).Ok?
    decreases q
  {
    if q > 0 && idoms[PositionOf(rpo, preds[0])] == -1 {
      FirstKnownFound(rpo, idoms, preds[1..], q - 1);
    }
  }

  /**
   * On ordered idoms the loop over the predecessors goes through: its result is known, no later
   * than the idom it started from, and no later than any known predecessor from the k-th on.
   */
  lemma {:induction false} RefineBelow(rpo: seq<BlockId>, idoms: seq<int>, preds: seq<BlockId>, k: nat, idom: int, fuel: nat)
    requires |idoms| == |rpo| && k <= |preds| && Ordered(idoms) && Known(idoms, idom)
    requires forall p | p in preds :: p in rpo
    requires fuel >= 2 * |rpo|
    ensures Refine(rpo, idoms, preds, k, idom, fuel).Ok?
    ensures var m := Refine(rpo, idoms, preds, k, idom, fuel).value;
      Known(idoms, m) && m <= idom &&
      forall j | k <= j < |preds| && Known(idoms, PositionOf(rpo, preds[j])) :: m <= PositionOf(rpo, preds[j])
    decreases |preds| - k
  {
    if k < |preds| {
      var pi := PositionOf(rpo, preds[k]);
      assert preds[k] in preds;
      if pi == idom || idoms[pi] == -1 {
        RefineBelow(rpo, idoms, preds, k + 1, idom, fuel);
      } else {
        IntersectBelow(idoms, pi, idom, fuel);
        var m := Intersect(idoms, pi, idom, fuel).value;
        RefineBelow(rpo, idoms, preds, k + 1, m, fuel);
      }
    }
  }

  /** Known positions before bi, on ordered idoms: the block at bi gets a known idom before it. */
  lemma MeetBelow(arena: seq<BasicBlock>, rpo: seq<BlockId>, idoms: seq<int>, bi: nat, fuel: nat)
    requires |idoms| == |rpo| && 1 <= bi < |rpo| && Ordered(idoms)
    requires PredecessorsListed(arena, rpo) && EarlierPredecessors(arena, rpo)
    requires forall x | 1 <= x < bi :: idoms[x] != -1
    requires fuel >= 2 * |rpo|
    ensures Meet(arena, rpo, idoms, bi, fuel).Ok?
    ensures var m := Meet(arena, rpo, idoms, bi, fuel).value; Known(idoms, m) && m < bi
  {
    var preds := arena[rpo[bi]].predecessors;
    assert HasEarlierPredecessor(arena, rpo, bi);
    var p :| p in preds && PositionOf(rpo, p) < bi;
    var q :| 0 <= q < |preds| && preds[q] == p;
    FirstKnownFound(rpo, idoms, preds, q);
    var first := FirstKnown(rpo, idoms, preds).value;
    RefineBelow(rpo, idoms, preds, 0, first, fuel);
  }

  /** Every position after the entry has a known idom before it. */
  predicate Settled(idoms: seq<int>) {
    |idoms| > 0 && idoms[0] == 0 && forall x | 1 <= x < |idoms| :: 0 <= idoms[x] < x
  }

  /** Setting a block's idom to a known position before it keeps the idoms ordered. */
  lemma SetKeepsOrdered(idoms: seq<int>, bi: nat, m: int)
    requires Ordered(idoms) && 1 <= bi < |idoms| && Known(idoms, m) && m < bi
    ensures Ordered(idoms[bi := m])
  {
    var next := idoms[bi := m];
    forall x, y | 1 <= x < |next| && 0 <= y < |next| && next[x] == y ensures next[y] != -1 {
      if x != bi {
        assert idoms[x] == y;
      }
    }
  }

  /** The step of PassSettles at a position before the end. */
  lemma PassSettlesStep(arena: seq<BasicBlock>, rpo: seq<BlockId>, idoms: seq<int>, bi: nat, changed: bool, fuel: nat)
    requires |idoms| == |rpo| && 1 <= bi < |rpo| && Ordered(idoms)
    requires PredecessorsListed(arena, rpo) && EarlierPredecessors(arena, rpo)
    requires forall x | 1 <= x < bi :: idoms[x] != -1
    requires fuel >= 2 * |rpo|
    ensures Meet(arena, rpo, idoms, bi, fuel).Ok?
    ensures var m := Meet(arena, rpo, idoms, bi, fuel).value;
      Ordered(idoms[bi := m]) && 0 <= m < bi &&
      Pass(arena, rpo, idoms, bi, changed, fuel) == Pass(arena, rpo, idoms[bi := m], bi + 1, changed || idoms[bi] != m, fuel)
  {
    MeetBelow(arena, rpo, idoms, bi, fuel);
    PassStep(arena, rpo, idoms, bi, changed, fuel);
    var m := Meet(arena, rpo, idoms, bi, fuel).value;
    SetKeepsOrdered(idoms, bi, m);
    if idoms[bi] == m {
      assert idoms[bi := m] == idoms;
    }
  }

  lemma {:induction false} PassSettles(arena: seq<BasicBlock>, rpo: seq<BlockId>, idoms: seq<int>, bi: nat, changed: bool, fuel: nat)
    requires |idoms| == |rpo| && 1 <= bi && Ordered(idoms)
    requires PredecessorsListed(arena, rpo) && EarlierPredecessors(arena, rpo)
    requires forall x | 1 <= x < bi && x < |rpo| :: idoms[x] != -1
    requires fuel >= 2 * |rpo|
    ensures Pass(arena, rpo, idoms, bi, changed, fuel).Ok?
    ensures Settled(Pass(arena, rpo, idoms, bi, changed, fuel).value.0)
    decreases |rpo| - bi
  {
    if bi < |rpo| {
      PassSettlesStep(arena, rpo, idoms, bi, changed, fuel);
      var m := Meet(arena, rpo, idoms, bi, fuel).value;
      var next := idoms[bi := m];
      forall x | 1 <= x < bi + 1 && x < |rpo| ensures next[x] != -1 {
        if x < bi {
          assert next[x] == idoms[x];
        }
      }
      PassSettles(arena, rpo, next, bi + 1, changed || idoms[bi] != m, fuel);
      assert Pass(arena, rpo, idoms, bi, changed, fuel) == Pass(arena, rpo, next, bi + 1, changed || idoms[bi] != m, fuel);
    } else {
      forall x | 1 <= x < |idoms| ensures 0 <= idoms[x] < x {
        assert idoms[x] != -1;
      }
      assert Pass(arena, rpo, idoms, bi, changed, fuel) == Ok((idoms, changed));
    }
  }

  lemma SettledOrdered(idoms: seq<int>)
    requires Settled(idoms)
    ensures Ordered(idoms)
  {
  }

  lemma {:induction false} RoundsSettle(arena: seq<BasicBlock>, rpo: seq<BlockId>, idoms: seq<int>, rounds: nat, fuel: nat)
    requires |idoms| == |rpo| >= 1 && Ordered(idoms)
    requires PredecessorsListed(arena, rpo) && EarlierPredecessors(arena, rpo)
    requires fuel >= 2 * |rpo|
    ensures Rounds(arena, rpo, idoms, rounds, fuel).Ok? || Rounds(arena, rpo, idoms, rounds, fuel) == Err(OutOfFuel)
    ensures Rounds(arena, rpo, idoms, rounds, fuel).Ok? ==> Settled(Rounds(arena, rpo, idoms, rounds, fuel).value)
    decreases rounds
  {
    if rounds > 0 {
      PassSettles(arena, rpo, idoms, 1, false, fuel);
      var next := Pass(arena, rpo, idoms, 1, false, fuel).value;
      SettledOrdered(next.0);
      if next.1 {
        assert Rounds(arena, rpo, idoms, rounds, fuel) == Rounds(arena, rpo, next.0, rounds - 1, fuel);
        RoundsSettle(arena, rpo, next.0, rounds - 1, fuel);
      } else {
        assert Rounds(arena, rpo, idoms, rounds, fuel) == Ok(next.0);
      }
    }
  }

  /**
   * On a reverse post-order whose blocks all have a predecessor earlier in it, the loop never
   * throws (it can only run out of fuel), and it gives every block after the entry an immediate
   * dominator before it.
   */
  lemma IdomsSettled(arena: seq<BasicBlock>, rpo: seq<BlockId>, fuel: nat)
    requires |rpo| >= 1 && PredecessorsListed(arena, rpo) && EarlierPredecessors(arena, rpo)
    requires fuel >= 2 * |rpo|
    ensures Idoms(arena, rpo, fuel).Ok? || Idoms(arena, rpo, fuel) == Err(OutOfFuel)
    ensures Idoms(arena, rpo, fuel).Ok? ==> Settled(Idoms(arena, rpo, fuel).value)
  {
    var init := Initial(|rpo|);
    assert Ordered(init);
    RoundsSettle(arena, rpo, init, fuel, fuel);
  }

  // ---------------------------------------------------------------------------------------
  // Dominator sets

  /**
   * The sets the last loop builds, by position from i on: a block's set is a copy of its idom's
   * set plus the block itself. An idom later than its block has no set yet (a null reference);
   * a block that is its own idom empties its fresh set before copying it.
   */
  function SetsFrom(rpo: seq<BlockId>, idoms: seq<int>, i: nat, acc: seq<set<BlockId>>): (r: Result<seq<set<BlockId>>>)
    requires |idoms| == |rpo| && |acc| == i <= |rpo|
    ensures r.Ok? ==> |r.value| == |rpo| && r.value[..i] == acc
    decreases |rpo| - i
  {
    if i == |rpo| then Ok(acc)
    else
      var d := idoms[i];
      if !(0 <= d < |rpo|) then Err(Thrown(IndexOutOfRange))
      else if d > i then Err(Thrown(NullReference))
      else
        var r := SetsFrom(rpo, idoms, i + 1, acc + [(if d == i then {} else acc[d]) + {rpo[i]}]);
        assert r.Ok? ==> r.value[..i] == (acc + [(if d == i then {} else acc[d]) + {rpo[i]}])[..i];
        r
  }

  /** The dominator set of every block, by position; the entry's is itself alone. */
  function DominatorSets(rpo: seq<BlockId>, idoms: seq<int>): (r: Result<seq<set<BlockId>>>)
    requires |idoms| == |rpo| >= 1
    ensures r.Ok? ==> |r.value| == |rpo|
  {
    SetsFrom(rpo, idoms, 1, [{rpo[0]}])
  }

  lemma {:induction false} SetsFromSettled(rpo: seq<BlockId>, idoms: seq<int>, i: nat, acc: seq<set<BlockId>>)
    requires |idoms| == |rpo| && 1 <= |acc| == i <= |rpo| && Settled(idoms)
    requires forall j | 0 <= j < i :: rpo[0] in acc[j] && rpo[j] in acc[j]
    ensures SetsFrom(rpo, idoms, i, acc).Ok?
    ensures forall j | 0 <= j < |rpo| :: rpo[0] in SetsFrom(rpo, idoms, i, acc).value[j] && rpo[j] in SetsFrom(rpo, idoms, i, acc).value[j]
    decreases |rpo| - i
  {
    if i < |rpo| {
      var d := idoms[i];
      var acc' := acc + [acc[d] + {rpo[i]}];
      assert rpo[0] in acc[d];
      SetsFromSettled(rpo, idoms, i + 1, acc');
    }
  }

  /**
   * Once every block after the entry has an idom before it, every set is built, and each holds
   * the entry and the block itself: the entry dominates every block.
   */
  lemma EntryDominatesAll(rpo: seq<BlockId>, idoms: seq<int>)
    requires |idoms| == |rpo| >= 1 && Settled(idoms)
    ensures DominatorSets(rpo, idoms).Ok?
    ensures forall j | 0 <= j < |rpo| :: rpo[0] in DominatorSets(rpo, idoms).value[j] && rpo[j] in DominatorSets(rpo, idoms).value[j]
  {
    SetsFromSettled(rpo, idoms, 1, [{rpo[0]}]);
  }

  /** Each set is exactly its idom's set with the block added. */
  lemma {:induction false} SetsFromLinks(rpo: seq<BlockId>, idoms: seq<int>, i: nat, acc: seq<set<BlockId>>)
    requires |idoms| == |rpo| && 1 <= |acc| == i <= |rpo| && Settled(idoms)
    requires forall j | 1 <= j < i :: acc[j] == acc[idoms[j]] + {rpo[j]}
    ensures SetsFrom(rpo, idoms, i, acc).Ok?
    ensures var s := SetsFrom(rpo, idoms, i, acc).value; forall j | 1 <= j < |rpo| :: s[j] == s[idoms[j]] + {rpo[j]}
    decreases |rpo| - i
  {
    if i < |rpo| {
      var d := idoms[i];
      var acc' := acc + [acc[d] + {rpo[i]}];
      SetsFromLinks(rpo, idoms, i + 1, acc');
    }
  }

  // ---------------------------------------------------------------------------------------
  // The loops, over the `idoms` array

  /** `Intersect`, with the two nested climbing loops of the source. */
  method IntersectIn(idoms: array<int>, b1: int, b2: int, fuel: nat) returns (r: Result<int>)
    ensures r == Intersect(idoms[..], b1, b2, fuel)
  {
    var x, y, f := b1, b2, fuel;
    while x != y
      invariant Intersect(idoms[..], x, y, f) == Intersect(idoms[..], b1, b2, fuel)
      decreases f, if x != y then 1 else 0
    {
      ghost var f0, x0, y0 := f, x, y;
      while x > y
        invariant Intersect(idoms[..], x, y, f) == Intersect(idoms[..], b1, b2, fuel)
        invariant f <= f0 && (f == f0 ==> x == x0 && y == y0)
        decreases f
      {
        if f == 0 {
          return Err(OutOfFuel);
        }
        if !(0 <= x < idoms.Length) {
          return Err(Thrown(ArrayIndexOutside));
        }
        x, f := idoms[x], f - 1;
      }
      while y > x
        invariant Intersect(idoms[..], x, y, f) == Intersect(idoms[..], b1, b2, fuel)
        invariant f <= f0 && (f == f0 ==> x == x0 && y == y0 && x <= y)
        decreases f
      {
        if f == 0 {
          return Err(OutOfFuel);
        }
        if !(0 <= y < idoms.Length) {
          return Err(Thrown(ArrayIndexOutside));
        }
        y, f := idoms[y], f - 1;
      }
    }
    return Ok(x);
  }

  /** The body of the `for` loop up to the comparison: the block's idom from the current array. */
  method MeetIn(arena: seq<BasicBlock>, rpo: seq<BlockId>, idoms: array<int>, bi: nat, fuel: nat) returns (r: Result<int>)
    requires idoms.Length == |rpo| && bi < |rpo|
    ensures r == Meet(arena, rpo, idoms[..], bi, fuel)
  {
    var preds := PredecessorsAt(arena, rpo, bi);
    if preds.Err? {
      return Err(preds.error);
    }
    var first := FirstKnown(rpo, idoms[..], preds.value);
    if first.Err? {
      return Err(first.error);
    }
    var idom := first.value;
    var k := 0;
    while k < |preds.value|
      invariant k <= |preds.value|
      invariant Refine(rpo, idoms[..], preds.value, k, idom, fuel) == Meet(arena, rpo, idoms[..], bi, fuel)
    {
      var pi := PositionOf(rpo, preds.value[k]);
      if pi != idom {
        if pi == -1 {
          return Err(Thrown(ArrayIndexOutside));
        }
        if idoms[pi] != -1 {
          var m := IntersectIn(idoms, pi, idom, fuel);
          if m.Err? {
            return Err(m.error);
          }
          idom := m.value;
        }
      }
      k := k + 1;
    }
    return Ok(idom);
  }

  /**
   * The `idoms` array of `CalculateDominators`: filled with -1 but for the entry, then swept
   * from position 1 while a sweep changed something.
   */
  method ComputeIdoms(arena: seq<BasicBlock>, rpo: seq<BlockId>, fuel: nat) returns (r: Result<seq<int>>)
    requires |rpo| >= 1
    ensures r == Idoms(arena, rpo, fuel)
  {
    var idoms := new int[|rpo|](_ => -1);
    idoms[0] := 0;
    assert idoms[..] == Initial(|rpo|);
    var changed := true;
    var rounds := fuel;
    while changed
      invariant changed ==> Rounds(arena, rpo, idoms[..], rounds, fuel) == Idoms(arena, rpo, fuel)
      invariant !changed ==> Ok(idoms[..]) == Idoms(arena, rpo, fuel)
      decreases rounds, changed
    {
      if rounds == 0 {
        return Err(OutOfFuel);
      }
      ghost var before := idoms[..];
      changed := false;
      var bi := 1;
      while bi < |rpo|
        invariant 1 <= bi <= |rpo|
        invariant Pass(arena, rpo, idoms[..], bi, changed, fuel) == Pass(arena, rpo, before, 1, false, fuel)
      {
        var m := MeetIn(arena, rpo, idoms, bi, fuel);
        PassStep(arena, rpo, idoms[..], bi, changed, fuel);
        if m.Err? {
          return Err(m.error);
        }
        if idoms[bi] != m.value {
          idoms[bi] := m.value;
          changed := true;
        }
        bi := bi + 1;
      }
      rounds := rounds - 1;
    }
    return Ok(idoms[..]);
  }

  /** The last loop of `CalculateDominators`: each block's set from its idom's, in rpo order. */
  method PopulateSets(rpo: seq<BlockId>, idoms: seq<int>) returns (r: Result<seq<set<BlockId>>>)
    requires |idoms| == |rpo| >= 1
    ensures r == DominatorSets(rpo, idoms)
  {
    var sets := [{rpo[0]}];
    var i := 1;
    while i < |rpo|
      invariant |sets| == i <= |rpo|
      invariant SetsFrom(rpo, idoms, i, sets) == DominatorSets(rpo, idoms)
    {
      var d := idoms[i];
      if !(0 <= d < |rpo|) {
        return Err(Thrown(IndexOutOfRange));
      }
      if d > i {
        return Err(Thrown(NullReference));
      }
      var dominators: set<BlockId> := if d == i then {} else sets[d];
      sets := sets + [dominators + {rpo[i]}];
      i := i + 1;
    }
    return Ok(sets);
  }
}

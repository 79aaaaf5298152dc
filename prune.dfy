// The last step of `AnalyzeFunction` in src/MajiroLib/Script/Analysis/ControlFlow/ControlFlowPass.cs:
// the worklist that drops the edges out of unreachable blocks. A block with no predecessor
// that is not the entry block is unreachable; dropping its edges can leave its successors
// without predecessors, and they are dropped in turn. Blocks on a cycle that nothing reaches
// keep each other's edges, exactly as in the source.

module Pruning {
  import opened Wrappers
  import opened Instructions
  import opened Graph
  import opened FunctionAnalysis

  /** `List.Remove`: the list without its first occurrence of x, if it has one. */
  function RemoveFirst(s: seq<BlockId>, x: BlockId): (r: seq<BlockId>)
    ensures x !in s ==> r == s
    ensures x in s ==> |r| == |s| - 1
  {
    if |s| == 0 then []
    else if s[0] == x then s[1..]
    else [s[0]] + RemoveFirst(s[1..], x)
  }

  /** The entries of s that are not in the set, in order. */
  function Live(s: seq<BlockId>, gone: set<BlockId>): (r: seq<BlockId>)
    ensures forall x :: x in r <==> x in s && x !in gone
    ensures |r| <= |s|
  {
    if |s| == 0 then [] else (if s[0] in gone then [] else [s[0]]) + Live(s[1..], gone)
  }

  lemma {:induction false} LiveNone(s: seq<BlockId>)
    ensures Live(s, {}) == s
  {
    if |s| > 0 {
      LiveNone(s[1..]);
    }
  }

  lemma {:induction false} LiveDistinct(s: seq<BlockId>, gone: set<BlockId>)
    requires Distinct(s)
    ensures Distinct(Live(s, gone))
  {
    if |s| > 0 {
      assert Distinct(s[1..]);
      LiveDistinct(s[1..], gone);
      assert s[0] !in s[1..];
    }
  }

  lemma {:induction false} LiveEmpty(s: seq<BlockId>, gone: set<BlockId>)
    requires forall x | x in s :: x in gone
    ensures Live(s, gone) == []
  {
    if |s| > 0 {
      assert s[0] in s;
      LiveEmpty(s[1..], gone);
    }
  }

  /** Removing x changes nothing when x is not listed. */
  lemma {:induction false} LiveWithout(s: seq<BlockId>, gone: set<BlockId>, x: BlockId)
    requires x !in s
    ensures Live(s, gone + {x}) == Live(s, gone)
  {
    if |s| > 0 {
      LiveWithout(s[1..], gone, x);
    }
  }

  /** `Remove` on the live predecessors: with each listed once, the removed block is gone. */
  lemma {:induction false} RemoveLive(s: seq<BlockId>, gone: set<BlockId>, x: BlockId)
    requires Distinct(s)
    ensures RemoveFirst(Live(s, gone), x) == Live(s, gone + {x})
  {
    if |s| > 0 {
      var h, t := s[0], s[1..];
      assert Distinct(t);
      var rest := Live(t, gone);
      if h in gone {
        RemoveLive(t, gone, x);
        assert Live(s, gone) == rest;
        assert Live(s, gone + {x}) == Live(t, gone + {x});
      } else if h == x {
        assert x !in t;
        LiveWithout(t, gone, x);
        var l := Live(s, gone);
        assert l == [x] + rest;
        assert l[0] == x && l[1..] == rest;
        assert Live(s, gone + {x}) == Live(t, gone + {x});
      } else {
        RemoveLive(t, gone, x);
        var l := Live(s, gone);
        assert l == [h] + rest;
        assert l[0] == h && l[1..] == rest;
        assert RemoveFirst(l, x) == [h] + RemoveFirst(rest, x);
        assert Live(s, gone + {x}) == [h] + Live(t, gone + {x});
      }
    }
  }

  /** Block k is unreachable once the blocks in gone have dropped their edges. */
  predicate Dead(arena: seq<BasicBlock>, gone: set<BlockId>, k: nat)
    requires k < |arena|
  {
    !arena[k].isEntryBlock && Live(arena[k].predecessors, gone) == []
  }

  /** Each block of the order is dropped only once all its predecessors were. */
  predicate Ordered(arena: seq<BasicBlock>, order: seq<BlockId>) {
    forall i | 0 <= i < |order| ::
      order[i] < |arena| && !arena[order[i]].isEntryBlock &&
      forall p | p in arena[order[i]].predecessors :: p in order[..i]
  }

  /** The blocks once those in gone have dropped their edges: no successors, and no longer anyone's predecessor. */
  function Dropped(arena: seq<BasicBlock>, gone: set<BlockId>, k: nat): BasicBlock
    requires k < |arena|
  {
    arena[k].(successors := if k in gone then [] else arena[k].successors,
              predecessors := Live(arena[k].predecessors, gone))
  }

  /** The state of the outer loop: the dropped blocks, and the queue, which holds the other unreachable ones. */
  ghost predicate Pruning(g: seq<BasicBlock>, arena: seq<BasicBlock>, gone: set<BlockId>, queue: seq<BlockId>, order: seq<BlockId>) {
    |arena| == |g| &&
    (forall k | 0 <= k < |g| :: arena[k] == Dropped(g, gone, k)) &&
    (forall k | k in gone :: k < |g|) && (forall i | 0 <= i < |queue| :: queue[i] < |g| && queue[i] !in gone) &&
    Distinct(queue) &&
    (forall k | 0 <= k < |g| :: (k in gone || k in queue) <==> Dead(g, gone, k)) &&
    Ordered(g, order) && (forall k :: k in order <==> k in gone)
  }

  /** The blocks above the ones in gone. */
  function Remaining(n: nat, gone: set<BlockId>): set<nat> {
    set k | 0 <= k < n && k !in gone
  }

  /**
   * The unreachable-block worklist. Every block that is not the entry and has no predecessor
   * is queued; each block taken from the queue is removed from the predecessors of each of its
   * successors, a successor left without predecessors is queued, and the block's successors
   * are cleared. The dropped blocks are exactly those forced to be unreachable: each was
   * dropped after all its predecessors, and every other block keeps a live predecessor or is
   * the entry.
   */
  method PruneUnreachable(g: seq<BasicBlock>) returns (arena: seq<BasicBlock>, ghost gone: set<BlockId>, ghost order: seq<BlockId>)
    requires WellLinked(g)
    ensures |arena| == |g| && forall k | 0 <= k < |g| :: arena[k] == Dropped(g, gone, k)
    ensures forall k | 0 <= k < |g| :: k in gone <==> Dead(g, gone, k)
    ensures (forall k | k in gone :: k < |g|) && Ordered(g, order) && forall k :: k in order <==> k in gone
  {
    var queue := Unreachables(g);
    arena := g;
    gone := {};
    order := [];
    PruneStart(g, queue);
    while |queue| > 0
      invariant Pruning(g, arena, gone, queue, order)
      decreases |Remaining(|g|, gone)|, |queue|
    {
      arena, queue, gone, order := DropBlock(g, arena, gone, queue, order);
    }
  }

  /** The blocks the queue starts with, in block order. */
  method Unreachables(g: seq<BasicBlock>) returns (queue: seq<BlockId>)
    ensures forall i | 0 <= i < |queue| :: queue[i] < |g|
    ensures forall k | 0 <= k < |g| :: k in queue <==> IsUnreachable(g[k])
    ensures Distinct(queue)
  {
    queue := [];
    for k := 0 to |g|
      invariant forall i | 0 <= i < |queue| :: queue[i] < k
      invariant Distinct(queue)
      invariant forall j | 0 <= j < k :: j in queue <==> IsUnreachable(g[j])
    {
      if IsUnreachable(g[k]) {
        queue := queue + [k];
      }
    }
  }

  lemma PruneStart(g: seq<BasicBlock>, queue: seq<BlockId>)
    requires forall i | 0 <= i < |queue| :: queue[i] < |g|
    requires forall k | 0 <= k < |g| :: k in queue <==> IsUnreachable(g[k])
    requires Distinct(queue)
    ensures Pruning(g, g, {}, queue, [])
  {
    forall k | 0 <= k < |g| ensures g[k] == Dropped(g, {}, k) && (Dead(g, {}, k) <==> IsUnreachable(g[k])) {
      LiveNone(g[k].predecessors);
    }
  }

  /** The blocks a successor k of b sees as dropped: once the inner loop has passed it, b too. */
  function Seen(succs: seq<BlockId>, i: nat, gone: set<BlockId>, b: BlockId, k: nat): set<BlockId>
    requires i <= |succs|
  {
    if k in succs[..i] then gone + {b} else gone
  }

  /** The inner loop's state: the successors of b before i no longer list b. */
  ghost predicate Dropping(g: seq<BasicBlock>, arena: seq<BasicBlock>, gone: set<BlockId>, queue: seq<BlockId>,
                           b: BlockId, succs: seq<BlockId>, i: nat) {
    |arena| == |g| && b < |g| && b !in gone && Dead(g, gone, b) && succs == g[b].successors && i <= |succs| &&
    (forall k | 0 <= k < |g| ::
       arena[k] == g[k].(successors := if k in gone then [] else g[k].successors,
                         predecessors := Live(g[k].predecessors, Seen(succs, i, gone, b, k)))) &&
    (forall k | k in gone :: k < |g|) && (forall j | 0 <= j < |queue| :: queue[j] < |g| && queue[j] !in gone && queue[j] != b) &&
    Distinct(queue) &&
    (forall k | 0 <= k < |g| :: (k in gone || k == b || k in queue) <==> Dead(g, Seen(succs, i, gone, b, k), k))
  }

  /** One turn of the outer loop: the block at the head of the queue is dropped. */
  method DropBlock(g: seq<BasicBlock>, arena0: seq<BasicBlock>, ghost gone0: set<BlockId>, queue0: seq<BlockId>,
                   ghost order0: seq<BlockId>)
    returns (arena: seq<BasicBlock>, queue: seq<BlockId>, ghost gone: set<BlockId>, ghost order: seq<BlockId>)
    requires WellLinked(g) && |queue0| > 0
    requires Pruning(g, arena0, gone0, queue0, order0)
    ensures Pruning(g, arena, gone, queue, order)
    ensures |Remaining(|g|, gone)| < |Remaining(|g|, gone0)|
  {
    var b := queue0[0];
    queue := queue0[1..];
    arena := arena0;
    var succs := arena[b].successors;
    DropStart(g, arena, gone0, queue0, order0);
    for i := 0 to |succs|
      invariant Dropping(g, arena, gone0, queue, b, succs, i)
    {
      var s := succs[i];
      DropStepReady(g, arena, gone0, queue, b, succs, i);
      ghost var arena1, queue1 := arena, queue;
      var next := arena[s].(predecessors := RemoveFirst(arena[s].predecessors, b));
      arena := arena[s := next];
      if IsUnreachable(next) {
        queue := queue + [s];
      }
      DropStep(g, arena1, gone0, queue1, b, succs, i, arena, queue);
    }
    ghost var arena2 := arena;
    gone := gone0 + {b};
    order := order0 + [b];
    arena := arena[b := arena[b].(successors := [])];
    DropEnd(g, arena0, gone0, queue0, order0, arena2, queue, arena);
    assert Remaining(|g|, gone) == Remaining(|g|, gone0) - {b};
  }

  lemma DropStart(g: seq<BasicBlock>, arena: seq<BasicBlock>, gone: set<BlockId>, queue: seq<BlockId>, order: seq<BlockId>)
    requires |queue| > 0 && Pruning(g, arena, gone, queue, order)
    ensures Dropping(g, arena, gone, queue[1..], queue[0], arena[queue[0]].successors, 0)
  {
    var b := queue[0];
    assert queue == [b] + queue[1..];
    forall j | 0 <= j < |queue| - 1 ensures queue[1..][j] != b {
      assert queue[1..][j] == queue[j + 1];
    }
    assert arena[b] == Dropped(g, gone, b);
  }

  lemma DropStepReady(g: seq<BasicBlock>, arena: seq<BasicBlock>, gone: set<BlockId>, queue: seq<BlockId>,
                      b: BlockId, succs: seq<BlockId>, i: nat)
    requires WellLinked(g) && i < |succs| && Dropping(g, arena, gone, queue, b, succs, i)
    ensures succs[i] < |arena|
  {
    assert succs[i] in g[b].successors;
  }

  /** What one successor s of b sees: it no longer lists b, and is queued when that leaves it unreachable. */
  lemma DropStepAt(g: seq<BasicBlock>, arena1: seq<BasicBlock>, gone: set<BlockId>, queue1: seq<BlockId>,
                   b: BlockId, succs: seq<BlockId>, i: nat, arena: seq<BasicBlock>, queue: seq<BlockId>, k: nat)
    requires WellLinked(g) && i < |succs| && Dropping(g, arena1, gone, queue1, b, succs, i) && k < |g|
    requires succs[i] < |g|
    requires arena == arena1[succs[i] := arena1[succs[i]].(predecessors := RemoveFirst(arena1[succs[i]].predecessors, b))]
    requires queue == (if IsUnreachable(arena[succs[i]]) then queue1 + [succs[i]] else queue1)
    ensures arena[k] == g[k].(successors := if k in gone then [] else g[k].successors,
                              predecessors := Live(g[k].predecessors, Seen(succs, i + 1, gone, b, k)))
    ensures (k in gone || k == b || k in queue) <==> Dead(g, Seen(succs, i + 1, gone, b, k), k)
    ensures k == succs[i] ==> k !in queue1 && k !in gone && k != b
  {
    SeenNext(succs, i, gone, b, k);
    if k == succs[i] {
      DropStepHit(g, arena1, gone, queue1, b, succs, i);
    } else {
      assert arena[k] == arena1[k];
    }
  }

  lemma SeenNext(succs: seq<BlockId>, i: nat, gone: set<BlockId>, b: BlockId, k: nat)
    requires i < |succs| && Distinct(succs)
    ensures k != succs[i] ==> Seen(succs, i + 1, gone, b, k) == Seen(succs, i, gone, b, k)
    ensures Seen(succs, i, gone, b, succs[i]) == gone && Seen(succs, i + 1, gone, b, succs[i]) == gone + {b}
  {
    assert succs[..i + 1] == succs[..i] + [succs[i]];
    forall j | 0 <= j < i ensures succs[..i][j] != succs[i] {
      assert succs[..i][j] == succs[j];
    }
  }

  /** The successor itself: its live predecessors lose b, and it was not queued before, since b was live. */
  lemma DropStepHit(g: seq<BasicBlock>, arena1: seq<BasicBlock>, gone: set<BlockId>, queue1: seq<BlockId>,
                    b: BlockId, succs: seq<BlockId>, i: nat)
    requires WellLinked(g) && i < |succs| && Dropping(g, arena1, gone, queue1, b, succs, i) && succs[i] < |g|
    ensures RemoveFirst(arena1[succs[i]].predecessors, b) == Live(g[succs[i]].predecessors, gone + {b})
    ensures arena1[succs[i]].(predecessors := RemoveFirst(arena1[succs[i]].predecessors, b)) ==
            g[succs[i]].(successors := if succs[i] in gone then [] else g[succs[i]].successors,
                         predecessors := Live(g[succs[i]].predecessors, gone + {b}))
    ensures succs[i] !in queue1 && succs[i] !in gone && succs[i] != b
  {
    var s := succs[i];
    SeenNext(succs, i, gone, b, s);
    assert arena1[s].predecessors == Live(g[s].predecessors, gone);
    assert Distinct(g[s].predecessors);
    RemoveLive(g[s].predecessors, gone, b);
    assert b in g[s].predecessors;
    assert b in Live(g[s].predecessors, gone);
  }

  lemma DropStep(g: seq<BasicBlock>, arena1: seq<BasicBlock>, gone: set<BlockId>, queue1: seq<BlockId>,
                 b: BlockId, succs: seq<BlockId>, i: nat, arena: seq<BasicBlock>, queue: seq<BlockId>)
    requires WellLinked(g) && i < |succs| && Dropping(g, arena1, gone, queue1, b, succs, i)
    requires succs[i] < |g|
    requires arena == arena1[succs[i] := arena1[succs[i]].(predecessors := RemoveFirst(arena1[succs[i]].predecessors, b))]
    requires queue == (if IsUnreachable(arena[succs[i]]) then queue1 + [succs[i]] else queue1)
    ensures Dropping(g, arena, gone, queue, b, succs, i + 1)
  {
    DropStepBlocks(g, arena1, gone, queue1, b, succs, i, arena, queue);
    DropStepHit(g, arena1, gone, queue1, b, succs, i);
    DropStepQueue(g, gone, queue1, b, succs[i], queue);
    DroppingIntro(g, arena, gone, queue, b, succs, i + 1);
  }

  lemma DropStepQueue(g: seq<BasicBlock>, gone: set<BlockId>, queue1: seq<BlockId>, b: BlockId, s: BlockId,
                      queue: seq<BlockId>)
    requires Distinct(queue1) && forall j | 0 <= j < |queue1| :: queue1[j] < |g| && queue1[j] !in gone && queue1[j] != b
    requires s < |g| && s !in queue1 && s !in gone && s != b
    requires queue == queue1 || queue == queue1 + [s]
    ensures Distinct(queue)
    ensures forall j | 0 <= j < |queue| :: queue[j] < |g| && queue[j] !in gone && queue[j] != b
  {
    DistinctJoin(queue1, [s]);
  }

  lemma DroppingIntro(g: seq<BasicBlock>, arena: seq<BasicBlock>, gone: set<BlockId>, queue: seq<BlockId>,
                      b: BlockId, succs: seq<BlockId>, i: nat)
    requires |arena| == |g| && b < |g| && b !in gone && Dead(g, gone, b) && succs == g[b].successors && i <= |succs|
    requires forall k | 0 <= k < |g| ::
      arena[k] == g[k].(successors := if k in gone then [] else g[k].successors,
                        predecessors := Live(g[k].predecessors, Seen(succs, i, gone, b, k)))
    requires (forall k | k in gone :: k < |g|) && Distinct(queue)
    requires forall j | 0 <= j < |queue| :: queue[j] < |g| && queue[j] !in gone && queue[j] != b
    requires forall k | 0 <= k < |g| :: (k in gone || k == b || k in queue) <==> Dead(g, Seen(succs, i, gone, b, k), k)
    ensures Dropping(g, arena, gone, queue, b, succs, i)
  {
  }

  lemma DropStepBlocks(g: seq<BasicBlock>, arena1: seq<BasicBlock>, gone: set<BlockId>, queue1: seq<BlockId>,
                       b: BlockId, succs: seq<BlockId>, i: nat, arena: seq<BasicBlock>, queue: seq<BlockId>)
    requires WellLinked(g) && i < |succs| && Dropping(g, arena1, gone, queue1, b, succs, i)
    requires succs[i] < |g|
    requires arena == arena1[succs[i] := arena1[succs[i]].(predecessors := RemoveFirst(arena1[succs[i]].predecessors, b))]
    requires queue == (if IsUnreachable(arena[succs[i]]) then queue1 + [succs[i]] else queue1)
    ensures forall k | 0 <= k < |g| ::
      arena[k] == g[k].(successors := if k in gone then [] else g[k].successors,
                        predecessors := Live(g[k].predecessors, Seen(succs, i + 1, gone, b, k)))
    ensures forall k | 0 <= k < |g| :: (k in gone || k == b || k in queue) <==> Dead(g, Seen(succs, i + 1, gone, b, k), k)
  {
    forall k | 0 <= k < |g|
      ensures arena[k] == g[k].(successors := if k in gone then [] else g[k].successors,
                                predecessors := Live(g[k].predecessors, Seen(succs, i + 1, gone, b, k)))
      ensures (k in gone || k == b || k in queue) <==> Dead(g, Seen(succs, i + 1, gone, b, k), k)
    {
      DropStepAt(g, arena1, gone, queue1, b, succs, i, arena, queue, k);
    }
  }

  /** After the last successor: b is dropped, and every block sees b as gone. */
  lemma DropEndAt(g: seq<BasicBlock>, gone: set<BlockId>, queue: seq<BlockId>, b: BlockId, arena2: seq<BasicBlock>, arena: seq<BasicBlock>, k: nat)
    requires WellLinked(g) && b < |g| && Dropping(g, arena2, gone, queue, b, g[b].successors, |g[b].successors|) && k < |g|
    requires arena == arena2[b := arena2[b].(successors := [])]
    ensures arena[k] == Dropped(g, gone + {b}, k)
    ensures (k in gone || k == b || k in queue) <==> Dead(g, gone + {b}, k)
  {
    var succs := g[b].successors;
    assert succs[..|succs|] == succs;
    if k in succs {
      assert Seen(succs, |succs|, gone, b, k) == gone + {b};
    } else {
      assert Seen(succs, |succs|, gone, b, k) == gone;
      assert b !in g[k].predecessors;
      LiveWithout(g[k].predecessors, gone, b);
    }
    if k == b {
      assert arena[b].successors == [] == Dropped(g, gone + {b}, b).successors;
      assert arena[b].predecessors == Dropped(g, gone + {b}, b).predecessors;
    } else {
      assert arena[k] == arena2[k];
    }
  }

  lemma DropEnd(g: seq<BasicBlock>, arena0: seq<BasicBlock>, gone: set<BlockId>, queue0: seq<BlockId>, order: seq<BlockId>,
                arena2: seq<BasicBlock>, queue: seq<BlockId>, arena: seq<BasicBlock>)
    requires WellLinked(g) && |queue0| > 0 && Pruning(g, arena0, gone, queue0, order)
    requires Dropping(g, arena2, gone, queue, queue0[0], g[queue0[0]].successors, |g[queue0[0]].successors|)
    requires arena == arena2[queue0[0] := arena2[queue0[0]].(successors := [])]
    ensures Pruning(g, arena, gone + {queue0[0]}, queue, order + [queue0[0]])
  {
    var b := queue0[0];
    DropEndBlocks(g, gone, queue, b, arena2, arena);
    DropEndOrder(g, gone, queue, b, arena2, order);
    PruningIntro(g, arena, gone + {b}, queue, order + [b]);
  }

  lemma DropEndBlocks(g: seq<BasicBlock>, gone: set<BlockId>, queue: seq<BlockId>, b: BlockId, arena2: seq<BasicBlock>, arena: seq<BasicBlock>)
    requires WellLinked(g) && b < |g| && Dropping(g, arena2, gone, queue, b, g[b].successors, |g[b].successors|)
    requires arena == arena2[b := arena2[b].(successors := [])]
    ensures |arena| == |g| && forall k | 0 <= k < |g| :: arena[k] == Dropped(g, gone + {b}, k)
    ensures forall k | 0 <= k < |g| :: (k in gone + {b} || k in queue) <==> Dead(g, gone + {b}, k)
    ensures (forall k | k in gone + {b} :: k < |g|) && Distinct(queue)
    ensures forall j | 0 <= j < |queue| :: queue[j] < |g| && queue[j] !in gone + {b}
  {
    forall k | 0 <= k < |g|
      ensures arena[k] == Dropped(g, gone + {b}, k)
      ensures (k in gone || k == b || k in queue) <==> Dead(g, gone + {b}, k)
    {
      DropEndAt(g, gone, queue, b, arena2, arena, k);
    }
  }

  lemma DropEndOrder(g: seq<BasicBlock>, gone: set<BlockId>, queue: seq<BlockId>, b: BlockId, arena2: seq<BasicBlock>, order: seq<BlockId>)
    requires b < |g| && Dropping(g, arena2, gone, queue, b, g[b].successors, |g[b].successors|)
    requires Ordered(g, order) && forall k :: k in order <==> k in gone
    ensures Ordered(g, order + [b]) && forall k :: k in order + [b] <==> k in gone + {b}
  {
    forall p | p in g[b].predecessors ensures p in order {
      assert p !in Live(g[b].predecessors, gone);
    }
    OrderedStep(g, order, b);
  }

  lemma PruningIntro(g: seq<BasicBlock>, arena: seq<BasicBlock>, gone: set<BlockId>, queue: seq<BlockId>, order: seq<BlockId>)
    requires |arena| == |g| && forall k | 0 <= k < |g| :: arena[k] == Dropped(g, gone, k)
    requires forall k | 0 <= k < |g| :: (k in gone || k in queue) <==> Dead(g, gone, k)
    requires (forall k | k in gone :: k < |g|) && Distinct(queue)
    requires forall j | 0 <= j < |queue| :: queue[j] < |g| && queue[j] !in gone
    requires Ordered(g, order) && forall k :: k in order <==> k in gone
    ensures Pruning(g, arena, gone, queue, order)
  {
  }

  lemma OrderedStep(g: seq<BasicBlock>, order: seq<BlockId>, b: BlockId)
    requires Ordered(g, order) && b < |g| && !g[b].isEntryBlock
    requires forall p | p in g[b].predecessors :: p in order
    ensures Ordered(g, order + [b])
  {
    var o := order + [b];
    forall i | 0 <= i < |o|
      ensures o[i] < |g| && !g[o[i]].isEntryBlock && forall p | p in g[o[i]].predecessors :: p in o[..i]
    {
      if i < |order| {
        assert o[..i] == order[..i];
      } else {
        assert o[..i] == order;
      }
    }
  }

  /** The state `PruneUnreachable` ends in, as its postconditions describe it. */
  ghost predicate PrunedTo(g: seq<BasicBlock>, arena: seq<BasicBlock>, gone: set<BlockId>, order: seq<BlockId>) {
    |arena| == |g| && (forall k | 0 <= k < |g| :: arena[k] == Dropped(g, gone, k)) &&
    (forall k | 0 <= k < |g| :: k in gone <==> Dead(g, gone, k)) &&
    (forall k | k in gone :: k < |g|) && Ordered(g, order) && forall k :: k in order <==> k in gone
  }

  /**
   * The dropped blocks are the least set closed under "unreachable once the set is dropped":
   * any set of blocks that takes in every block it leaves without a live predecessor holds them all.
   */
  lemma PrunedLeast(g: seq<BasicBlock>, arena: seq<BasicBlock>, gone: set<BlockId>, order: seq<BlockId>, closed: set<BlockId>)
    requires PrunedTo(g, arena, gone, order)
    requires forall k | 0 <= k < |g| :: Dead(g, closed, k) ==> k in closed
    ensures gone <= closed
  {
    OrderClosed(g, order, closed, |order|);
  }

  lemma {:induction false} OrderClosed(g: seq<BasicBlock>, order: seq<BlockId>, closed: set<BlockId>, m: nat)
    requires Ordered(g, order) && m <= |order|
    requires forall k | 0 <= k < |g| :: Dead(g, closed, k) ==> k in closed
    ensures forall i | 0 <= i < m :: order[i] in closed
  {
    if m > 0 {
      OrderClosed(g, order, closed, m - 1);
      var b := order[m - 1];
      forall p | p in g[b].predecessors ensures p in closed {
        var i :| 0 <= i < m - 1 && order[..m - 1][i] == p;
        assert order[i] == p;
      }
      LiveEmpty(g[b].predecessors, closed);
    }
  }

  /** After pruning, a block is unreachable exactly when it was dropped; dropped blocks have no edges left. */
  lemma PrunedUnreachable(g: seq<BasicBlock>, arena: seq<BasicBlock>, gone: set<BlockId>, order: seq<BlockId>, k: nat)
    requires PrunedTo(g, arena, gone, order) && k < |g|
    ensures IsUnreachable(arena[k]) <==> k in gone
    ensures k in gone ==> Unlinked(arena[k])
  {
    assert arena[k] == Dropped(g, gone, k);
    if k in gone {
      assert Dead(g, gone, k);
    }
  }

  /** Pruning keeps the edge lists well formed. */
  lemma PrunedWellLinked(g: seq<BasicBlock>, arena: seq<BasicBlock>, gone: set<BlockId>, order: seq<BlockId>)
    requires WellLinked(g) && PrunedTo(g, arena, gone, order)
    ensures WellLinked(arena)
  {
    forall k | 0 <= k < |g| ensures Distinct(arena[k].successors) && Distinct(arena[k].predecessors) {
      assert arena[k] == Dropped(g, gone, k);
      LiveDistinct(g[k].predecessors, gone);
    }
    forall k, j | 0 <= k < |g| && 0 <= j < |g| ensures j in arena[k].successors <==> k in arena[j].predecessors {
      assert arena[k] == Dropped(g, gone, k);
      assert arena[j] == Dropped(g, gone, j);
    }
  }

  /** The pruning is determined: two runs from the same blocks drop the same blocks and leave the same arena. */
  lemma PrunedUnique(g: seq<BasicBlock>, a1: seq<BasicBlock>, gone1: set<BlockId>, o1: seq<BlockId>,
                     a2: seq<BasicBlock>, gone2: set<BlockId>, o2: seq<BlockId>)
    requires PrunedTo(g, a1, gone1, o1) && PrunedTo(g, a2, gone2, o2)
    ensures gone1 == gone2 && a1 == a2
  {
    PrunedLeast(g, a1, gone1, o1, gone2);
    PrunedLeast(g, a2, gone2, o2, gone1);
    assert gone1 == gone2;
    SameDropped(g, a1, a2, gone1);
  }

  lemma SameDropped(g: seq<BasicBlock>, a1: seq<BasicBlock>, a2: seq<BasicBlock>, gone: set<BlockId>)
    requires |a1| == |g| && forall k | 0 <= k < |g| :: a1[k] == Dropped(g, gone, k)
    requires |a2| == |g| && forall k | 0 <= k < |g| :: a2[k] == Dropped(g, gone, k)
    ensures a1 == a2
  {
  }
}

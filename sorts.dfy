// The graph orderings of src/MajiroLib/Helpers.cs. Each sort builds a dictionary from the
// list's nodes to their children (which throws on a node listed twice), clears the list and
// refills it from a recursive depth-first `Visit` over the dictionary's keys, in list order.
// The functions below are the walks as values; the class `NodeList` runs them in place.

module Sorts {
  import opened Wrappers

  /** Every child of a listed node is itself listed, so every dictionary lookup succeeds. */
  predicate Closed<T(==)>(nodes: seq<T>, children: T -> seq<T>) {
    forall j, c | 0 <= j < |nodes| && c in children(nodes[j]) :: c in nodes
  }

  /** The dictionary's keys: the listed nodes. */
  function KeysOf<T(==)>(nodes: seq<T>): set<T> {
    set x | x in nodes
  }

  /** The same over a set of keys. */
  predicate ClosedKeys<T(==)>(keys: set<T>, children: T -> seq<T>) {
    forall m, c | m in keys && c in children(m) :: c in keys
  }

  /**
   * The state of a walk: the visited set (a `HashSet` in the source), the list rebuilt so far,
   * and the exception that ended the walk, if one did.
   */
  datatype Walk<T> = Walk(visited: set<T>, out: seq<T>, error: Option<Error>)

  lemma {:induction false} SubsetCard<T>(a: set<T>, b: set<T>)
    requires a <= b
    ensures |a| <= |b|
    decreases |a|
  {
    if a != {} {
      var x :| x in a;
      SubsetCard(a - {x}, b - {x});
    }
  }

  /** Adding an unvisited key to the visited set leaves fewer keys to visit. */
  lemma Shrinks<T>(keys: set<T>, visited: set<T>, more: set<T>, n: T)
    requires n in keys && n !in visited && visited + {n} <= more
    ensures |keys - more| < |keys - visited|
  {
    SubsetCard(keys - more, (keys - visited) - {n});
  }

  /** Visiting more nodes never leaves more keys to visit. */
  lemma NoGrowth<T>(keys: set<T>, visited: set<T>, more: set<T>)
    requires visited <= more
    ensures |keys - more| <= |keys - visited|
  {
    SubsetCard(keys - more, keys - visited);
  }

  // ---------------------------------------------------------------------------------------
  // Pre-order: `if(!visited.Add(node)) return; nodes.Add(node); graph[node].ForEach(Visit);`

  /** One `Visit` of `PreOrderSort`. A node that is not a key is added and recorded before its lookup throws. */
  function VisitPre<T(==)>(keys: set<T>, children: T -> seq<T>, n: T, w: Walk<T>): (r: Walk<T>)
    ensures w.visited <= r.visited
    decreases |keys - w.visited|, 0, 0
  {
    if w.error.Some? || n in w.visited then w
    else if n !in keys then Walk(w.visited + {n}, w.out + [n], Some(Thrown(KeyNotFound)))
    else
      Shrinks(keys, w.visited, w.visited + {n}, n);
      VisitChildrenPre(keys, children, children(n), Walk(w.visited + {n}, w.out + [n], None))
  }

  /** `ForEach(Visit)` over a child list: the visits in turn, stopping at the first exception. */
  function VisitChildrenPre<T(==)>(keys: set<T>, children: T -> seq<T>, cs: seq<T>, w: Walk<T>): (r: Walk<T>)
    ensures w.visited <= r.visited
    decreases |keys - w.visited|, 1, |cs|
  {
    if |cs| == 0 || w.error.Some? then w
    else
      var w1 := VisitPre(keys, children, cs[0], w);
      NoGrowth(keys, w.visited, w1.visited);
      VisitChildrenPre(keys, children, cs[1..], w1)
  }

  /** The loop over the dictionary's keys from position k, which are the list's nodes in order. */
  function RootsPre<T(==)>(keys: set<T>, children: T -> seq<T>, nodes: seq<T>, k: nat, w: Walk<T>): (r: Walk<T>)
    requires k <= |nodes|
    ensures w.visited <= r.visited
    decreases |nodes| - k
  {
    if k == |nodes| || w.error.Some? then w
    else RootsPre(keys, children, nodes, k + 1, VisitPre(keys, children, nodes[k], w))
  }

  /** The walk `PreOrderSort` makes over a list of distinct nodes. */
  function PreOrder<T(==)>(nodes: seq<T>, children: T -> seq<T>): Walk<T> {
    RootsPre(KeysOf(nodes), children, nodes, 0, Walk({}, [], None))
  }

  /** The pre-order walk keeps its list free of repeats and equal, as a set, to the visited nodes. */
  predicate PreInv<T(==)>(w: Walk<T>) {
    Distinct(w.out) && (forall x | x in w.visited :: x in w.out) && forall i | 0 <= i < |w.out| :: w.out[i] in w.visited
  }

  /** The list only grows at its end. */
  predicate Extends<T>(w: Walk<T>, r: Walk<T>) {
    |w.out| <= |r.out| && forall i | 0 <= i < |w.out| :: r.out[i] == w.out[i]
  }

  /** Without an exception, a walk from w to r added only keys to the visited set. */
  predicate AddsKeys<T>(keys: set<T>, w: Walk<T>, r: Walk<T>) {
    r.error.None? ==> forall x | x in r.visited && x !in w.visited :: x in keys
  }

  /** Without an exception, every node a walk from w to r listed has all its children visited. */
  predicate ListsFinished<T>(children: T -> seq<T>, w: Walk<T>, r: Walk<T>) {
    r.error.None? ==> forall j, c | |w.out| <= j < |r.out| && c in children(r.out[j]) :: c in r.visited
  }

  /** Listing and marking a node not yet visited keeps the invariant. */
  lemma PreInvAppend<T>(w: Walk<T>, n: T, e: Option<Error>)
    requires PreInv(w) && n !in w.visited
    ensures PreInv(Walk(w.visited + {n}, w.out + [n], e))
  {
    var out := w.out + [n];
    forall i, j | 0 <= i < j < |out| ensures out[i] != out[j] {
      if j == |w.out| { assert w.out[i] in w.visited; }
    }
  }

  lemma ExtendsTrans<T>(a: Walk<T>, b: Walk<T>, c: Walk<T>)
    requires Extends(a, b) && Extends(b, c)
    ensures Extends(a, c)
  {
  }

  /** A pre-order `Visit` keeps the invariant and the list so far, does nothing after an exception, and marks n. */
  lemma {:induction false} VisitPreKeeps<T>(keys: set<T>, children: T -> seq<T>, n: T, w: Walk<T>)
    requires PreInv(w)
    ensures PreInv(VisitPre(keys, children, n, w)) && Extends(w, VisitPre(keys, children, n, w))
    ensures w.error.Some? ==> VisitPre(keys, children, n, w) == w
    ensures w.error.None? ==> n in VisitPre(keys, children, n, w).visited
    decreases |keys - w.visited|, 0, 0
  {
    if w.error.None? && n !in w.visited {
      var w1 := Walk(w.visited + {n}, w.out + [n], None);
      PreInvAppend(w, n, None);
      PreInvAppend(w, n, Some(Thrown(KeyNotFound)));
      assert Extends(w, w1);
      if n in keys {
        Shrinks(keys, w.visited, w.visited + {n}, n);
        VisitChildrenPreKeeps(keys, children, children(n), w1);
        ExtendsTrans(w, w1, VisitPre(keys, children, n, w));
      }
    }
  }

  lemma {:induction false} VisitChildrenPreKeeps<T>(keys: set<T>, children: T -> seq<T>, cs: seq<T>, w: Walk<T>)
    requires PreInv(w)
    ensures PreInv(VisitChildrenPre(keys, children, cs, w)) && Extends(w, VisitChildrenPre(keys, children, cs, w))
    ensures w.error.Some? ==> VisitChildrenPre(keys, children, cs, w) == w
    decreases |keys - w.visited|, 1, |cs|
  {
    if |cs| > 0 && w.error.None? {
      VisitPreKeeps(keys, children, cs[0], w);
      var w1 := VisitPre(keys, children, cs[0], w);
      NoGrowth(keys, w.visited, w1.visited);
      VisitChildrenPreKeeps(keys, children, cs[1..], w1);
      ExtendsTrans(w, w1, VisitChildrenPre(keys, children, cs[1..], w1));
    }
  }

  /** Without an exception a pre-order `Visit` adds only keys, lists only finished nodes, and visits every child. */
  lemma {:induction false} VisitPreCovers<T>(keys: set<T>, children: T -> seq<T>, n: T, w: Walk<T>)
    requires PreInv(w)
    ensures AddsKeys(keys, w, VisitPre(keys, children, n, w))
    ensures ListsFinished(children, w, VisitPre(keys, children, n, w))
    decreases |keys - w.visited|, 0, 1
  {
    if w.error.None? && n !in w.visited && n in keys {
      VisitPreCoversNew(keys, children, n, w);
    }
  }

  lemma {:induction false} VisitPreCoversNew<T>(keys: set<T>, children: T -> seq<T>, n: T, w: Walk<T>)
    requires PreInv(w) && w.error.None? && n !in w.visited && n in keys
    ensures AddsKeys(keys, w, VisitPre(keys, children, n, w))
    ensures ListsFinished(children, w, VisitPre(keys, children, n, w))
    decreases |keys - w.visited|, 0, 0
  {
    var w1 := Walk(w.visited + {n}, w.out + [n], None);
    PreInvAppend(w, n, None);
    Shrinks(keys, w.visited, w.visited + {n}, n);
    VisitChildrenPreKeeps(keys, children, children(n), w1);
    VisitChildrenPreCovers(keys, children, children(n), w1);
    var r := VisitChildrenPre(keys, children, children(n), w1);
    assert r == VisitPre(keys, children, n, w);
    if r.error.None? {
      FinishedAfterChildren(children, w, w1, r, n);
    }
  }

  /** A node listed at the start of a walk whose children all end up visited is finished with it. */
  lemma FinishedAfterChildren<T>(children: T -> seq<T>, w: Walk<T>, w1: Walk<T>, r: Walk<T>, n: T)
    requires r.error.None? && |w1.out| == |w.out| + 1 && Extends(w1, r) && w1.out[|w.out|] == n
    requires ListsFinished(children, w1, r) && forall k | 0 <= k < |children(n)| :: children(n)[k] in r.visited
    ensures ListsFinished(children, w, r)
  {
    forall j, c | |w.out| <= j < |r.out| && c in children(r.out[j]) ensures c in r.visited {
      if j == |w.out| {
        var k :| 0 <= k < |children(n)| && children(n)[k] == c;
      }
    }
  }

  lemma {:induction false} VisitChildrenPreCovers<T>(keys: set<T>, children: T -> seq<T>, cs: seq<T>, w: Walk<T>)
    requires PreInv(w)
    ensures AddsKeys(keys, w, VisitChildrenPre(keys, children, cs, w))
    ensures ListsFinished(children, w, VisitChildrenPre(keys, children, cs, w))
    ensures VisitChildrenPre(keys, children, cs, w).error.None? ==>
      forall k | 0 <= k < |cs| :: cs[k] in VisitChildrenPre(keys, children, cs, w).visited
    decreases |keys - w.visited|, 1, |cs|
  {
    if |cs| > 0 && w.error.None? {
      VisitPreKeeps(keys, children, cs[0], w);
      VisitPreCovers(keys, children, cs[0], w);
      var w1 := VisitPre(keys, children, cs[0], w);
      NoGrowth(keys, w.visited, w1.visited);
      VisitChildrenPreKeeps(keys, children, cs[1..], w1);
      VisitChildrenPreCovers(keys, children, cs[1..], w1);
      var r := VisitChildrenPre(keys, children, cs[1..], w1);
      assert r == VisitChildrenPre(keys, children, cs, w);
      if r.error.None? {
        assert w1.error.None?;
        forall k | 0 <= k < |cs| ensures cs[k] in r.visited {
          if k > 0 { assert cs[k] == cs[1..][k - 1]; }
        }
        forall j, c | |w.out| <= j < |r.out| && c in children(r.out[j]) ensures c in r.visited {
          if j < |w1.out| {
            assert r.out[j] == w1.out[j];
          }
        }
      }
    }
  }

  /** When every key's children are keys, the pre-order visit of a key does not throw. */
  lemma {:induction false} VisitPreSucceeds<T>(keys: set<T>, children: T -> seq<T>, n: T, w: Walk<T>)
    requires w.error.None? && ClosedKeys(keys, children) && n in keys
    ensures VisitPre(keys, children, n, w).error.None?
    decreases |keys - w.visited|, 0, 0
  {
    if n !in w.visited {
      Shrinks(keys, w.visited, w.visited + {n}, n);
      VisitChildrenPreSucceeds(keys, children, children(n), Walk(w.visited + {n}, w.out + [n], None));
    }
  }

  lemma {:induction false} VisitChildrenPreSucceeds<T>(keys: set<T>, children: T -> seq<T>, cs: seq<T>, w: Walk<T>)
    requires w.error.None? && ClosedKeys(keys, children) && forall k | 0 <= k < |cs| :: cs[k] in keys
    ensures VisitChildrenPre(keys, children, cs, w).error.None?
    decreases |keys - w.visited|, 1, |cs|
  {
    if |cs| > 0 {
      VisitPreSucceeds(keys, children, cs[0], w);
      var w1 := VisitPre(keys, children, cs[0], w);
      NoGrowth(keys, w.visited, w1.visited);
      assert forall k | 0 <= k < |cs[1..]| :: cs[1..][k] == cs[k + 1];
      VisitChildrenPreSucceeds(keys, children, cs[1..], w1);
    }
  }

  /** Every listed node has all its children visited: what a finished walk leaves. */
  predicate AllFinished<T>(children: T -> seq<T>, w: Walk<T>) {
    forall j, c | 0 <= j < |w.out| && c in children(w.out[j]) :: c in w.visited
  }

  /** The loop over the roots from position k keeps what each visit keeps. */
  lemma {:induction false} RootsPreFacts<T>(keys: set<T>, children: T -> seq<T>, nodes: seq<T>, k: nat, w: Walk<T>)
    requires k <= |nodes| && PreInv(w)
    requires w.error.None? ==> (forall x | x in w.visited :: x in keys) && AllFinished(children, w)
    ensures PreInv(RootsPre(keys, children, nodes, k, w))
    ensures RootsPre(keys, children, nodes, k, w).error.None? ==>
      var r := RootsPre(keys, children, nodes, k, w);
      (forall x | x in r.visited :: x in keys) && AllFinished(children, r)
    ensures RootsPre(keys, children, nodes, k, w).error.None? ==>
      forall i | k <= i < |nodes| :: nodes[i] in RootsPre(keys, children, nodes, k, w).visited
    ensures w.error.None? && ClosedKeys(keys, children) && (forall i | k <= i < |nodes| :: nodes[i] in keys) ==>
      RootsPre(keys, children, nodes, k, w).error.None?
    decreases |nodes| - k
  {
    if k < |nodes| && w.error.None? {
      var w1 := VisitPre(keys, children, nodes[k], w);
      VisitPreKeeps(keys, children, nodes[k], w);
      VisitPreCovers(keys, children, nodes[k], w);
      if ClosedKeys(keys, children) && nodes[k] in keys {
        VisitPreSucceeds(keys, children, nodes[k], w);
      }
      if w1.error.None? {
        forall j, c | 0 <= j < |w1.out| && c in children(w1.out[j]) ensures c in w1.visited {
          if j < |w.out| { assert w1.out[j] == w.out[j]; }
        }
      }
      RootsPreFacts(keys, children, nodes, k + 1, w1);
    }
  }

  /** Two distinct lists with the same elements are permutations of each other. */
  lemma {:induction false} DistinctPermutation<T>(a: seq<T>, b: seq<T>)
    requires Distinct(a) && Distinct(b)
    requires (forall i | 0 <= i < |a| :: a[i] in b) && forall i | 0 <= i < |b| :: b[i] in a
    ensures multiset(a) == multiset(b)
  {
    DistinctCounts(a);
    DistinctCounts(b);
    assert forall x :: multiset(a)[x] == multiset(b)[x];
  }

  /** In a list without repeats every element occurs once. */
  lemma {:induction false} DistinctCounts<T>(s: seq<T>)
    requires Distinct(s)
    ensures forall x :: multiset(s)[x] == if x in s then 1 else 0
  {
    if |s| > 0 {
      var rest := s[1..];
      assert s == [s[0]] + rest;
      assert Distinct(rest) by {
        forall i, j | 0 <= i < j < |rest| ensures rest[i] != rest[j] { assert rest[i] == s[i + 1] && rest[j] == s[j + 1]; }
      }
      assert s[0] !in rest by {
        forall i | 0 <= i < |rest| ensures rest[i] != s[0] { assert rest[i] == s[i + 1]; }
      }
      DistinctCounts(rest);
    }
  }

  lemma ClosedAsKeys<T>(nodes: seq<T>, children: T -> seq<T>)
    ensures Closed(nodes, children) <==> ClosedKeys(KeysOf(nodes), children)
  {
    if Closed(nodes, children) {
      forall m, c | m in KeysOf(nodes) && c in children(m) ensures c in KeysOf(nodes) {
        var j :| 0 <= j < |nodes| && nodes[j] == m;
      }
    }
    if ClosedKeys(KeysOf(nodes), children) {
      forall j, c | 0 <= j < |nodes| && c in children(nodes[j]) ensures c in nodes {
        assert nodes[j] in KeysOf(nodes);
        assert c in KeysOf(nodes);
      }
    }
  }

  /**
   * `PreOrderSort` over distinct nodes succeeds exactly when every child is itself listed, and
   * then leaves a permutation of the list: every node once, the unreachable ones included.
   */
  lemma PreOrderPermutes<T>(nodes: seq<T>, children: T -> seq<T>)
    requires Distinct(nodes)
    ensures PreOrder(nodes, children).error.None? <==> Closed(nodes, children)
    ensures PreOrder(nodes, children).error.None? ==> multiset(PreOrder(nodes, children).out) == multiset(nodes)
    ensures Distinct(PreOrder(nodes, children).out)
  {
    var keys := KeysOf(nodes);
    var r := PreOrder(nodes, children);
    RootsPreFacts(keys, children, nodes, 0, Walk({}, [], None));
    ClosedAsKeys(nodes, children);
    if r.error.None? {
      DistinctPermutation(r.out, nodes);
      forall j, c | 0 <= j < |nodes| && c in children(nodes[j]) ensures c in nodes {
        var i :| 0 <= i < |r.out| && r.out[i] == nodes[j];
        assert c in r.visited;
      }
    }
  }

  /**
   * Node i of a pre-order list was entered from a node listed before it, or else started a
   * new root: then every child of the nodes before it was already listed.
   */
  predicate Entered<T(==)>(children: T -> seq<T>, out: seq<T>, i: nat)
    requires i < |out|
  {
    (exists j | 0 <= j < i :: out[i] in children(out[j])) ||
    forall j, c | 0 <= j < i && c in children(out[j]) :: c in out[..i]
  }

  predicate EnteredFrom<T(==)>(children: T -> seq<T>, out: seq<T>, k: nat) {
    forall i | k <= i < |out| :: Entered(children, out, i)
  }

  /** Whether a node was entered depends only on the list up to it. */
  lemma EnteredStays<T>(children: T -> seq<T>, a: Walk<T>, b: Walk<T>, i: nat)
    requires Extends(a, b) && i < |a.out| && Entered(children, a.out, i)
    ensures Entered(children, b.out, i)
  {
    assert a.out[..i] == b.out[..i];
    if exists j | 0 <= j < i :: a.out[i] in children(a.out[j]) {
      var j :| 0 <= j < i && a.out[i] in children(a.out[j]);
      assert b.out[j] == a.out[j];
    }
  }

  /** n is a child of a listed node, or the walk so far is finished. */
  predicate MayEnter<T(==)>(children: T -> seq<T>, w: Walk<T>, n: T) {
    (exists j | 0 <= j < |w.out| :: n in children(w.out[j])) || AllFinished(children, w)
  }

  /**
   * A pre-order `Visit` of a node that is a child of a listed node, or that starts a new root
   * after a finished walk, lists every node it adds as entered.
   */
  lemma {:induction false} VisitPreEnters<T>(keys: set<T>, children: T -> seq<T>, n: T, w: Walk<T>)
    requires PreInv(w) && w.error.None?
    requires MayEnter(children, w, n)
    ensures EnteredFrom(children, VisitPre(keys, children, n, w).out, |w.out|)
    decreases |keys - w.visited|, 0, 1
  {
    if n !in w.visited {
      EntersFresh(children, w, n);
      if n in keys {
        VisitPreEntersKey(keys, children, n, w);
      } else {
        assert VisitPre(keys, children, n, w).out == w.out + [n];
      }
    }
  }

  lemma {:induction false} VisitPreEntersKey<T>(keys: set<T>, children: T -> seq<T>, n: T, w: Walk<T>)
    requires PreInv(w) && w.error.None? && n in keys && n !in w.visited
    requires Entered(children, w.out + [n], |w.out|)
    ensures EnteredFrom(children, VisitPre(keys, children, n, w).out, |w.out|)
    decreases |keys - w.visited|, 0, 0
  {
    var w1 := Walk(w.visited + {n}, w.out + [n], None);
    var r := VisitChildrenPre(keys, children, children(n), w1);
    assert r == VisitPre(keys, children, n, w);
    PreInvAppend(w, n, None);
    Shrinks(keys, w.visited, w.visited + {n}, n);
    VisitChildrenPreKeeps(keys, children, children(n), w1);
    VisitChildrenPreEnters(keys, children, children(n), w1, |w.out|);
    EnteredStays(children, w1, r, |w.out|);
    forall i | |w.out| <= i < |r.out| ensures Entered(children, r.out, i) {
      if i > |w.out| { assert |w1.out| <= i; }
    }
  }

  /** The node a `Visit` lists first is entered when the walk meets the condition of `VisitPreEnters`. */
  lemma EntersFresh<T>(children: T -> seq<T>, w: Walk<T>, n: T)
    requires MayEnter(children, w, n)
    requires forall x | x in w.visited :: x in w.out
    ensures Entered(children, w.out + [n], |w.out|)
  {
    var out := w.out + [n];
    assert out[..|w.out|] == w.out;
    if exists j | 0 <= j < |w.out| :: n in children(w.out[j]) {
      var j :| 0 <= j < |w.out| && n in children(w.out[j]);
      assert out[j] == w.out[j];
    } else {
      forall j, c | 0 <= j < |w.out| && c in children(out[j]) ensures c in out[..|w.out|] {
        assert out[j] == w.out[j];
      }
    }
  }

  lemma {:induction false} VisitChildrenPreEnters<T>(keys: set<T>, children: T -> seq<T>, cs: seq<T>, w: Walk<T>, p: nat)
    requires PreInv(w) && p < |w.out| && forall k | 0 <= k < |cs| :: cs[k] in children(w.out[p])
    ensures EnteredFrom(children, VisitChildrenPre(keys, children, cs, w).out, |w.out|)
    decreases |keys - w.visited|, 1, |cs|
  {
    if |cs| > 0 && w.error.None? {
      VisitPreKeeps(keys, children, cs[0], w);
      assert MayEnter(children, w, cs[0]) by { assert cs[0] in children(w.out[p]); }
      VisitPreEnters(keys, children, cs[0], w);
      var w1 := VisitPre(keys, children, cs[0], w);
      NoGrowth(keys, w.visited, w1.visited);
      VisitChildrenPreKeeps(keys, children, cs[1..], w1);
      var r := VisitChildrenPre(keys, children, cs[1..], w1);
      if w1.error.None? {
        assert forall k | 0 <= k < |cs[1..]| :: cs[1..][k] == cs[k + 1];
        assert w1.out[p] == w.out[p];
        VisitChildrenPreEnters(keys, children, cs[1..], w1, p);
      }
      forall i | |w.out| <= i < |w1.out| ensures Entered(children, r.out, i) {
        EnteredStays(children, w1, r, i);
      }
    }
  }

  lemma {:induction false} RootsPreEnters<T>(keys: set<T>, children: T -> seq<T>, nodes: seq<T>, k: nat, w: Walk<T>)
    requires k <= |nodes| && PreInv(w)
    requires w.error.None? ==> AllFinished(children, w)
    ensures EnteredFrom(children, RootsPre(keys, children, nodes, k, w).out, |w.out|)
    decreases |nodes| - k
  {
    if k < |nodes| && w.error.None? {
      var w1 := VisitPre(keys, children, nodes[k], w);
      VisitPreKeeps(keys, children, nodes[k], w);
      VisitPreCovers(keys, children, nodes[k], w);
      VisitPreEnters(keys, children, nodes[k], w);
      if w1.error.None? {
        forall j, c | 0 <= j < |w1.out| && c in children(w1.out[j]) ensures c in w1.visited {
          if j < |w.out| { assert w1.out[j] == w.out[j]; }
        }
      }
      RootsPreKeeps(keys, children, nodes, k + 1, w1);
      RootsPreEnters(keys, children, nodes, k + 1, w1);
      var r := RootsPre(keys, children, nodes, k + 1, w1);
      forall i | |w.out| <= i < |r.out| ensures Entered(children, r.out, i) {
        if i < |w1.out| { EnteredStays(children, w1, r, i); }
      }
    }
  }

  lemma {:induction false} RootsPreKeeps<T>(keys: set<T>, children: T -> seq<T>, nodes: seq<T>, k: nat, w: Walk<T>)
    requires k <= |nodes| && PreInv(w)
    ensures Extends(w, RootsPre(keys, children, nodes, k, w))
    decreases |nodes| - k
  {
    if k < |nodes| && w.error.None? {
      var w1 := VisitPre(keys, children, nodes[k], w);
      VisitPreKeeps(keys, children, nodes[k], w);
      RootsPreKeeps(keys, children, nodes, k + 1, w1);
      ExtendsTrans(w, w1, RootsPre(keys, children, nodes, k + 1, w1));
    }
  }

  /**
   * In the list `PreOrderSort` leaves, each node is a child of a node before it, or starts a
   * new root after every child of the nodes before it was listed.
   */
  lemma PreOrderEnters<T>(nodes: seq<T>, children: T -> seq<T>)
    ensures EnteredFrom(children, PreOrder(nodes, children).out, 0)
  {
    RootsPreEnters(KeysOf(nodes), children, nodes, 0, Walk({}, [], None));
  }

  // ---------------------------------------------------------------------------------------
  // Post-order: `if(!visited.Add(node)) return; graph[node].ForEach(Visit); nodes.Add(node);`

  /** One `Visit` of `PostOrderSort`. A node that is not a key is marked visited before its lookup throws. */
  function VisitPost<T(==)>(keys: set<T>, children: T -> seq<T>, n: T, w: Walk<T>): (r: Walk<T>)
    ensures w.visited <= r.visited
    decreases |keys - w.visited|, 0, 0
  {
    if w.error.Some? || n in w.visited then w
    else if n !in keys then Walk(w.visited + {n}, w.out, Some(Thrown(KeyNotFound)))
    else
      Shrinks(keys, w.visited, w.visited + {n}, n);
      var w1 := VisitChildrenPost(keys, children, children(n), Walk(w.visited + {n}, w.out, None));
      if w1.error.Some? then w1 else Walk(w1.visited, w1.out + [n], None)
  }

  function VisitChildrenPost<T(==)>(keys: set<T>, children: T -> seq<T>, cs: seq<T>, w: Walk<T>): (r: Walk<T>)
    ensures w.visited <= r.visited
    decreases |keys - w.visited|, 1, |cs|
  {
    if |cs| == 0 || w.error.Some? then w
    else
      var w1 := VisitPost(keys, children, cs[0], w);
      NoGrowth(keys, w.visited, w1.visited);
      VisitChildrenPost(keys, children, cs[1..], w1)
  }

  function RootsPost<T(==)>(keys: set<T>, children: T -> seq<T>, nodes: seq<T>, k: nat, w: Walk<T>): (r: Walk<T>)
    requires k <= |nodes|
    ensures w.visited <= r.visited
    decreases |nodes| - k
  {
    if k == |nodes| || w.error.Some? then w
    else RootsPost(keys, children, nodes, k + 1, VisitPost(keys, children, nodes[k], w))
  }

  /** The walk `PostOrderSort` makes over a list of distinct nodes. */
  function PostOrder<T(==)>(nodes: seq<T>, children: T -> seq<T>): Walk<T> {
    RootsPost(KeysOf(nodes), children, nodes, 0, Walk({}, [], None))
  }

  /** The post-order walk lists each node once, and only visited ones. */
  predicate PostInv<T(==)>(w: Walk<T>) {
    Distinct(w.out) && forall i | 0 <= i < |w.out| :: w.out[i] in w.visited
  }

  /** The nodes a walk from w to r newly lists were not visited at w. */
  predicate ListsFresh<T>(w: Walk<T>, r: Walk<T>) {
    forall i | |w.out| <= i < |r.out| :: r.out[i] !in w.visited
  }

  /** Without an exception, every node a walk from w to r newly visited it has also listed. */
  predicate ListsVisited<T(==)>(w: Walk<T>, r: Walk<T>) {
    r.error.None? ==> forall x | x in r.visited && x !in w.visited :: x in r.out
  }

  lemma PostInvAppend<T>(w: Walk<T>, n: T)
    requires PostInv(w) && n in w.visited && n !in w.out
    ensures PostInv(Walk(w.visited, w.out + [n], None))
  {
    var out := w.out + [n];
    forall i, j | 0 <= i < j < |out| ensures out[i] != out[j] {
      if j == |w.out| { assert out[i] == w.out[i]; }
    }
  }

  /**
   * A post-order `Visit` keeps the invariant and the list so far, lists only nodes it newly
   * visited, does nothing after an exception, and marks n.
   */
  lemma {:induction false} VisitPostKeeps<T>(keys: set<T>, children: T -> seq<T>, n: T, w: Walk<T>)
    requires PostInv(w)
    ensures PostInv(VisitPost(keys, children, n, w)) && Extends(w, VisitPost(keys, children, n, w))
    ensures ListsFresh(w, VisitPost(keys, children, n, w))
    ensures w.error.Some? ==> VisitPost(keys, children, n, w) == w
    ensures w.error.None? ==> n in VisitPost(keys, children, n, w).visited
    decreases |keys - w.visited|, 0, 0
  {
    if w.error.None? && n !in w.visited && n in keys {
      var w0 := Walk(w.visited + {n}, w.out, None);
      Shrinks(keys, w.visited, w.visited + {n}, n);
      VisitChildrenPostKeeps(keys, children, children(n), w0);
      var w1 := VisitChildrenPost(keys, children, children(n), w0);
      if w1.error.None? {
        assert n !in w1.out by {
          forall i | 0 <= i < |w1.out| ensures w1.out[i] != n {
            if i < |w.out| { assert w1.out[i] == w.out[i]; }
          }
        }
        PostInvAppend(w1, n);
      }
    }
  }

  lemma {:induction false} VisitChildrenPostKeeps<T>(keys: set<T>, children: T -> seq<T>, cs: seq<T>, w: Walk<T>)
    requires PostInv(w)
    ensures PostInv(VisitChildrenPost(keys, children, cs, w)) && Extends(w, VisitChildrenPost(keys, children, cs, w))
    ensures ListsFresh(w, VisitChildrenPost(keys, children, cs, w))
    ensures w.error.Some? ==> VisitChildrenPost(keys, children, cs, w) == w
    decreases |keys - w.visited|, 1, |cs|
  {
    if |cs| > 0 && w.error.None? {
      VisitPostKeeps(keys, children, cs[0], w);
      var w1 := VisitPost(keys, children, cs[0], w);
      NoGrowth(keys, w.visited, w1.visited);
      VisitChildrenPostKeeps(keys, children, cs[1..], w1);
      var r := VisitChildrenPost(keys, children, cs[1..], w1);
      ExtendsTrans(w, w1, r);
      forall i | |w.out| <= i < |r.out| ensures r.out[i] !in w.visited {
        if i < |w1.out| { assert r.out[i] == w1.out[i]; }
      }
    }
  }

  /**
   * Without an exception a post-order `Visit` adds only keys, lists every node it visits,
   * lists only finished nodes, and visits every child.
   */
  lemma {:induction false} VisitPostCovers<T>(keys: set<T>, children: T -> seq<T>, n: T, w: Walk<T>)
    requires PostInv(w)
    ensures AddsKeys(keys, w, VisitPost(keys, children, n, w))
    ensures ListsVisited(w, VisitPost(keys, children, n, w))
    ensures ListsFinished(children, w, VisitPost(keys, children, n, w))
    decreases |keys - w.visited|, 0, 0
  {
    if w.error.None? && n !in w.visited && n in keys {
      var w0 := Walk(w.visited + {n}, w.out, None);
      Shrinks(keys, w.visited, w.visited + {n}, n);
      VisitChildrenPostKeeps(keys, children, children(n), w0);
      VisitChildrenPostCovers(keys, children, children(n), w0);
      var w1 := VisitChildrenPost(keys, children, children(n), w0);
      if w1.error.None? {
        var r := Walk(w1.visited, w1.out + [n], None);
        assert r == VisitPost(keys, children, n, w);
        forall j, c | |w.out| <= j < |r.out| && c in children(r.out[j]) ensures c in r.visited {
          if j == |w1.out| {
            var k :| 0 <= k < |children(n)| && children(n)[k] == c;
          } else {
            assert r.out[j] == w1.out[j];
          }
        }
      }
    }
  }

  lemma {:induction false} VisitChildrenPostCovers<T>(keys: set<T>, children: T -> seq<T>, cs: seq<T>, w: Walk<T>)
    requires PostInv(w)
    ensures AddsKeys(keys, w, VisitChildrenPost(keys, children, cs, w))
    ensures ListsVisited(w, VisitChildrenPost(keys, children, cs, w))
    ensures ListsFinished(children, w, VisitChildrenPost(keys, children, cs, w))
    ensures VisitChildrenPost(keys, children, cs, w).error.None? ==>
      forall k | 0 <= k < |cs| :: cs[k] in VisitChildrenPost(keys, children, cs, w).visited
    decreases |keys - w.visited|, 1, |cs|
  {
    if |cs| > 0 && w.error.None? {
      VisitPostKeeps(keys, children, cs[0], w);
      VisitPostCovers(keys, children, cs[0], w);
      var w1 := VisitPost(keys, children, cs[0], w);
      NoGrowth(keys, w.visited, w1.visited);
      VisitChildrenPostKeeps(keys, children, cs[1..], w1);
      VisitChildrenPostCovers(keys, children, cs[1..], w1);
      var r := VisitChildrenPost(keys, children, cs[1..], w1);
      assert r == VisitChildrenPost(keys, children, cs, w);
      if r.error.None? {
        assert w1.error.None?;
        forall k | 0 <= k < |cs| ensures cs[k] in r.visited {
          if k > 0 { assert cs[k] == cs[1..][k - 1]; }
        }
        forall x | x in r.visited && x !in w.visited ensures x in r.out {
          if x in w1.visited {
            var i :| 0 <= i < |w1.out| && w1.out[i] == x;
            assert r.out[i] == x;
          }
        }
        forall j, c | |w.out| <= j < |r.out| && c in children(r.out[j]) ensures c in r.visited {
          if j < |w1.out| {
            assert r.out[j] == w1.out[j];
          }
        }
      }
    }
  }

  /** When every key's children are keys, the post-order visit of a key does not throw. */
  lemma {:induction false} VisitPostSucceeds<T>(keys: set<T>, children: T -> seq<T>, n: T, w: Walk<T>)
    requires w.error.None? && ClosedKeys(keys, children) && n in keys
    ensures VisitPost(keys, children, n, w).error.None?
    decreases |keys - w.visited|, 0, 0
  {
    if n !in w.visited {
      Shrinks(keys, w.visited, w.visited + {n}, n);
      VisitChildrenPostSucceeds(keys, children, children(n), Walk(w.visited + {n}, w.out, None));
    }
  }

  lemma {:induction false} VisitChildrenPostSucceeds<T>(keys: set<T>, children: T -> seq<T>, cs: seq<T>, w: Walk<T>)
    requires w.error.None? && ClosedKeys(keys, children) && forall k | 0 <= k < |cs| :: cs[k] in keys
    ensures VisitChildrenPost(keys, children, cs, w).error.None?
    decreases |keys - w.visited|, 1, |cs|
  {
    if |cs| > 0 {
      VisitPostSucceeds(keys, children, cs[0], w);
      var w1 := VisitPost(keys, children, cs[0], w);
      NoGrowth(keys, w.visited, w1.visited);
      assert forall k | 0 <= k < |cs[1..]| :: cs[1..][k] == cs[k + 1];
      VisitChildrenPostSucceeds(keys, children, cs[1..], w1);
    }
  }

  lemma {:induction false} RootsPostFacts<T>(keys: set<T>, children: T -> seq<T>, nodes: seq<T>, k: nat, w: Walk<T>)
    requires k <= |nodes| && PostInv(w)
    requires w.error.None? ==>
      (forall x | x in w.visited :: x in keys) && (forall x | x in w.visited :: x in w.out) && AllFinished(children, w)
    ensures PostInv(RootsPost(keys, children, nodes, k, w))
    ensures RootsPost(keys, children, nodes, k, w).error.None? ==>
      var r := RootsPost(keys, children, nodes, k, w);
      (forall x | x in r.visited :: x in keys) && (forall x | x in r.visited :: x in r.out) && AllFinished(children, r)
    ensures RootsPost(keys, children, nodes, k, w).error.None? ==>
      forall i | k <= i < |nodes| :: nodes[i] in RootsPost(keys, children, nodes, k, w).visited
    ensures w.error.None? && ClosedKeys(keys, children) && (forall i | k <= i < |nodes| :: nodes[i] in keys) ==>
      RootsPost(keys, children, nodes, k, w).error.None?
    decreases |nodes| - k
  {
    if k < |nodes| && w.error.None? {
      var w1 := VisitPost(keys, children, nodes[k], w);
      VisitPostKeeps(keys, children, nodes[k], w);
      VisitPostCovers(keys, children, nodes[k], w);
      if ClosedKeys(keys, children) && nodes[k] in keys {
        VisitPostSucceeds(keys, children, nodes[k], w);
      }
      if w1.error.None? {
        forall j, c | 0 <= j < |w1.out| && c in children(w1.out[j]) ensures c in w1.visited {
          if j < |w.out| { assert w1.out[j] == w.out[j]; }
        }
        forall x | x in w1.visited ensures x in w1.out {
          if x in w.visited {
            var i :| 0 <= i < |w.out| && w.out[i] == x;
            assert w1.out[i] == x;
          }
        }
      }
      RootsPostFacts(keys, children, nodes, k + 1, w1);
    }
  }

  /**
   * `PostOrderSort` over distinct nodes succeeds exactly when every child is itself listed,
   * and then leaves a permutation of the list.
   */
  lemma PostOrderPermutes<T>(nodes: seq<T>, children: T -> seq<T>)
    requires Distinct(nodes)
    ensures PostOrder(nodes, children).error.None? <==> Closed(nodes, children)
    ensures PostOrder(nodes, children).error.None? ==> multiset(PostOrder(nodes, children).out) == multiset(nodes)
  {
    var keys := KeysOf(nodes);
    var r := PostOrder(nodes, children);
    RootsPostFacts(keys, children, nodes, 0, Walk({}, [], None));
    ClosedAsKeys(nodes, children);
    if r.error.None? {
      DistinctPermutation(r.out, nodes);
      forall j, c | 0 <= j < |nodes| && c in children(nodes[j]) ensures c in nodes {
        var i :| 0 <= i < |r.out| && r.out[i] == nodes[j];
        assert c in r.visited;
      }
    }
  }

  // ---------------------------------------------------------------------------------------
  // Post-order of an acyclic graph

  /** rank decreases along every edge out of a key, so the graph has no cycle through keys. */
  predicate RankedKeys<T(==)>(keys: set<T>, children: T -> seq<T>, rank: T -> nat) {
    forall m, c | m in keys && c in children(m) :: rank(c) < rank(m)
  }

  /** The same over the listed nodes. */
  predicate Ranked<T(==)>(nodes: seq<T>, children: T -> seq<T>, rank: T -> nat) {
    forall j, c | 0 <= j < |nodes| && c in children(nodes[j]) :: rank(c) < rank(nodes[j])
  }

  /** From position k on, every child of a listed node is listed before it. */
  predicate ChildrenFirst<T(==)>(children: T -> seq<T>, out: seq<T>, k: nat) {
    forall i, c | k <= i < |out| && c in children(out[i]) :: c in out[..i]
  }

  /** Every node visited and not yet listed (a `Visit` still in progress) outranks n. */
  predicate Outranked<T(==)>(w: Walk<T>, rank: T -> nat, n: T) {
    forall x | x in w.visited && x !in w.out :: rank(n) < rank(x)
  }

  /** A walk that lists every node it newly visits leaves no new node in progress. */
  lemma StackKept<T>(w: Walk<T>, r: Walk<T>)
    requires Extends(w, r) && r.error.None? && ListsVisited(w, r)
    ensures forall x | x in r.visited && x !in r.out :: x in w.visited && x !in w.out
  {
    forall x | x in r.visited && x !in r.out ensures x in w.visited && x !in w.out {
      ExtendsKeeps(w, r, x);
    }
  }

  /** What a walk had listed, the walk extending it still lists. */
  lemma ExtendsKeeps<T>(w: Walk<T>, r: Walk<T>, x: T)
    requires Extends(w, r)
    ensures x in w.out ==> x in r.out
  {
    if x in w.out {
      var m :| 0 <= m < |w.out| && w.out[m] == x;
      assert r.out[m] == x;
    }
  }

  /**
   * In an acyclic graph, a post-order `Visit` entered below nodes that all outrank it lists
   * each node after all of its children.
   */
  lemma {:induction false} VisitPostRanks<T>(keys: set<T>, children: T -> seq<T>, rank: T -> nat, n: T, w: Walk<T>)
    requires PostInv(w) && w.error.None? && RankedKeys(keys, children, rank) && Outranked(w, rank, n)
    ensures VisitPost(keys, children, n, w).error.None? ==> ChildrenFirst(children, VisitPost(keys, children, n, w).out, |w.out|)
    decreases |keys - w.visited|, 0, 0
  {
    if n !in w.visited && n in keys {
      var w0 := Walk(w.visited + {n}, w.out, None);
      Shrinks(keys, w.visited, w.visited + {n}, n);
      assert forall k | 0 <= k < |children(n)| :: Outranked(w0, rank, children(n)[k]);
      VisitChildrenPostKeeps(keys, children, children(n), w0);
      VisitChildrenPostCovers(keys, children, children(n), w0);
      VisitChildrenPostRanks(keys, children, rank, children(n), w0);
      var w1 := VisitChildrenPost(keys, children, children(n), w0);
      if w1.error.None? {
        StackKept(w0, w1);
        forall k | 0 <= k < |children(n)| ensures children(n)[k] in w1.out {
          assert children(n)[k] in w1.visited;
        }
        ChildrenFirstAppend(children, w1.out, n, |w.out|);
      }
    }
  }

  /** Appending a node whose children are all listed keeps every child before its parent. */
  lemma ChildrenFirstAppend<T>(children: T -> seq<T>, out: seq<T>, n: T, k: nat)
    requires ChildrenFirst(children, out, k) && k <= |out|
    requires forall m | 0 <= m < |children(n)| :: children(n)[m] in out
    ensures ChildrenFirst(children, out + [n], k)
  {
    var r := out + [n];
    forall i, c | k <= i < |r| && c in children(r[i]) ensures c in r[..i] {
      if i == |out| {
        assert r[..i] == out;
        var m :| 0 <= m < |children(n)| && children(n)[m] == c;
      } else {
        assert r[i] == out[i] && r[..i] == out[..i];
      }
    }
  }

  lemma {:induction false} VisitChildrenPostRanks<T>(keys: set<T>, children: T -> seq<T>, rank: T -> nat, cs: seq<T>, w: Walk<T>)
    requires PostInv(w) && w.error.None? && RankedKeys(keys, children, rank)
    requires forall k | 0 <= k < |cs| :: Outranked(w, rank, cs[k])
    ensures VisitChildrenPost(keys, children, cs, w).error.None? ==>
      ChildrenFirst(children, VisitChildrenPost(keys, children, cs, w).out, |w.out|)
    decreases |keys - w.visited|, 1, |cs|
  {
    if |cs| > 0 {
      VisitPostKeeps(keys, children, cs[0], w);
      VisitPostCovers(keys, children, cs[0], w);
      VisitPostRanks(keys, children, rank, cs[0], w);
      var w1 := VisitPost(keys, children, cs[0], w);
      NoGrowth(keys, w.visited, w1.visited);
      VisitChildrenPostKeeps(keys, children, cs[1..], w1);
      var r := VisitChildrenPost(keys, children, cs[1..], w1);
      if r.error.None? {
        assert w1.error.None?;
        forall k | 0 <= k < |cs[1..]| ensures Outranked(w1, rank, cs[1..][k]) {
          assert cs[1..][k] == cs[k + 1];
          StackKept(w, w1);
        }
        VisitChildrenPostRanks(keys, children, rank, cs[1..], w1);
        forall i, c | |w.out| <= i < |r.out| && c in children(r.out[i]) ensures c in r.out[..i] {
          if i < |w1.out| {
            assert r.out[i] == w1.out[i];
            assert r.out[..i] == w1.out[..i];
          }
        }
      }
    }
  }

  lemma {:induction false} RootsPostRanks<T>(keys: set<T>, children: T -> seq<T>, rank: T -> nat, nodes: seq<T>, k: nat, w: Walk<T>)
    requires k <= |nodes| && PostInv(w) && RankedKeys(keys, children, rank)
    requires w.error.None? ==> forall x | x in w.visited :: x in w.out
    ensures RootsPost(keys, children, nodes, k, w).error.None? ==>
      ChildrenFirst(children, RootsPost(keys, children, nodes, k, w).out, |w.out|)
    decreases |nodes| - k
  {
    if k < |nodes| && w.error.None? {
      var w1 := VisitPost(keys, children, nodes[k], w);
      VisitPostKeeps(keys, children, nodes[k], w);
      VisitPostCovers(keys, children, nodes[k], w);
      VisitPostRanks(keys, children, rank, nodes[k], w);
      if w1.error.None? {
        forall x | x in w1.visited ensures x in w1.out {
          if x in w.visited {
            var i :| 0 <= i < |w.out| && w.out[i] == x;
            assert w1.out[i] == x;
          }
        }
      }
      RootsPostRanks(keys, children, rank, nodes, k + 1, w1);
      RootsPostKeeps(keys, children, nodes, k + 1, w1);
      var r := RootsPost(keys, children, nodes, k + 1, w1);
      if r.error.None? {
        forall i, c | |w.out| <= i < |r.out| && c in children(r.out[i]) ensures c in r.out[..i] {
          if i < |w1.out| {
            assert r.out[i] == w1.out[i];
            assert r.out[..i] == w1.out[..i];
          }
        }
      }
    }
  }

  lemma {:induction false} RootsPostKeeps<T>(keys: set<T>, children: T -> seq<T>, nodes: seq<T>, k: nat, w: Walk<T>)
    requires k <= |nodes| && PostInv(w)
    ensures Extends(w, RootsPost(keys, children, nodes, k, w))
    ensures w.error.Some? ==> RootsPost(keys, children, nodes, k, w) == w
    decreases |nodes| - k
  {
    if k < |nodes| && w.error.None? {
      var w1 := VisitPost(keys, children, nodes[k], w);
      VisitPostKeeps(keys, children, nodes[k], w);
      RootsPostKeeps(keys, children, nodes, k + 1, w1);
      ExtendsTrans(w, w1, RootsPost(keys, children, nodes, k + 1, w1));
    }
  }

  /**
   * In an acyclic graph (some rank falls along every edge), the list `PostOrderSort` leaves
   * puts every child before its parent: the reverse of it is a topological order.
   */
  lemma PostOrderRanks<T>(nodes: seq<T>, children: T -> seq<T>, rank: T -> nat)
    requires Ranked(nodes, children, rank)
    ensures PostOrder(nodes, children).error.None? ==> ChildrenFirst(children, PostOrder(nodes, children).out, 0)
  {
    var keys := KeysOf(nodes);
    forall m, c | m in keys && c in children(m) ensures rank(c) < rank(m) {
      var j :| 0 <= j < |nodes| && nodes[j] == m;
    }
    RootsPostRanks(keys, children, rank, nodes, 0, Walk({}, [], None));
  }

  // ---------------------------------------------------------------------------------------
  // Topological sort: the same walk over dependencies, with a three-state dictionary in
  // place of the visited set. An `Undead` node is a visit in progress; meeting it again is a
  // cycle, which the source reports on the console and skips.

  datatype Mark = Alive | Dead | Undead

  datatype TopoWalk<T> = TopoWalk(state: map<T, Mark>, out: seq<T>, error: Option<Error>)

  /** The nodes not yet entered. */
  function Pending<T>(state: map<T, Mark>): set<T> {
    set k | k in state && state[k] == Alive
  }

  /** The nodes entered: in progress or done. */
  function Marked<T>(state: map<T, Mark>): set<T> {
    set k | k in state && state[k] != Alive
  }

  lemma MarkOne<T>(state: map<T, Mark>, n: T, m: Mark)
    requires n in state && m != Alive
    ensures Pending(state[n := m]) == Pending(state) - {n}
    ensures Marked(state[n := m]) == Marked(state) + {n}
  {
  }

  /** One `Visit` of `TopologicalSort`: the state lookup throws for a node that is not a key. */
  function TopoVisit<T(==)>(deps: T -> seq<T>, n: T, t: TopoWalk<T>): (r: TopoWalk<T>)
    ensures r.state.Keys == t.state.Keys && Pending(r.state) <= Pending(t.state)
    decreases |Pending(t.state)|, 0, 0
  {
    if t.error.Some? then t
    else if n !in t.state then TopoWalk(t.state, t.out, Some(Thrown(KeyNotFound)))
    else match t.state[n]
      case Dead => t
      case Undead => t
      case Alive =>
        MarkOne(t.state, n, Undead);
        SubsetCard(Pending(t.state) - {n}, Pending(t.state));
        var t1 := TopoVisitDeps(deps, deps(n), TopoWalk(t.state[n := Undead], t.out, None));
        if t1.error.Some? then t1
        else
          assert n in Marked(t1.state) by {
            MarkOne(t.state, n, Undead);
          }
          MarkOne(t1.state, n, Dead);
          TopoWalk(t1.state[n := Dead], t1.out + [n], None)
  }

  function TopoVisitDeps<T(==)>(deps: T -> seq<T>, cs: seq<T>, t: TopoWalk<T>): (r: TopoWalk<T>)
    ensures r.state.Keys == t.state.Keys && Pending(r.state) <= Pending(t.state)
    decreases |Pending(t.state)|, 1, |cs|
  {
    if |cs| == 0 || t.error.Some? then t
    else
      var t1 := TopoVisit(deps, cs[0], t);
      SubsetCard(Pending(t1.state), Pending(t.state));
      TopoVisitDeps(deps, cs[1..], t1)
  }

  function TopoRoots<T(==)>(deps: T -> seq<T>, nodes: seq<T>, k: nat, t: TopoWalk<T>): TopoWalk<T>
    requires k <= |nodes|
    decreases |nodes| - k
  {
    if k == |nodes| || t.error.Some? then t
    else TopoRoots(deps, nodes, k + 1, TopoVisit(deps, nodes[k], t))
  }

  /** The walk `TopologicalSort` makes over a list of distinct nodes, every one `Alive` at first. */
  function TopoOrder<T(==)>(nodes: seq<T>, deps: T -> seq<T>): TopoWalk<T> {
    TopoRoots(deps, nodes, 0, TopoWalk(map k | k in nodes :: Alive, [], None))
  }

  /** A topological walk and a post-order walk agree: same list, same exception, and the marked nodes are the visited ones. */
  predicate Agree<T>(keys: set<T>, w: Walk<T>, t: TopoWalk<T>) {
    t.state.Keys == keys && w.out == t.out && w.error == t.error &&
    (w.error.None? ==> w.visited == Marked(t.state))
  }

  /** `TopologicalSort`'s visit does what `PostOrderSort`'s does, with the dependencies as children. */
  lemma {:induction false} TopoVisitAgrees<T>(keys: set<T>, deps: T -> seq<T>, n: T, w: Walk<T>, t: TopoWalk<T>)
    requires Agree(keys, w, t)
    ensures Agree(keys, VisitPost(keys, deps, n, w), TopoVisit(deps, n, t))
    decreases |keys - w.visited|, 0, 1
  {
    if w.error.None? && n in keys && n !in w.visited {
      TopoVisitAgreesAlive(keys, deps, n, w, t);
    } else if w.error.None? && n in keys {
      assert t.state[n] != Alive;
    }
  }

  lemma {:induction false} TopoVisitAgreesAlive<T>(keys: set<T>, deps: T -> seq<T>, n: T, w: Walk<T>, t: TopoWalk<T>)
    requires Agree(keys, w, t) && w.error.None? && n in keys && n !in w.visited
    ensures Agree(keys, VisitPost(keys, deps, n, w), TopoVisit(deps, n, t))
    decreases |keys - w.visited|, 0, 0
  {
    assert t.state[n] == Alive;
    MarkOne(t.state, n, Undead);
    Shrinks(keys, w.visited, w.visited + {n}, n);
    var w0 := Walk(w.visited + {n}, w.out, None);
    var t0 := TopoWalk(t.state[n := Undead], t.out, None);
    TopoVisitDepsAgrees(keys, deps, deps(n), w0, t0);
    var t1 := TopoVisitDeps(deps, deps(n), t0);
    var w1 := VisitChildrenPost(keys, deps, deps(n), w0);
    if t1.error.None? {
      MarkOne(t1.state, n, Dead);
      assert TopoVisit(deps, n, t) == TopoWalk(t1.state[n := Dead], t1.out + [n], None);
      assert VisitPost(keys, deps, n, w) == Walk(w1.visited, w1.out + [n], None);
    } else {
      assert TopoVisit(deps, n, t) == t1;
      assert VisitPost(keys, deps, n, w) == w1;
    }
  }

  lemma {:induction false} TopoVisitDepsAgrees<T>(keys: set<T>, deps: T -> seq<T>, cs: seq<T>, w: Walk<T>, t: TopoWalk<T>)
    requires Agree(keys, w, t)
    ensures Agree(keys, VisitChildrenPost(keys, deps, cs, w), TopoVisitDeps(deps, cs, t))
    decreases |keys - w.visited|, 1, |cs|
  {
    if |cs| > 0 && w.error.None? {
      TopoVisitAgrees(keys, deps, cs[0], w, t);
      var w1 := VisitPost(keys, deps, cs[0], w);
      NoGrowth(keys, w.visited, w1.visited);
      TopoVisitDepsAgrees(keys, deps, cs[1..], w1, TopoVisit(deps, cs[0], t));
    }
  }

  lemma {:induction false} TopoRootsAgree<T>(keys: set<T>, deps: T -> seq<T>, nodes: seq<T>, k: nat, w: Walk<T>, t: TopoWalk<T>)
    requires k <= |nodes| && Agree(keys, w, t)
    ensures Agree(keys, RootsPost(keys, deps, nodes, k, w), TopoRoots(deps, nodes, k, t))
    decreases |nodes| - k
  {
    if k < |nodes| && w.error.None? {
      TopoVisitAgrees(keys, deps, nodes[k], w, t);
      TopoRootsAgree(keys, deps, nodes, k + 1, VisitPost(keys, deps, nodes[k], w), TopoVisit(deps, nodes[k], t));
    }
  }

  /**
   * `TopologicalSort` rebuilds the list exactly as `PostOrderSort` would with the dependencies
   * as children: a back edge to a node in progress is skipped in both, so a cycle never fails the sort.
   */
  lemma TopoOrderIsPostOrder<T>(nodes: seq<T>, deps: T -> seq<T>)
    ensures TopoOrder(nodes, deps).out == PostOrder(nodes, deps).out
    ensures TopoOrder(nodes, deps).error == PostOrder(nodes, deps).error
  {
    var t := TopoWalk(map k | k in nodes :: Alive, [], None);
    assert Marked(t.state) == {};
    TopoRootsAgree(KeysOf(nodes), deps, nodes, 0, Walk({}, [], None), t);
  }

  /**
   * Over distinct nodes, `TopologicalSort` succeeds exactly when every dependency is listed,
   * leaves a permutation of the list, and in an acyclic graph puts dependencies first.
   */
  lemma TopoOrderSorts<T>(nodes: seq<T>, deps: T -> seq<T>, rank: T -> nat)
    requires Distinct(nodes)
    ensures TopoOrder(nodes, deps).error.None? <==> Closed(nodes, deps)
    ensures TopoOrder(nodes, deps).error.None? ==> multiset(TopoOrder(nodes, deps).out) == multiset(nodes)
    ensures TopoOrder(nodes, deps).error.None? && Ranked(nodes, deps, rank) ==>
      ChildrenFirst(deps, TopoOrder(nodes, deps).out, 0)
  {
    TopoOrderIsPostOrder(nodes, deps);
    PostOrderPermutes(nodes, deps);
    if Ranked(nodes, deps, rank) {
      PostOrderRanks(nodes, deps, rank);
    }
  }

  /** ToDictionary succeeded, so `Debug.Assert(graph.Count == nodes.Count)` holds. */
  lemma {:induction false} DistinctKeysCount<T>(nodes: seq<T>)
    requires Distinct(nodes)
    ensures |KeysOf(nodes)| == |nodes|
  {
    if |nodes| > 0 {
      var rest := nodes[1..];
      assert Distinct(rest) by {
        forall i, j | 0 <= i < j < |rest| ensures rest[i] != rest[j] { assert rest[i] == nodes[i + 1] && rest[j] == nodes[j + 1]; }
      }
      DistinctKeysCount(rest);
      assert KeysOf(nodes) == KeysOf(rest) + {nodes[0]};
      assert nodes[0] !in KeysOf(rest) by {
        forall i | 0 <= i < |rest| ensures rest[i] != nodes[0] { assert rest[i] == nodes[i + 1]; }
      }
    }
  }

  // ---------------------------------------------------------------------------------------
  // The walks one step at a time, as the loops of the methods below take them

  lemma ChildrenPreStep<T>(keys: set<T>, children: T -> seq<T>, cs: seq<T>, i: nat, w: Walk<T>)
    requires i < |cs| && w.error.None?
    ensures VisitChildrenPre(keys, children, cs[i..], w) == VisitChildrenPre(keys, children, cs[i + 1..], VisitPre(keys, children, cs[i], w))
  {
    assert cs[i..][0] == cs[i] && cs[i..][1..] == cs[i + 1..];
  }

  lemma ChildrenPostStep<T>(keys: set<T>, children: T -> seq<T>, cs: seq<T>, i: nat, w: Walk<T>)
    requires i < |cs| && w.error.None?
    ensures VisitChildrenPost(keys, children, cs[i..], w) == VisitChildrenPost(keys, children, cs[i + 1..], VisitPost(keys, children, cs[i], w))
  {
    assert cs[i..][0] == cs[i] && cs[i..][1..] == cs[i + 1..];
  }

  lemma TopoDepsStep<T>(deps: T -> seq<T>, cs: seq<T>, i: nat, t: TopoWalk<T>)
    requires i < |cs| && t.error.None?
    ensures TopoVisitDeps(deps, cs[i..], t) == TopoVisitDeps(deps, cs[i + 1..], TopoVisit(deps, cs[i], t))
  {
    assert cs[i..][0] == cs[i] && cs[i..][1..] == cs[i + 1..];
  }

  /** The list the sorts rewrite in place (the `IList<T>` they extend). */
  class NodeList<T(==)> {
    var items: seq<T>

    constructor(items: seq<T>)
      ensures this.items == items
    {
      this.items := items;
    }

    /**
     * `PreOrderSort`: a list with a repeated node throws before it is cleared; otherwise the
     * list becomes the pre-order walk, which succeeds exactly when every child is listed and
     * then is a permutation of the old list.
     */
    method PreOrderSort(children: T -> seq<T>) returns (r: Result<()>)
      modifies this
      ensures !Distinct(old(items)) ==> r == Err(Thrown(DuplicateKey)) && items == old(items)
      ensures Distinct(old(items)) ==> items == PreOrder(old(items), children).out
      ensures Distinct(old(items)) && r.Err? ==> Some(r.error) == PreOrder(old(items), children).error
      ensures r.Ok? <==> Distinct(old(items)) && Closed(old(items), children)
      ensures r.Ok? ==> multiset(items) == multiset(old(items))
    {
      var nodes := items;
      if !Distinct(nodes) {
        return Err(Thrown(DuplicateKey));
      }
      var keys := KeysOf(nodes);
      items := [];
      var visited: set<T> := {};
      var error: Option<Error> := None;
      var k := 0;
      while k < |nodes| && error.None?
        invariant 0 <= k <= |nodes|
        invariant PreOrder(nodes, children) == RootsPre(keys, children, nodes, k, Walk(visited, items, error))
      {
        visited, error := VisitPreOrder(keys, children, nodes[k], visited);
        k := k + 1;
      }
      PreOrderPermutes(nodes, children);
      r := if error.None? then Ok(()) else Err(error.value);
    }

    /** The local `Visit` of `PreOrderSort`, from a walk without exception. */
    method VisitPreOrder(keys: set<T>, children: T -> seq<T>, n: T, visited: set<T>) returns (visited': set<T>, error: Option<Error>)
      modifies this`items
      ensures Walk(visited', items, error) == VisitPre(keys, children, n, Walk(visited, old(items), None))
      decreases |keys - visited|
    {
      if n in visited {
        return visited, None;
      }
      visited' := visited + {n};
      items := items + [n];
      if n !in keys {
        return visited', Some(Thrown(KeyNotFound));
      }
      var cs := children(n);
      ghost var start := Walk(visited', items, None);
      error := None;
      var i := 0;
      while i < |cs| && error.None?
        invariant 0 <= i <= |cs| && visited + {n} <= visited'
        invariant VisitChildrenPre(keys, children, cs, start) == VisitChildrenPre(keys, children, cs[i..], Walk(visited', items, error))
      {
        ChildrenPreStep(keys, children, cs, i, Walk(visited', items, error));
        Shrinks(keys, visited, visited', n);
        visited', error := VisitPreOrder(keys, children, cs[i], visited');
        i := i + 1;
      }
    }

    /**
     * `PostOrderSort`: as `PreOrderSort`, with each node listed after its children's visits;
     * in an acyclic graph every child comes before its parent.
     */
    method PostOrderSort(children: T -> seq<T>) returns (r: Result<()>)
      modifies this
      ensures !Distinct(old(items)) ==> r == Err(Thrown(DuplicateKey)) && items == old(items)
      ensures Distinct(old(items)) ==> items == PostOrder(old(items), children).out
      ensures Distinct(old(items)) ==>
        PostOrder(old(items), children).error == if r.Ok? then None else Some(r.error)
      ensures r.Ok? <==> Distinct(old(items)) && Closed(old(items), children)
      ensures r.Ok? ==> multiset(items) == multiset(old(items))
    {
      var nodes := items;
      if !Distinct(nodes) {
        return Err(Thrown(DuplicateKey));
      }
      var keys := KeysOf(nodes);
      items := [];
      var visited: set<T> := {};
      var error: Option<Error> := None;
      var k := 0;
      while k < |nodes| && error.None?
        invariant 0 <= k <= |nodes|
        invariant PostOrder(nodes, children) == RootsPost(keys, children, nodes, k, Walk(visited, items, error))
      {
        visited, error := VisitPostOrder(keys, children, nodes[k], visited);
        k := k + 1;
      }
      PostOrderPermutes(nodes, children);
      r := if error.None? then Ok(()) else Err(error.value);
    }

    /** The local `Visit` of `PostOrderSort`, from a walk without exception. */
    method VisitPostOrder(keys: set<T>, children: T -> seq<T>, n: T, visited: set<T>) returns (visited': set<T>, error: Option<Error>)
      modifies this`items
      ensures Walk(visited', items, error) == VisitPost(keys, children, n, Walk(visited, old(items), None))
      decreases |keys - visited|
    {
      if n in visited {
        return visited, None;
      }
      visited' := visited + {n};
      if n !in keys {
        return visited', Some(Thrown(KeyNotFound));
      }
      var cs := children(n);
      ghost var start := Walk(visited', items, None);
      error := None;
      var i := 0;
      while i < |cs| && error.None?
        invariant 0 <= i <= |cs| && visited + {n} <= visited'
        invariant VisitChildrenPost(keys, children, cs, start) == VisitChildrenPost(keys, children, cs[i..], Walk(visited', items, error))
      {
        ChildrenPostStep(keys, children, cs, i, Walk(visited', items, error));
        Shrinks(keys, visited, visited', n);
        visited', error := VisitPostOrder(keys, children, cs[i], visited');
        i := i + 1;
      }
      if error.None? {
        items := items + [n];
      }
    }

    /**
     * `TopologicalSort`: the digraph it prints is left out. The list becomes the topological
     * walk, which is the post-order walk over the dependencies: a permutation when every
     * dependency is listed, with dependencies first in an acyclic graph, and a cycle skipped.
     */
    method TopologicalSort(deps: T -> seq<T>) returns (r: Result<()>)
      modifies this
      ensures !Distinct(old(items)) ==> r == Err(Thrown(DuplicateKey)) && items == old(items)
      ensures Distinct(old(items)) ==> items == TopoOrder(old(items), deps).out
      ensures Distinct(old(items)) && r.Err? ==> Some(r.error) == TopoOrder(old(items), deps).error
      ensures r.Ok? <==> Distinct(old(items)) && Closed(old(items), deps)
      ensures r.Ok? ==> multiset(items) == multiset(old(items))
    {
      var nodes := items;
      if !Distinct(nodes) {
        return Err(Thrown(DuplicateKey));
      }
      DistinctKeysCount(nodes);
      var error := WalkRoots(deps, nodes);
      TopoOrderSorts(nodes, deps, _ => 0);
      r := if error.None? then Ok(()) else Err(error.value);
    }

    /** The loop of `TopologicalSort`: a `Visit` from each node in turn, until one throws. */
    method WalkRoots(deps: T -> seq<T>, nodes: seq<T>) returns (error: Option<Error>)
      modifies this`items
      ensures items == TopoOrder(nodes, deps).out && error == TopoOrder(nodes, deps).error
    {
      var state := map k | k in nodes :: Alive;
      items := [];
      error := None;
      var k := 0;
      while k < |nodes| && error.None?
        invariant 0 <= k <= |nodes|
        invariant TopoOrder(nodes, deps) == TopoRoots(deps, nodes, k, TopoWalk(state, items, error))
      {
        state, error := VisitTopological(deps, nodes[k], state);
        k := k + 1;
      }
    }

    /** The local `Visit` of `TopologicalSort`, from a walk without exception. */
    method VisitTopological(deps: T -> seq<T>, n: T, state: map<T, Mark>) returns (state': map<T, Mark>, error: Option<Error>)
      modifies this`items
      ensures TopoWalk(state', items, error) == TopoVisit(deps, n, TopoWalk(state, old(items), None))
      decreases |Pending(state)|
    {
      if n !in state {
        return state, Some(Thrown(KeyNotFound));
      }
      match state[n]
      case Dead =>
        return state, None;
      case Undead =>
        return state, None;
      case Alive =>
        MarkOne(state, n, Undead);
        state' := state[n := Undead];
        var cs := deps(n);
        ghost var start := TopoWalk(state', items, None);
        error := None;
        var i := 0;
        while i < |cs| && error.None?
          invariant 0 <= i <= |cs| && Pending(state') <= Pending(state) - {n}
          invariant TopoVisitDeps(deps, cs, start) == TopoVisitDeps(deps, cs[i..], TopoWalk(state', items, error))
        {
          TopoDepsStep(deps, cs, i, TopoWalk(state', items, error));
          SubsetCard(Pending(state'), Pending(state) - {n});
          state', error := VisitTopological(deps, cs[i], state');
          i := i + 1;
        }
        if error.None? {
          state' := state'[n := Dead];
          items := items + [n];
        }
    }

    /** `List.Reverse`: the list back to front. */
    method Reverse()
      modifies this
      ensures items == Reversed(old(items))
    {
      var s := items;
      var out: seq<T> := [];
      while |out| < |s|
        invariant |out| <= |s| && forall i | 0 <= i < |out| :: out[i] == s[|s| - 1 - i]
      {
        out := out + [s[|s| - 1 - |out|]];
      }
      items := out;
    }
  }

  /** The list back to front. */
  function Reversed<T>(s: seq<T>): (r: seq<T>)
    ensures |r| == |s| && forall k | 0 <= k < |s| :: r[k] == s[|s| - 1 - k]
  {
    if |s| == 0 then [] else [s[|s| - 1]] + Reversed(s[..|s| - 1])
  }
}

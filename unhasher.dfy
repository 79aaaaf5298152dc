// The brute-force search for a name with a given hash (src/MajiroLib/Script/CrcUnhasher.cs):
// an odometer over a charset, whose digits are kept in the levels array and whose bytes are
// kept in the buffer, each candidate checked against the hash rewound through the postfix.

module Unhasher {
  import opened Wrappers
  import opened Crc

  /** The bytes of the default charset "abcdefghijklmnopqrstuvwxyz_0123456789" (ASCII). */
  function DefaultCharsetBytes(): seq<bv8> {
    [0x61, 0x62, 0x63, 0x64, 0x65, 0x66, 0x67, 0x68, 0x69, 0x6A, 0x6B, 0x6C, 0x6D, 0x6E, 0x6F, 0x70,
     0x71, 0x72, 0x73, 0x74, 0x75, 0x76, 0x77, 0x78, 0x79, 0x7A, 0x5F, 0x30, 0x31, 0x32, 0x33, 0x34,
     0x35, 0x36, 0x37, 0x38, 0x39]
  }

  // ---------------------------------------------------------------------------------------------
  // The odometer, as functions of the levels

  /** Every level selects a charset byte. */
  predicate Digits(l: seq<int>, n: int) {
    forall i | 0 <= i < |l| :: 0 <= l[i] < n
  }

  /** The counter the levels spell, position 0 the fastest digit, in base n. */
  function Value(l: seq<int>, n: int): int {
    if l == [] then 0 else l[0] + n * Value(l[1..], n)
  }

  function Pow(n: int, k: nat): int {
    if k == 0 then 1 else n * Pow(n, k - 1)
  }

  function Zeros(k: nat): seq<int> {
    seq(k, _ => 0)
  }

  /**
   * The carry loop of MoveNext: the levels after it, and whether the carry ran past the last
   * position (bufferIndex >= length). A level that reaches n wraps to 0 and carries on.
   */
  function Increment(l: seq<int>, n: int): (seq<int>, bool) {
    if l == [] then ([], true)
    else if l[0] + 1 != n then ([l[0] + 1] + l[1..], false)
    else
      var (t, c) := Increment(l[1..], n);
      ([0] + t, c)
  }

  /** The levels with the first min(k, |l|) of them raised to top. */
  function Saturated(l: seq<int>, k: nat, top: int): (r: seq<int>)
    ensures |r| == |l|
    ensures forall i | 0 <= i < |l| :: r[i] == if i < k then top else l[i]
  {
    var m := if k < |l| then k else |l|;
    seq(m, _ => top) + l[m..]
  }

  /** A run of positions at their last level wraps to zeros and passes the carry on. */
  lemma {:induction false} CarryThrough(a: seq<int>, b: seq<int>, n: int)
    requires forall j | 0 <= j < |a| :: a[j] == n - 1
    ensures Increment(a + b, n) == (Zeros(|a|) + Increment(b, n).0, Increment(b, n).1)
    decreases |a|
  {
    if a == [] {
      assert a + b == b;
      assert Zeros(0) + Increment(b, n).0 == Increment(b, n).0;
    } else {
      assert (a + b)[1..] == a[1..] + b;
      CarryThrough(a[1..], b, n);
      assert Zeros(|a|) == [0] + Zeros(|a| - 1);
      assert [0] + (Zeros(|a| - 1) + Increment(b, n).0) == Zeros(|a|) + Increment(b, n).0;
    }
  }

  /** The carry stops at the first position not at its last level, which goes up by one. */
  lemma CarryStopsAt(l: seq<int>, n: int, k: int)
    requires 0 <= k < |l| && l[k] + 1 != n
    requires forall j | 0 <= j < k :: l[j] == n - 1
    ensures Increment(l, n) == (Zeros(k) + [l[k] + 1] + l[k + 1..], false)
  {
    assert l == l[..k] + l[k..];
    CarryThrough(l[..k], l[k..], n);
    assert l[k..][1..] == l[k + 1..];
    assert Increment(l[k..], n) == ([l[k] + 1] + l[k + 1..], false);
    assert Zeros(k) + ([l[k] + 1] + l[k + 1..]) == Zeros(k) + [l[k] + 1] + l[k + 1..];
  }

  /** With every position at its last level the carry runs out and all levels wrap. */
  lemma CarryPast(l: seq<int>, n: int)
    requires forall j | 0 <= j < |l| :: l[j] == n - 1
    ensures Increment(l, n) == (Zeros(|l|), true)
  {
    assert l + [] == l;
    CarryThrough(l, [], n);
    assert Zeros(|l|) + [] == Zeros(|l|);
  }

  /** The carry keeps the number of positions and leaves every level a digit. */
  lemma {:induction false} IncrementKeepsDigits(l: seq<int>, n: int)
    requires n > 0 && Digits(l, n)
    ensures |Increment(l, n).0| == |l| && Digits(Increment(l, n).0, n)
    decreases |l|
  {
    if l != [] && l[0] + 1 == n {
      IncrementKeepsDigits(l[1..], n);
      var t := Increment(l, n).0;
      assert forall j | 1 <= j < |t| :: t[j] == Increment(l[1..], n).0[j - 1];
    }
  }

  lemma MulDistributes(n: int, v: int)
    ensures n * (v + 1) == n * v + n && n * (v - 1) == n * v - n
  {
  }

  /** The odometer counts: it adds one to the counter, or wraps to 0 from the largest value. */
  lemma {:induction false} IncrementCounts(l: seq<int>, n: int)
    ensures !Increment(l, n).1 ==> Value(Increment(l, n).0, n) == Value(l, n) + 1
    ensures Increment(l, n).1 ==> Value(Increment(l, n).0, n) == 0 && Value(l, n) == Pow(n, |l|) - 1
    decreases |l|
  {
    if l != [] {
      var (t, c) := Increment(l, n);
      if l[0] + 1 != n {
        assert t[1..] == l[1..];
      } else {
        var (t1, c1) := Increment(l[1..], n);
        IncrementCounts(l[1..], n);
        assert t[1..] == t1;
        assert Value(t, n) == n * Value(t1, n);
        MulDistributes(n, Value(l[1..], n));
        MulDistributes(n, Pow(n, |l| - 1));
      }
    }
  }

  /** The carry runs past the last position exactly when every position is at its last level. */
  lemma {:induction false} IncrementWrapsIff(l: seq<int>, n: int)
    requires Digits(l, n)
    ensures Increment(l, n).1 <==> forall j | 0 <= j < |l| :: l[j] == n - 1
    decreases |l|
  {
    if l != [] {
      IncrementWrapsIff(l[1..], n);
      if l[0] + 1 == n {
        assert forall j | 1 <= j < |l| :: l[j] == l[1..][j - 1];
      }
    }
  }

  /** After a match the first four positions wrap, and the carry goes on from position 4. */
  lemma SaturatedWraps(l: seq<int>, n: int)
    ensures Increment(Saturated(l, 4, n - 1), n)
      == if |l| <= 4 then (Zeros(|l|), true)
         else (Zeros(4) + Increment(l[4..], n).0, Increment(l[4..], n).1)
  {
    var s := Saturated(l, 4, n - 1);
    if |l| <= 4 {
      CarryPast(s, n);
    } else {
      assert s == s[..4] + l[4..];
      CarryThrough(s[..4], l[4..], n);
    }
  }

  /** The counter of a + c: the digits of c count in units of n to the power |a|. */
  lemma {:induction false} ValueSplit(a: seq<int>, c: seq<int>, n: int)
    ensures Value(a + c, n) == Value(a, n) + Pow(n, |a|) * Value(c, n)
    decreases |a|
  {
    if a != [] {
      assert (a + c)[1..] == a[1..] + c;
      ValueSplit(a[1..], c, n);
      assert n * (Value(a[1..], n) + Pow(n, |a| - 1) * Value(c, n))
        == n * Value(a[1..], n) + (n * Pow(n, |a| - 1)) * Value(c, n);
    } else {
      assert a + c == c;
    }
  }

  lemma {:induction false} ZerosCountNothing(k: nat, n: int)
    ensures Value(Zeros(k), n) == 0
    decreases k
  {
    if k > 0 {
      assert Zeros(k)[1..] == Zeros(k - 1);
      ZerosCountNothing(k - 1, n);
    }
  }

  /** Digits in base n spell a counter below n to the power of their number. */
  lemma {:induction false} ValueBounds(l: seq<int>, n: int)
    requires n > 0 && Digits(l, n)
    ensures 0 <= Value(l, n) < Pow(n, |l|)
    decreases |l|
  {
    if l != [] {
      assert Digits(l[1..], n);
      ValueBounds(l[1..], n);
      var v, p := Value(l[1..], n), Pow(n, |l| - 1);
      MulMonotone(n, 0, v);
      MulMonotone(n, v, p - 1);
      MulDistributes(n, p - 1);
    }
  }

  lemma MulMonotone(n: int, x: int, y: int)
    requires n >= 0 && x <= y
    ensures n * x <= n * y
  {
    assert n * y - n * x == n * (y - x);
  }

  /** In base n, the counter determines digits of a given number. */
  lemma {:induction false} ValueInjective(a: seq<int>, c: seq<int>, n: int)
    requires n > 0 && Digits(a, n) && Digits(c, n) && |a| == |c|
    requires Value(a, n) == Value(c, n)
    ensures a == c
    decreases |a|
  {
    if a != [] {
      assert Digits(a[1..], n) && Digits(c[1..], n);
      var x, y := Value(a[1..], n), Value(c[1..], n);
      ScaledBelow(n, x, y);
      ScaledBelow(n, y, x);
      ValueInjective(a[1..], c[1..], n);
      assert a == [a[0]] + a[1..] && c == [c[0]] + c[1..];
    }
  }

  /** Scaling by a positive factor keeps a strict order, in the other direction too. */
  lemma ScaledBelow(p: int, x: int, y: int)
    requires p > 0 && p * x < p * y + p
    ensures x <= y
  {
    if x > y {
      assert p * x >= p * (y + 1);
      MulDistributes(p, y);
    }
  }

  /**
   * A candidate matches when hashing it from the prefix's hash reaches the target rewound through
   * the postfix, which is exactly when prefix + candidate + postfix hashes to the target.
   */
  lemma MatchIsPreimage(prefix: seq<bv8>, candidate: seq<bv8>, postfix: seq<bv8>, target: bv32)
    ensures HashValue32(candidate, HashValue32(prefix, 0)) == HashInverseValue32(postfix, target)
      <==> HashValue32(prefix + candidate + postfix, 0) == target
  {
    HashChains32(prefix, candidate, 0);
    HashChains32(prefix + candidate, postfix, 0);
    HashReachesIff(postfix, HashValue32(prefix + candidate, 0), target);
  }

  /** How many leading positions MoveNext saturates after a match: Math.Min(4, length). */
  function SkipWidth(length: nat): nat {
    if length < 4 then length else 4
  }

  /**
   * Saturating the first min(4, length) levels after a match skips no other answer: a candidate
   * of the same length with the same bytes from position 4 on that also matches is the match.
   */
  lemma SkipLosesNothing(prefix: seq<bv8>, buffer: seq<bv8>, other: seq<bv8>, postfix: seq<bv8>, target: bv32)
    requires |other| == |buffer|
    requires other[SkipWidth(|buffer|)..] == buffer[SkipWidth(|buffer|)..]
    requires HashValue32(prefix + buffer + postfix, 0) == target
    requires HashValue32(prefix + other + postfix, 0) == target
    ensures other == buffer
  {
    var m, init := SkipWidth(|buffer|), HashValue32(prefix, 0);
    MatchIsPreimage(prefix, buffer, postfix, target);
    MatchIsPreimage(prefix, other, postfix, target);
    assert buffer == buffer[..m] + buffer[m..] && other == other[..m] + other[m..];
    HashChains32(buffer[..m], buffer[m..], init);
    HashChains32(other[..m], buffer[m..], init);
    HashInitInjective32(buffer[m..], HashValue32(buffer[..m], init), HashValue32(other[..m], init));
    HashInjective32(buffer[..m], other[..m], init);
  }

  /**
   * The candidates MoveNext passes over after a match at the levels l: from l up to, and not
   * including, the levels it moves on to (all the rest when the carry runs out). Each of them
   * has the levels of l from position 4 on.
   */
  lemma SkippedShareTail(l: seq<int>, c: seq<int>, n: int)
    requires n > 0 && Digits(l, n) && Digits(c, n) && |c| == |l|
    requires Value(l, n) <= Value(c, n)
    requires Increment(Saturated(l, 4, n - 1), n).1 || Value(c, n) < Value(Increment(Saturated(l, 4, n - 1), n).0, n)
    ensures c[SkipWidth(|l|)..] == l[SkipWidth(|l|)..]
  {
    if |l| > 4 {
      var (t, wrapped) := Increment(l[4..], n);
      SaturatedWraps(l, n);
      assert Digits(l[..4], n) && Digits(l[4..], n) && Digits(c[..4], n) && Digits(c[4..], n);
      var p, a, b := Pow(n, 4), Value(l[4..], n), Value(c[4..], n);
      ValueSplit(l[..4], l[4..], n);
      ValueSplit(c[..4], c[4..], n);
      assert l == l[..4] + l[4..] && c == c[..4] + c[4..];
      ValueBounds(l[..4], n);
      ValueBounds(c[..4], n);
      ValueBounds(c[4..], n);
      IncrementCounts(l[4..], n);
      ScaledBelow(p, a, b);
      if wrapped {
        assert b <= a;
      } else {
        ValueSplit(Zeros(4), t, n);
        ZerosCountNothing(4, n);
        assert p * b < p * (a + 1);
        MulDistributes(p, a);
        ScaledBelow(p, b, a);
      }
      ValueInjective(c[4..], l[4..], n);
    }
  }

  /**
   * So the search loses no answer by saturating: a candidate MoveNext passes over after a match
   * whose pattern also hashes to the target spells the bytes of the match.
   */
  lemma SkippedMatchIsTheMatch(charset: seq<bv8>, l: seq<int>, buffer: seq<bv8>, c: seq<int>, other: seq<bv8>,
                               prefix: seq<bv8>, postfix: seq<bv8>, target: bv32)
    requires Selects(l, buffer, charset) && Selects(c, other, charset) && |c| == |l|
    requires HashValue32(prefix + buffer + postfix, 0) == target
    requires Value(l, |charset|) <= Value(c, |charset|)
    requires Increment(Saturated(l, 4, |charset| - 1), |charset|).1
      || Value(c, |charset|) < Value(Increment(Saturated(l, 4, |charset| - 1), |charset|).0, |charset|)
    ensures HashValue32(prefix + other + postfix, 0) == target ==> other == buffer
  {
    var n := |charset|;
    if |l| > 0 {
      assert Digits(l, n) && Digits(c, n);
      SkippedShareTail(l, c, n);
      var m := SkipWidth(|l|);
      assert forall i | m <= i < |l| :: other[i] == buffer[i];
      assert other[m..] == buffer[m..];
      if HashValue32(prefix + other + postfix, 0) == target {
        SkipLosesNothing(prefix, buffer, other, postfix, target);
      }
    }
  }

  // ---------------------------------------------------------------------------------------------
  // The loops of the enumerator, on its two arrays

  /** Every level selects a charset byte, the one at the same position of the buffer. */
  predicate Selects(levels: seq<int>, buffer: seq<bv8>, charset: seq<bv8>) {
    |levels| == |buffer| && forall i | 0 <= i < |levels| :: 0 <= levels[i] < |charset| && buffer[i] == charset[levels[i]]
  }

  /**
   * The loop of Reset: levels to 0 and the buffer to charset[0], position by position. With an
   * empty charset and a positive length, reading charset[0] throws after levels[0] is cleared.
   */
  method ResetLoop(levels: array<int>, buffer: array<bv8>, charset: seq<bv8>) returns (ok: bool)
    requires levels.Length == buffer.Length && levels as object != buffer as object
    modifies levels, buffer
    ensures ok <==> levels.Length == 0 || |charset| > 0
    ensures ok ==> levels[..] == Zeros(levels.Length) && Selects(levels[..], buffer[..], charset)
    ensures !ok ==> levels[0] == 0 && levels[1..] == old(levels[1..]) && buffer[..] == old(buffer[..])
  {
    var i := 0;
    while i < levels.Length
      invariant 0 <= i <= levels.Length
      invariant i > 0 ==> |charset| > 0
      invariant forall j | 0 <= j < i :: levels[j] == 0 && buffer[j] == charset[0]
      invariant forall j | i <= j < levels.Length :: levels[j] == old(levels[j]) && buffer[j] == old(buffer[j])
    {
      levels[i] := 0;
      if |charset| == 0 {
        assert levels[1..] == old(levels[1..]);
        return false;
      }
      buffer[i] := charset[0];
      i := i + 1;
    }
    assert levels[..] == Zeros(levels.Length);
    return true;
  }

  /** The match case of MoveNext: the first min(4, length) levels go to the last charset index. */
  method SaturateLoop(levels: array<int>, top: int)
    modifies levels
    ensures levels[..] == Saturated(old(levels[..]), 4, top)
  {
    var i := 0;
    while i < (if levels.Length < 4 then levels.Length else 4)
      invariant 0 <= i <= (if levels.Length < 4 then levels.Length else 4)
      invariant forall j | 0 <= j < i :: levels[j] == top
      invariant forall j | i <= j < levels.Length :: levels[j] == old(levels[j])
    {
      levels[i] := top;
      i := i + 1;
    }
  }

  /**
   * The carry loop of MoveNext: a level that reaches the charset size wraps to 0 and carries on;
   * the result says whether the carry ran past the last position. The buffer may lag behind the
   * first `stale` levels, all at the last charset index (as SaturateLoop leaves them); it is up to
   * date again afterwards.
   */
  method CarryLoop(levels: array<int>, buffer: array<bv8>, charset: seq<bv8>, ghost stale: nat)
      returns (wrapped: bool)
    requires levels.Length == buffer.Length && levels as object != buffer as object
    requires forall j | 0 <= j < levels.Length :: 0 <= levels[j] < |charset|
    requires forall j | 0 <= j < levels.Length && j < stale :: levels[j] == |charset| - 1
    requires forall j | stale <= j < levels.Length :: buffer[j] == charset[levels[j]]
    modifies levels, buffer
    ensures Selects(levels[..], buffer[..], charset)
    ensures (levels[..], wrapped) == Increment(old(levels[..]), |charset|)
  {
    ghost var start := levels[..];
    var n := |charset|;
    var bufferIndex := 0;
    while bufferIndex < levels.Length
      invariant 0 <= bufferIndex <= levels.Length
      invariant bufferIndex > 0 ==> n > 0
      invariant forall j | 0 <= j < bufferIndex :: start[j] == n - 1 && levels[j] == 0 && buffer[j] == charset[0]
      invariant forall j | bufferIndex <= j < levels.Length :: levels[j] == start[j] && buffer[j] == old(buffer[j])
    {
      levels[bufferIndex] := levels[bufferIndex] + 1;
      var charsetIndex := levels[bufferIndex];
      if charsetIndex != n {
        buffer[bufferIndex] := charset[charsetIndex];
        CarryStops(start, old(buffer[..]), levels[..], buffer[..], charset, stale, bufferIndex);
        break;
      }
      levels[bufferIndex] := 0;
      buffer[bufferIndex] := charset[0];
      bufferIndex := bufferIndex + 1;
    }
    wrapped := bufferIndex >= levels.Length;
    if wrapped {
      CarryWraps(start, levels[..], buffer[..], charset);
    }
  }

  /** The state the carry loop breaks in at position i: a selection, and the incremented levels. */
  lemma CarryStops(start: seq<int>, before: seq<bv8>, l: seq<int>, b: seq<bv8>, charset: seq<bv8>, stale: nat, i: nat)
    requires |start| == |before| == |l| == |b| && i < |l|
    requires forall j | 0 <= j < |start| :: 0 <= start[j] < |charset|
    requires forall j | 0 <= j < |start| && j < stale :: start[j] == |charset| - 1
    requires forall j | stale <= j < |start| :: before[j] == charset[start[j]]
    requires forall j | 0 <= j < i :: start[j] == |charset| - 1 && l[j] == 0 && b[j] == charset[0]
    requires l[i] == start[i] + 1 != |charset| && b[i] == charset[l[i]]
    requires forall j | i < j < |l| :: l[j] == start[j] && b[j] == before[j]
    ensures Selects(l, b, charset) && (l, false) == Increment(start, |charset|)
  {
    CarryStopsAt(start, |charset|, i);
    assert l == Zeros(i) + [start[i] + 1] + start[i + 1..];
  }

  /** The state the carry loop ends in when it runs past the last position. */
  lemma CarryWraps(start: seq<int>, l: seq<int>, b: seq<bv8>, charset: seq<bv8>)
    requires |start| == |l| == |b| && (|l| > 0 ==> |charset| > 0)
    requires forall j | 0 <= j < |l| :: start[j] == |charset| - 1 && l[j] == 0 && b[j] == charset[0]
    ensures Selects(l, b, charset) && (l, true) == Increment(start, |charset|)
  {
    CarryPast(start, |charset|);
    assert l == Zeros(|l|);
  }

  // ---------------------------------------------------------------------------------------------
  // The enumerator

  class CrcUnhasher {
    var target: bv32
    var prefix: seq<bv8>
    var postfix: seq<bv8>
    var charsetBytes: seq<bv8>
    var length: int
    /** The hash of prefix. */
    var init: bv32
    /** The target rewound through postfix. */
    var expected: bv32
    var levels: array<int>
    var buffer: array<bv8>
    var current: Option<seq<bv8>>
    var combinations: int
    var finished: bool

    /** What the setters maintain: arrays of the pattern length, init and expected up to date. */
    predicate Shaped()
      reads this`length, this`levels, this`buffer, this`prefix, this`postfix, this`target, this`init, this`expected
    {
      0 <= length && levels.Length == length && buffer.Length == length && levels as object != buffer as object
      && init == HashValue32(prefix, 0) && expected == HashInverseValue32(postfix, target)
    }

    /** The enumerator's invariant: every level selects a charset byte, the one in the buffer. */
    predicate Valid()
      reads this`length, this`levels, this`buffer, this`prefix, this`postfix, this`target, this`init, this`expected
      reads this`charsetBytes, levels, buffer
    {
      Shaped() && Selects(levels[..], buffer[..], charsetBytes)
    }

    /** The state Reset leaves: all levels 0 (so the buffer all charset[0]), nothing current. */
    predicate IsReset()
      reads this, levels, buffer
    {
      Valid() && levels[..] == Zeros(length) && current == None && !finished
    }

    /** The candidate being checked, between the prefix and the postfix (Pattern's bytes). */
    function Pattern(): seq<bv8>
      reads this, buffer
    {
      prefix + buffer[..] + postfix
    }

    /** IsFinished: the carry ran out and the last candidate has been reported. */
    predicate IsFinished()
      reads this
    {
      current == None && finished
    }

    constructor ()
      ensures Valid() && target == 0 && prefix == [] && postfix == []
      ensures charsetBytes == DefaultCharsetBytes() && length == 0
      ensures current == None && combinations == 0 && !finished
    {
      target := 0;
      prefix := [];
      postfix := [];
      charsetBytes := DefaultCharsetBytes();
      length := 0;
      init := 0;
      expected := 0;
      levels := new int[0];
      buffer := new bv8[0];
      current := None;
      combinations := 0;
      finished := false;
      assert Not32(Not32(0)) == 0;
    }

    /** Reset: levels to 0, the buffer to charset[0], nothing current (see ResetLoop). */
    method Reset() returns (r: Result<()>)
      requires Shaped()
      modifies this, levels, buffer
      ensures target == old(target) && prefix == old(prefix) && postfix == old(postfix)
      ensures charsetBytes == old(charsetBytes) && length == old(length) && init == old(init)
      ensures expected == old(expected) && levels == old(levels) && buffer == old(buffer)
      ensures combinations == old(combinations) && Shaped()
      ensures r.Ok? <==> length == 0 || |charsetBytes| > 0
      ensures r.Ok? ==> IsReset()
      ensures r.Err? ==> length > 0 && |charsetBytes| == 0
      ensures r.Err? ==> levels[0] == 0 && levels[1..] == old(levels[1..]) && buffer[..] == old(buffer[..])
      ensures r.Err? ==> current == old(current) && finished == old(finished)
    {
      var ok := ResetLoop(levels, buffer, charsetBytes);
      if !ok {
        return Err(Thrown("Index was outside the bounds of the array"));
      }
      current := None;
      finished := false;
      r := Ok(());
    }

    /** Target: set the target hash, rewind it through the postfix, and reset. */
    method SetTarget(value: bv32) returns (r: Result<()>)
      requires Shaped()
      modifies this, levels, buffer
      ensures target == value && prefix == old(prefix) && postfix == old(postfix)
      ensures charsetBytes == old(charsetBytes) && length == old(length) && Shaped()
      ensures r.Ok? <==> length == 0 || |charsetBytes| > 0
      ensures r.Ok? ==> IsReset()
    {
      target := value;
      expected := HashInverse32(postfix, value);
      r := Reset();
    }

    /** Prefix: set the prefix, hash it, and reset. */
    method SetPrefix(value: seq<bv8>) returns (r: Result<()>)
      requires Shaped()
      modifies this, levels, buffer
      ensures prefix == value && target == old(target) && postfix == old(postfix)
      ensures charsetBytes == old(charsetBytes) && length == old(length) && Shaped()
      ensures r.Ok? <==> length == 0 || |charsetBytes| > 0
      ensures r.Ok? ==> IsReset()
    {
      prefix := value;
      init := Hash32(value, 0);
      r := Reset();
    }

    /** Postfix: set the postfix, rewind the target through it, and reset. */
    method SetPostfix(value: seq<bv8>) returns (r: Result<()>)
      requires Shaped()
      modifies this, levels, buffer
      ensures postfix == value && target == old(target) && prefix == old(prefix)
      ensures charsetBytes == old(charsetBytes) && length == old(length) && Shaped()
      ensures r.Ok? <==> length == 0 || |charsetBytes| > 0
      ensures r.Ok? ==> IsReset()
    {
      postfix := value;
      expected := HashInverse32(value, target);
      r := Reset();
    }

    /** Charset: set the charset's bytes and reset. */
    method SetCharset(value: seq<bv8>) returns (r: Result<()>)
      requires Shaped()
      modifies this, levels, buffer
      ensures charsetBytes == value && target == old(target) && prefix == old(prefix)
      ensures postfix == old(postfix) && length == old(length) && Shaped()
      ensures r.Ok? <==> length == 0 || |value| > 0
      ensures r.Ok? ==> IsReset()
    {
      charsetBytes := value;
      r := Reset();
    }

    /** Length: set the pattern length, allocate fresh arrays, and reset; a negative length throws. */
    method SetLength(value: int) returns (r: Result<()>)
      requires Shaped()
      modifies this
      ensures length == value && target == old(target) && prefix == old(prefix)
      ensures postfix == old(postfix) && charsetBytes == old(charsetBytes)
      ensures value < 0 ==> r.Err?
      ensures 0 <= value ==> fresh(levels) && fresh(buffer) && Shaped()
      ensures 0 <= value ==> (r.Ok? <==> value == 0 || |charsetBytes| > 0)
      ensures r.Ok? ==> IsReset()
    {
      length := value;
      if value < 0 {
        return Err(Thrown("Arithmetic operation resulted in an overflow"));
      }
      levels := new int[value];
      buffer := new bv8[value];
      r := Reset();
    }

    /**
     * The check of MoveNext: hash the buffer from the prefix's hash and compare it with the
     * target rewound through the postfix, which matches exactly when the pattern hashes to the target.
     */
    method Check() returns (matched: bool)
      requires Shaped()
      ensures matched <==> HashValue32(prefix + buffer[..] + postfix, 0) == target
    {
      MatchIsPreimage(prefix, buffer[..], postfix, target);
      var result := Hash32(buffer[..], init);
      matched := result == expected;
    }


    /** The odometer step of MoveNext: saturate after a match, then carry (see CarryLoop). */
    method Advance(matched: bool) returns (wrapped: bool)
      requires Valid()
      modifies levels, buffer
      ensures Valid()
      ensures (levels[..], wrapped)
        == Increment(Saturated(old(levels[..]), if matched then 4 else 0, |charsetBytes| - 1), |charsetBytes|)
    {
      ghost var stale := 0;
      if matched {
        SaturateLoop(levels, |charsetBytes| - 1);
        stale := 4;
      } else {
        assert levels[..] == Saturated(old(levels[..]), 0, |charsetBytes| - 1);
      }
      wrapped := CarryLoop(levels, buffer, charsetBytes, stale);
    }

    /** The bookkeeping of MoveNext: the reported pattern, one more combination, and the carry-out. */
    method Record(reported: Option<seq<bv8>>, wrapped: bool)
      requires Valid()
      modifies this
      ensures Valid() && target == old(target) && prefix == old(prefix) && postfix == old(postfix)
      ensures charsetBytes == old(charsetBytes) && length == old(length)
      ensures levels == old(levels) && buffer == old(buffer) && combinations == old(combinations) + 1
      ensures current == reported && finished == wrapped
    {
      current, combinations, finished := reported, combinations + 1, wrapped;
    }

    /**
     * MoveNext past the finished test: check the buffer, then advance the odometer. A match
     * reports the pattern and raises the first min(4, length) levels to the top so that they all wrap.
     */
    method Step()
      requires Valid()
      modifies this, levels, buffer
      ensures Valid() && target == old(target) && prefix == old(prefix) && postfix == old(postfix)
      ensures charsetBytes == old(charsetBytes) && length == old(length)
      ensures levels == old(levels) && buffer == old(buffer) && combinations == old(combinations) + 1
      ensures current ==
        (if HashValue32(prefix + old(buffer[..]) + postfix, 0) == target then Some(prefix + old(buffer[..]) + postfix) else None)
      ensures (levels[..], finished)
        == Increment(Saturated(old(levels[..]), if current.Some? then 4 else 0, |charsetBytes| - 1), |charsetBytes|)
    {
      var matched := Check();
      var reported := if matched then Some(Pattern()) else None;
      var wrapped := Advance(matched);
      Record(reported, wrapped);
    }

    /** MoveNext: once finished, nothing is current and there is no next candidate; see Step. */
    method MoveNext() returns (more: bool)
      requires Valid()
      modifies this, levels, buffer
      ensures Valid() && target == old(target) && prefix == old(prefix) && postfix == old(postfix)
      ensures charsetBytes == old(charsetBytes) && length == old(length)
      ensures levels == old(levels) && buffer == old(buffer)
      ensures old(finished) ==> !more && current == None && finished && combinations == old(combinations)
      ensures old(finished) ==> levels[..] == old(levels[..]) && buffer[..] == old(buffer[..])
      ensures !old(finished) ==> more && combinations == old(combinations) + 1
      ensures !old(finished) ==> (current ==
        (if HashValue32(prefix + old(buffer[..]) + postfix, 0) == target then Some(prefix + old(buffer[..]) + postfix) else None))
      ensures !old(finished) ==> ((levels[..], finished) == Increment(Saturated(old(levels[..]),
        if current.Some? then 4 else 0, |charsetBytes| - 1), |charsetBytes|))
    {
      if finished {
        current := None;
        return false;
      }
      Step();
      more := true;
    }
  }
}

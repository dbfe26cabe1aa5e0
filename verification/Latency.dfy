/** The latency window of the RTOS monitor and its nearest-rank percentiles. */
module Latency {
  import opened Types
  import opened SequenceNumbers

  // ------------------------------------------------------------------
  // Percentiles
  // ------------------------------------------------------------------

  function AtMost(s: seq<u32>, v: u32): (n: nat)
    ensures n <= |s|
  {
    if s == [] then 0 else AtMost(s[..|s| - 1], v) + if s[|s| - 1] <= v then 1 else 0
  }

  function LessThan(s: seq<u32>, v: u32): (n: nat)
    ensures n <= |s|
  {
    if s == [] then 0 else LessThan(s[..|s| - 1], v) + if s[|s| - 1] < v then 1 else 0
  }

  /** v is the least sample that p percent of the samples do not exceed. */
  predicate IsPercentile(s: seq<u32>, p: nat, v: u32) {
    v in s && 100 * AtMost(s, v) >= p * |s| && 100 * LessThan(s, v) < p * |s|
  }

  predicate Sorted(s: seq<u32>) {
    forall i, j :: 0 <= i < j < |s| ==> s[i] <= s[j]
  }

  /** Where the percentile sits in the sorted window. */
  function Rank(n: nat, p: nat): (i: nat)
    requires 0 < n && 0 < p <= 100
    ensures i < n
    ensures 100 * i < p * n <= 100 * (i + 1)
  {
    RankFits(n, p);
    (n * p + 99) / 100 - 1
  }

  lemma RankFits(n: nat, p: nat)
    requires 0 < n && 0 < p <= 100
    ensures 1 <= (n * p + 99) / 100 <= n
  {
    assert 1 <= n * p <= n * 100;
  }

  /** In a sorted window, position i has at least i + 1 samples not above it and at
      most i below it. */
  lemma {:induction false} CountsAt(s: seq<u32>, i: nat)
    requires Sorted(s) && i < |s|
    ensures AtMost(s, s[i]) >= i + 1 && LessThan(s, s[i]) <= i
  {
    var n := |s| - 1;
    if i < n {
      assert s[..n][i] == s[i];
      CountsAt(s[..n], i);
    } else {
      AllAtMost(s, s[i]);
    }
  }

  lemma {:induction false} AllAtMost(s: seq<u32>, v: u32)
    requires forall j :: 0 <= j < |s| ==> s[j] <= v
    ensures AtMost(s, v) == |s|
  {
    if s != [] {
      AllAtMost(s[..|s| - 1], v);
    }
  }

  lemma {:induction false} CountsAreMultiset(s: seq<u32>, t: seq<u32>, v: u32)
    requires multiset(s) == multiset(t)
    ensures AtMost(s, v) == AtMost(t, v) && LessThan(s, v) == LessThan(t, v)
    decreases |s|
  {
    if s == [] {
      assert |t| == |multiset(t)| == 0;
    } else {
      var n := |s| - 1;
      var k := Occurs(s, t);
      var a, b := t[..k], t[k + 1..];
      CountsConcat(a, [t[k]] + b, v);
      CountsConcat([t[k]], b, v);
      CountsConcat(a, b, v);
      CountsConcat(s[..n], [s[n]], v);
      assert s == s[..n] + [s[n]] && t == a + ([t[k]] + b);
      CountsAreMultiset(s[..n], a + b, v);
    }
  }

  lemma WithoutOne(s: seq<u32>, k: nat)
    requires k < |s|
    ensures multiset(s[..k] + s[k + 1..]) == multiset(s) - multiset{s[k]}
  {
    assert s == s[..k] + [s[k]] + s[k + 1..];
  }

  lemma Occurs(s: seq<u32>, t: seq<u32>) returns (k: nat)
    requires s != [] && multiset(s) == multiset(t)
    ensures k < |t| && t[k] == s[|s| - 1] && multiset(s[..|s| - 1]) == multiset(t[..k] + t[k + 1..])
  {
    var n := |s| - 1;
    WithoutOne(s, n);
    assert s[n] in multiset(t);
    k :| 0 <= k < |t| && t[k] == s[n];
    WithoutOne(t, k);
    assert s[..n] + s[n + 1..] == s[..n];
  }

  lemma {:induction false} CountsConcat(a: seq<u32>, b: seq<u32>, v: u32)
    ensures AtMost(a + b, v) == AtMost(a, v) + AtMost(b, v) && LessThan(a + b, v) == LessThan(a, v) + LessThan(b, v)
  {
    if b == [] {
      assert a + b == a;
    } else {
      var n := |b| - 1;
      assert (a + b)[..|a + b| - 1] == a + b[..n] && (a + b)[|a + b| - 1] == b[n];
      CountsConcat(a, b[..n], v);
    }
  }

  /** Sorting a window and picking the rank gives the percentile of the window. */
  lemma SortedRank(sorted: seq<u32>, window: seq<u32>, p: nat)
    requires Sorted(sorted) && multiset(sorted) == multiset(window) && sorted != [] && 0 < p <= 100
    ensures IsPercentile(window, p, sorted[Rank(|sorted|, p)])
  {
    var i := Rank(|sorted|, p);
    var v := sorted[i];
    CountsAt(sorted, i);
    CountsAreMultiset(sorted, window, v);
    assert |multiset(sorted)| == |multiset(window)|;
    assert v in multiset(window);
  }

  /** t is s with element i moved down to position j. */
  predicate Moved(s: seq<u32>, t: seq<u32>, j: nat, i: nat) {
    && j <= i < |s| == |t| && t[j] == s[i]
    && (forall k :: 0 <= k < |s| && (k < j || i < k) ==> t[k] == s[k])
    && (forall k :: j < k <= i ==> t[k] == s[k - 1])
  }

  lemma MovedSameMultiset(s: seq<u32>, t: seq<u32>, j: nat, i: nat)
    requires Moved(s, t, j, i)
    ensures multiset(t) == multiset(s)
  {
    MovedPieces(s, t, j, i);
    PiecesSame(s[..j], s[j..i], s[i], s[i + 1..]);
  }

  lemma MovedPieces(s: seq<u32>, t: seq<u32>, j: nat, i: nat)
    requires Moved(s, t, j, i)
    ensures s == s[..j] + (s[j..i] + ([s[i]] + s[i + 1..]))
    ensures t == s[..j] + ([s[i]] + (s[j..i] + s[i + 1..]))
  {
  }

  lemma PiecesSame(a: seq<u32>, b: seq<u32>, x: u32, c: seq<u32>)
    ensures multiset(a + (b + ([x] + c))) == multiset(a + ([x] + (b + c)))
  {
    assert multiset([x] + c) == multiset{x} + multiset(c);
    assert multiset([x] + (b + c)) == multiset{x} + multiset(b + c);
  }

  lemma MovedSorted(s: seq<u32>, t: seq<u32>, j: nat, i: nat)
    requires Moved(s, t, j, i) && Sorted(s[..i])
    requires (forall k :: j <= k < i ==> s[k] > s[i]) && (j > 0 ==> s[j - 1] <= s[i])
    ensures Sorted(t[..i + 1])
  {
    assert forall k, l :: 0 <= k < l < i ==> s[..i][k] <= s[..i][l];
  }

  /** Move a[i] down into the sorted part before it. */
  method Insert(a: array<u32>, i: nat)
    requires i < a.Length && Sorted(a[..i])
    modifies a
    ensures Sorted(a[..i + 1]) && multiset(a[..]) == multiset(old(a[..]))
  {
    ghost var s := a[..];
    var value, j := a[i], i;
    while j > 0 && a[j - 1] > value
      invariant j <= i
      invariant forall k :: 0 <= k < a.Length && (k < j || i < k) ==> a[k] == s[k]
      invariant forall k :: j < k <= i ==> a[k] == s[k - 1] && a[k] > value
    {
      a[j] := a[j - 1];
      j := j - 1;
    }
    a[j] := value;
    assert forall k :: j <= k < i ==> s[k] == a[k + 1];
    MovedSameMultiset(s, a[..], j, i);
    MovedSorted(s, a[..], j, i);
  }

  /** The percentiles of a window: copy, sort, pick. */
  method Percentiles(samples: seq<u32>) returns (p95: u32, p99: u32)
    requires samples != []
    ensures IsPercentile(samples, 95, p95) && IsPercentile(samples, 99, p99)
  {
    var n := |samples|;
    var sorted := new u32[n](i requires 0 <= i < n => samples[i]);
    assert sorted[..] == samples;
    for i := 1 to n
      invariant Sorted(sorted[..i]) && multiset(sorted[..]) == multiset(samples)
    {
      Insert(sorted, i);
    }
    assert sorted[..n] == sorted[..];
    SortedRank(sorted[..], samples, 95);
    SortedRank(sorted[..], samples, 99);
    p95, p99 := sorted[Rank(n, 95)], sorted[Rank(n, 99)];
  }

  // ------------------------------------------------------------------
  // The window
  // ------------------------------------------------------------------

  const CAPACITY: nat := 32

  /** The last samples of a history, as many as the window holds. */
  function Recent(history: seq<u32>): (r: seq<u32>)
    ensures |r| == Least(|history|, CAPACITY)
  {
    history[|history| - Least(|history|, CAPACITY)..]
  }

  /** The window after a history: sample k sits in slot k modulo the capacity. */
  predicate Holds(window: seq<u32>, history: seq<u32>) {
    && |window| == CAPACITY
    && forall k :: |history| - Least(|history|, CAPACITY) <= k < |history| ==> window[k % CAPACITY] == history[k]
  }

  /** The valid part of the window has exactly the recent samples. */
  lemma WindowIsRecent(window: seq<u32>, history: seq<u32>)
    requires Holds(window, history)
    ensures multiset(window[..Least(|history|, CAPACITY)]) == multiset(Recent(history))
  {
    var n := |history|;
    if n <= CAPACITY {
      forall k | 0 <= k < n
        ensures window[k] == history[k]
      {
        ModUnique(k, CAPACITY, 0, k);
      }
      assert window[..n] == history && Recent(history) == history;
    } else {
      var r := n % CAPACITY;
      FullWindow(window, history);
      assert window[..CAPACITY] == window[..r] + window[r..];
    }
  }

  /** A full window is the recent samples, rotated. */
  lemma FullWindow(window: seq<u32>, history: seq<u32>)
    requires Holds(window, history) && |history| > CAPACITY
    ensures Recent(history) == window[|history| % CAPACITY..] + window[..|history| % CAPACITY]
  {
    var n, r := |history|, |history| % CAPACITY;
    forall j | 0 <= j < CAPACITY
      ensures Recent(history)[j] == (window[r..] + window[..r])[j]
    {
      var k := n - CAPACITY + j;
      assert window[k % CAPACITY] == history[k];
      RotatedSlot(n, j);
    }
  }

  lemma RotatedSlot(n: nat, j: nat)
    requires n > CAPACITY && j < CAPACITY
    ensures var r := n % CAPACITY;
      (n - CAPACITY + j) % CAPACITY == if j < CAPACITY - r then r + j else j - (CAPACITY - r)
  {
  }

  predicate IsMax(history: seq<u32>, v: u32) {
    (forall k :: 0 <= k < |history| ==> history[k] <= v) && (if history == [] then v == 0 else v in history)
  }

  predicate Percentiled(s: seq<u32>, p95: u32, p99: u32) {
    IsPercentile(s, 95, p95) && IsPercentile(s, 99, p99)
  }

  lemma NewMax(history: seq<u32>, v: u32, x: u32)
    requires IsMax(history, v)
    ensures IsMax(history + [x], if x > v then x else v)
  {
    assert (history + [x])[|history|] == x;
    if v in history {
      assert v in history + [x];
    }
  }

  /** One latency statistic: a window, a 32-bit sample index, and what is derived. */
  class Window {
    const samples: array<u32>
    var index: u32
    var valid: nat
    var count: u32
    var maxMs: u32
    var p95: u32
    var p99: u32
    ghost var history: seq<u32>

    /** The samples kept are the recent ones, and the counters count. */
    ghost predicate Kept()
      reads this, samples
    {
      && samples.Length == CAPACITY && Holds(samples[..], history)
      && index == count == |history| % U32 && valid == Least(|history|, CAPACITY)
    }

    /** What is derived from the samples. */
    ghost predicate Derived()
      reads this
    {
      IsMax(history, maxMs) && (history != [] ==> Percentiled(Recent(history), p95, p99))
    }

    ghost predicate Ok()
      reads this, samples
    {
      Kept() && Derived()
    }

    constructor ()
      ensures Ok() && fresh(samples) && history == []
    {
      samples := new u32[CAPACITY](_ => 0);
      index, valid, count, maxMs, p95, p99, history := 0, 0, 0, 0, 0, 0, [];
    }

    /** Record a latency: the percentiles are those of the last 32 samples, the
        maximum that of all samples, however often the 32-bit index wraps. */
    method Record(latency: u32)
      requires Ok()
      modifies this, samples
      ensures Ok() && history == old(history) + [latency]
      ensures var n := if |history| < 32 then |history| else 32;
        Percentiled(history[|history| - n..], p95, p99)
    {
      NewMax(history, maxMs, latency);
      hide IsMax, Percentiled, Kept;
      Append(latency);
      Raise(latency);
      Refresh();
    }

    method Raise(latency: u32)
      requires Kept()
      modifies this`maxMs
      ensures Kept() && maxMs == if latency > old(maxMs) then latency else old(maxMs)
    {
      if latency > maxMs { maxMs := latency; }
    }

    method Append(latency: u32)
      requires Kept()
      modifies this`index, this`valid, this`count, this`history, samples
      ensures Kept() && history == old(history) + [latency]
    {
      Write(latency);
      index := (index + 1) % U32;
      if valid < CAPACITY { valid := valid + 1; }
      count := (count + 1) % U32;
      history := history + [latency];
    }

    method Refresh()
      requires Kept() && history != []
      modifies this`p95, this`p99
      ensures Kept() && Percentiled(Recent(history), p95, p99)
    {
      WindowIsRecent(samples[..], history);
      assert samples[..][..valid] == samples[..valid];
      var window := samples[..valid];
      p95, p99 := Percentiles(window);
      SamePercentile(window, Recent(history), 95, p95);
      SamePercentile(window, Recent(history), 99, p99);
    }

    method Write(latency: u32)
      requires samples.Length == CAPACITY && Holds(samples[..], history) && index == |history| % U32
      modifies samples
      ensures Holds(samples[..], history + [latency])
    {
      IndexSurvivesWrap(|history|, CAPACITY);
      ghost var before := samples[..];
      samples[index % CAPACITY] := latency;
      WriteHolds(before, history, latency);
      assert samples[..] == before[|history| % CAPACITY := latency];
    }
  }

  lemma WriteHolds(window: seq<u32>, history: seq<u32>, x: u32)
    requires Holds(window, history)
    ensures Holds(window[|history| % CAPACITY := x], history + [x])
  {
    var n := |history|;
    var after := history + [x];
    forall k | |after| - Least(|after|, CAPACITY) <= k < |after|
      ensures window[n % CAPACITY := x][k % CAPACITY] == after[k]
    {
      if k < n && k % CAPACITY == n % CAPACITY {
        SameSlot(k, n, CAPACITY);
      }
    }
  }

  lemma SamePercentile(s: seq<u32>, t: seq<u32>, p: nat, v: u32)
    requires IsPercentile(s, p, v) && multiset(s) == multiset(t)
    ensures IsPercentile(t, p, v)
  {
    CountsAreMultiset(s, t, v);
    assert |multiset(s)| == |multiset(t)|;
    assert v in multiset(t);
  }
}

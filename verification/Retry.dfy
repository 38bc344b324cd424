/** The sliding-window retry limiter (src/supervisor/retry.rs).

Instants and durations are integers on one clock. The specification is a handful of functions on a
sequence of instants; the class below updates its deque in place and is proved against them. */
module Retry {
  datatype Guard = Guard(retries: seq<int>, window: nat, count: nat)

  /** How many of the first `n` events are strictly before `before`, wherever they stand. */
  function CountBefore(s: seq<int>, n: nat, before: int): (r: nat)
    requires n <= |s|
    ensures r <= n
  {
    if n == 0 then 0
    else CountBefore(s, n - 1, before) + if s[n - 1] < before then 1 else 0
  }

  /** The events from `lo` up to `hi`. */
  function Slice(s: seq<int>, lo: nat, hi: nat): seq<int>
    requires lo <= hi <= |s|
  {
    seq(hi - lo, i requires 0 <= i < hi - lo => s[lo + i])
  }

  lemma {:induction false} SliceToEnd(s: seq<int>, lo: nat)
    requires lo <= |s|
    ensures Slice(s, lo, |s|) == s[lo..]
  {
  }

  /** Eviction drains from the front as many events as there are old ones. */
  function Evicted(s: seq<int>, before: int): seq<int> {
    Slice(s, CountBefore(s, |s|, before), |s|)
  }

  function Marked(g: Guard, now: int): Guard {
    g.(retries := Evicted(g.retries + [now], now - g.window))
  }

  /** The verdict of `mark`, read off the guard it leaves behind. */
  predicate Approves(g: Guard) {
    |g.retries| < g.count
  }

  class RetryGuard {
    var retries: seq<int>
    var toleranceInterval: nat
    var toleranceCount: nat

    constructor (retries: seq<int>, toleranceInterval: nat, toleranceCount: nat)
      ensures View() == Guard(retries, toleranceInterval, toleranceCount)
    {
      this.retries, this.toleranceInterval, this.toleranceCount := retries, toleranceInterval, toleranceCount;
    }

    ghost function View(): Guard
      reads this
    {
      Guard(retries, toleranceInterval, toleranceCount)
    }

    method Evict(before: int)
      modifies this`retries
      ensures retries == Evicted(old(retries), before)
    {
      var evictRange := CountBefore(retries, |retries|, before);
      SliceToEnd(retries, evictRange);
      retries := retries[evictRange..];
    }

    method Mark(now: int) returns (approved: bool)
      modifies this`retries
      ensures View() == Marked(old(View()), now)
      ensures approved == Approves(View())
    {
      ghost var g := View();
      retries := retries + [now];
      Evict(now - toleranceInterval);
      assert retries == Marked(g, now).retries;
      approved := |retries| < toleranceCount;
    }
  }

  // ---------------------------------------------------------------------------------------------
  // What the deque means in terms of the whole history of marks
  // ---------------------------------------------------------------------------------------------

  predicate SortedTo(s: seq<int>, n: nat)
    requires n <= |s|
  {
    n <= 1 || (s[n - 2] <= s[n - 1] && SortedTo(s, n - 1))
  }

  predicate Sorted(s: seq<int>) {
    SortedTo(s, |s|)
  }

  lemma {:induction false} SortedToAt(s: seq<int>, n: nat, i: nat, j: nat)
    requires n <= |s| && SortedTo(s, n) && i <= j < n
    ensures s[i] <= s[j]
  {
    if j < n - 1 {
      SortedToAt(s, n - 1, i, j);
    } else if i < j {
      SortedToAt(s, n - 1, i, j - 1);
    }
  }

  lemma {:induction false} SortedAt(s: seq<int>, i: nat, j: nat)
    requires Sorted(s) && i <= j < |s|
    ensures s[i] <= s[j]
  {
    SortedToAt(s, |s|, i, j);
  }

  /** Sortedness is about the elements, whatever sequence they stand in. */
  lemma {:induction false} SortedShift(s: seq<int>, k: nat, n: nat, t: seq<int>)
    requires k + n <= |s| && n <= |t| && SortedTo(s, k + n)
    requires forall i :: 0 <= i < n ==> t[i] == s[k + i]
    ensures SortedTo(t, n)
  {
    if n > 1 {
      assert t[n - 2] == s[k + (n - 2)] && t[n - 1] == s[k + (n - 1)];
      SortedShift(s, k, n - 1, t);
    }
  }

  lemma {:induction false} SortedAppend(h: seq<int>, now: int)
    requires Sorted(h) && (h != [] ==> h[|h| - 1] <= now)
    ensures Sorted(h + [now])
  {
    SortedShift(h, 0, |h|, h + [now]);
  }

  lemma {:induction false} SortedSlice(s: seq<int>, n: nat, k: nat)
    requires k <= n <= |s| && SortedTo(s, n)
    ensures Sorted(Slice(s, k, n))
  {
    SortedShift(s, k, n - k, Slice(s, k, n));
  }

  lemma {:induction false} SortedBelow(s: seq<int>, m: nat, n: nat)
    requires n <= m <= |s| && SortedTo(s, m)
    ensures SortedTo(s, n)
  {
    if n < m && m > 1 {
      SortedBelow(s, m - 1, n);
    }
  }

  /** In a sorted sequence the old events are a prefix, and this is where it ends. */
  lemma {:induction false} OldComeFirst(s: seq<int>, n: nat, before: int, i: nat)
    requires n <= |s| && SortedTo(s, n) && i < n
    ensures s[i] < before <==> i < CountBefore(s, n, before)
  {
    if i < n - 1 {
      OldComeFirst(s, n - 1, before, i);
      SortedToAt(s, n, i, n - 1);
    } else if n > 1 {
      OldComeFirst(s, n - 1, before, n - 2);
    }
  }

  /** A boundary between old and recent events in a sorted sequence is where the drain stops. */
  lemma {:induction false} BoundaryIsUnique(s: seq<int>, before: int, n: nat)
    requires Sorted(s) && n <= |s|
    requires n > 0 ==> s[n - 1] < before
    requires n < |s| ==> before <= s[n]
    ensures CountBefore(s, |s|, before) == n
  {
    if n > 0 {
      OldComeFirst(s, |s|, before, n - 1);
    }
    if n < |s| {
      OldComeFirst(s, |s|, before, n);
    }
  }

  /** Where the window ending at the `n`-th event of `s` starts. */
  function WindowStart(s: seq<int>, n: nat, window: nat): (k: nat)
    requires n <= |s|
    ensures k <= n
  {
    if n == 0 then 0 else CountBefore(s, n, s[n - 1] - window)
  }

  /** What a guard must still hold once it has seen the first `n` events of `s`. */
  function WindowOf(s: seq<int>, n: nat, window: nat): seq<int>
    requires n <= |s|
  {
    Slice(s, WindowStart(s, n, window), n)
  }

  lemma {:induction false} OldAfterSlice(s: seq<int>, n: nat, k: nat, before: int)
    requires n <= |s| && SortedTo(s, n) && k <= CountBefore(s, n, before)
    ensures CountBefore(Slice(s, k, n), n - k, before) == CountBefore(s, n, before) - k
  {
    var m := CountBefore(s, n, before);
    SortedSlice(s, n, k);
    if k < m {
      OldComeFirst(s, n, before, m - 1);
    }
    if m < n {
      OldComeFirst(s, n, before, m);
    }
    BoundaryIsUnique(Slice(s, k, n), before, m - k);
  }

  lemma {:induction false} SliceTwice(s: seq<int>, n: nat, k: nat, m: nat)
    requires k <= m <= n <= |s|
    ensures Slice(Slice(s, k, n), m - k, n - k) == Slice(s, m, n)
  {
  }

  /** Draining old events early leaves the later drain with just the rest to do. */
  lemma {:induction false} DrainInTwoSteps(s: seq<int>, n: nat, k: nat, before: int)
    requires n <= |s| && SortedTo(s, n) && k <= CountBefore(s, n, before)
    ensures Evicted(Slice(s, k, n), before) == Slice(s, CountBefore(s, n, before), n)
  {
    OldAfterSlice(s, n, k, before);
    SliceTwice(s, n, k, CountBefore(s, n, before));
  }

  lemma {:induction false} OlderAreFewer(s: seq<int>, n: nat, past: int, before: int)
    requires n <= |s| && past <= before
    ensures CountBefore(s, n, past) <= CountBefore(s, n, before)
  {
    if n > 0 {
      OlderAreFewer(s, n - 1, past, before);
    }
  }

  lemma {:induction false} WindowMovesForward(s: seq<int>, n: nat, window: nat)
    requires 0 < n <= |s| && SortedTo(s, n)
    ensures WindowStart(s, n - 1, window) <= WindowStart(s, n, window)
  {
    if n > 1 {
      OlderAreFewer(s, n - 1, s[n - 2] - window, s[n - 1] - window);
    }
  }

  lemma {:induction false} SliceGrows(s: seq<int>, k: nat, n: nat)
    requires k < n <= |s|
    ensures Slice(s, k, n - 1) + [s[n - 1]] == Slice(s, k, n)
  {
  }

  lemma {:induction false} MarkedFrom(g: Guard, now: int, pushed: seq<int>, left: seq<int>)
    requires g.retries + [now] == pushed && Evicted(pushed, now - g.window) == left
    ensures Marked(g, now).retries == left
  {
  }

  /** One mark keeps the deque equal to the window of the whole history, though it forgets the rest. */
  lemma {:induction false} MarkKeepsWindow(g: Guard, s: seq<int>, n: nat)
    requires 0 < n <= |s| && SortedTo(s, n)
    requires g.retries == WindowOf(s, n - 1, g.window)
    ensures Marked(g, s[n - 1]).retries == WindowOf(s, n, g.window)
  {
    var k := WindowStart(s, n - 1, g.window);
    var from := s[n - 1] - g.window;
    assert Evicted(Slice(s, k, n), from) == WindowOf(s, n, g.window) by {
      WindowMovesForward(s, n, g.window);
      DrainInTwoSteps(s, n, k, from);
    }
    assert g.retries + [s[n - 1]] == Slice(s, k, n) by {
      SliceGrows(s, k, n);
    }
    MarkedFrom(g, s[n - 1], Slice(s, k, n), WindowOf(s, n, g.window));
  }

  lemma {:induction false} SameCount(s: seq<int>, t: seq<int>, n: nat, before: int)
    requires n <= |s| && n <= |t|
    requires forall i :: 0 <= i < n ==> t[i] == s[i]
    ensures CountBefore(s, n, before) == CountBefore(t, n, before)
  {
    if n > 0 {
      SameCount(s, t, n - 1, before);
    }
  }

  lemma {:induction false} WindowIgnoresLater(h: seq<int>, now: int, window: nat)
    ensures WindowOf(h + [now], |h|, window) == WindowOf(h, |h|, window)
  {
    if h != [] {
      SameCount(h, h + [now], |h|, h[|h| - 1] - window);
    }
  }

  /** The same for a history that a mark extends. */
  lemma {:induction false} MarkExtendsWindow(g: Guard, h: seq<int>, now: int)
    requires Sorted(h) && (h != [] ==> h[|h| - 1] <= now)
    requires g.retries == WindowOf(h, |h|, g.window)
    ensures Marked(g, now).retries == WindowOf(h + [now], |h| + 1, g.window)
  {
    SortedAppend(h, now);
    WindowIgnoresLater(h, now, g.window);
    MarkKeepsWindow(g, h + [now], |h| + 1);
  }

  /** Too many marks: the `count`-th most recent one, this one included, is at most `window` old. */
  ghost predicate TooMany(h: seq<int>, window: nat, count: nat) {
    count == 0 || (count <= |h| && h[|h| - 1] - window <= h[|h| - count])
  }

  lemma {:induction false} VerdictCountsWindow(h: seq<int>, window: nat, count: nat)
    requires Sorted(h) && h != []
    ensures |WindowOf(h, |h|, window)| < count <==> !TooMany(h, window, count)
  {
    if 0 < count <= |h| {
      OldComeFirst(h, |h|, h[|h| - 1] - window, |h| - count);
    }
  }

  /** The guard after marking the first `n` of `times`. */
  function MarkAll(g: Guard, times: seq<int>, n: nat): Guard
    requires n <= |times|
  {
    if n == 0 then g else Marked(MarkAll(g, times, n - 1), times[n - 1])
  }

  /** The subsequence of the first `n` events that are at or after `from`, read one by one. */
  function Since(s: seq<int>, n: nat, from: int): seq<int>
    requires n <= |s|
  {
    if n == 0 then []
    else if from <= s[n - 1] then Since(s, n - 1, from) + [s[n - 1]]
    else Since(s, n - 1, from)
  }

  /** No old event stands behind a recent one. */
  ghost predicate OldFirst(s: seq<int>, n: nat, before: int)
    requires n <= |s|
  {
    forall i, j :: 0 <= i < j < n && s[j] < before ==> s[i] < before
  }

  lemma {:induction false} AllOld(s: seq<int>, n: nat, before: int)
    requires n <= |s| && forall i :: 0 <= i < n ==> s[i] < before
    ensures Since(s, n, before) == [] && CountBefore(s, n, before) == n
  {
    if n > 0 {
      AllOld(s, n - 1, before);
    }
  }

  /** If the old events come first, the drain removes exactly them. */
  lemma {:induction false} DrainsOldFirst(s: seq<int>, n: nat, before: int)
    requires n <= |s| && OldFirst(s, n, before)
    ensures Slice(s, CountBefore(s, n, before), n) == Since(s, n, before)
  {
    if n == 0 {
    } else if s[n - 1] < before {
      AllOld(s, n, before);
    } else {
      DrainsOldFirst(s, n - 1, before);
      SliceGrows(s, CountBefore(s, n - 1, before), n);
    }
  }

  lemma {:induction false} CountedAreOld(s: seq<int>, n: nat, before: int)
    requires n <= |s| && CountBefore(s, n, before) == n
    ensures forall i :: 0 <= i < n ==> s[i] < before
  {
    if n > 0 {
      CountedAreOld(s, n - 1, before);
    }
  }

  /** If what the drain leaves is all recent, the old events came first. */
  lemma {:induction false} RecentLeft(s: seq<int>, n: nat, before: int)
    requires n <= |s| && forall i :: CountBefore(s, n, before) <= i < n ==> before <= s[i]
    ensures OldFirst(s, n, before)
  {
    if n > 0 {
      if s[n - 1] < before {
        CountedAreOld(s, n, before);
      } else {
        RecentLeft(s, n - 1, before);
      }
    }
  }

  lemma {:induction false} SinceIsRecent(s: seq<int>, n: nat, from: int)
    requires n <= |s|
    ensures forall i :: 0 <= i < |Since(s, n, from)| ==> from <= Since(s, n, from)[i]
  {
    if n > 0 {
      SinceIsRecent(s, n - 1, from);
    }
  }

  /** The drain removes all events before the given time, and no others, if and only if the old events
  come first in the deque. */
  lemma {:induction false} EvictionIsExactIff(s: seq<int>, before: int)
    ensures Evicted(s, before) == Since(s, |s|, before) <==> OldFirst(s, |s|, before)
  {
    if OldFirst(s, |s|, before) {
      DrainsOldFirst(s, |s|, before);
    }
    if Evicted(s, before) == Since(s, |s|, before) {
      var k := CountBefore(s, |s|, before);
      forall i | k <= i < |s| ensures before <= s[i] {
        SinceIsRecent(s, |s|, before);
        assert s[i] == Evicted(s, before)[i - k];
      }
      RecentLeft(s, |s|, before);
    }
  }

  /** On a deque out of order the wrong event can go. */
  lemma {:induction false} WrongEventEvicted()
    ensures Evicted([5, 1], 2) == [1] && Since([5, 1], 2, 2) == [5]
  {
    var s := [5, 1];
    assert CountBefore(s, 2, 2) == 1;
    assert Since(s, 1, 2) == [5];
  }

  /** As it can on no sorted deque, which is what non-decreasing clock readings give. */
  lemma {:induction false} SortedIsOldFirst(s: seq<int>, before: int)
    requires Sorted(s)
    ensures OldFirst(s, |s|, before)
  {
    forall i, j | 0 <= i < j < |s| && s[j] < before ensures s[i] < before {
      SortedAt(s, i, j);
    }
  }

  lemma {:induction false} MarksKeepWindow(times: seq<int>, n: nat, window: nat, count: nat)
    requires n <= |times| && SortedTo(times, n)
    ensures MarkAll(Guard([], window, count), times, n) == Guard(WindowOf(times, n, window), window, count)
  {
    if n > 0 {
      SortedBelow(times, n, n - 1);
      MarksKeepWindow(times, n - 1, window, count);
      MarkKeepsWindow(Guard(WindowOf(times, n - 1, window), window, count), times, n);
    }
  }

  /** Over any non-decreasing sequence of clock readings, from an empty deque: the deque is exactly the
  marks of the whole history that are in the window, it is sorted, and the verdict of the last mark is
  the one that counting the whole history would give. */
  lemma {:induction false} GuardCountsWholeHistory(times: seq<int>, window: nat, count: nat)
    requires Sorted(times) && times != []
    ensures var g := MarkAll(Guard([], window, count), times, |times|);
      && g == Guard(Since(times, |times|, times[|times| - 1] - window), window, count)
      && Sorted(g.retries)
      && (Approves(g) <==> !TooMany(times, window, count))
  {
    var from := times[|times| - 1] - window;
    MarksKeepWindow(times, |times|, window, count);
    SortedSlice(times, |times|, CountBefore(times, |times|, from));
    SortedIsOldFirst(times, from);
    EvictionIsExactIff(times, from);
    VerdictCountsWindow(times, window, count);
  }

  /** While every earlier mark was approved, the deque never holds more than max(1, count) events. */
  lemma {:induction false} DequeStaysShort(times: seq<int>, window: nat, count: nat)
    requires times != []
    requires |times| > 1 ==> Approves(MarkAll(Guard([], window, count), times, |times| - 1))
    ensures |MarkAll(Guard([], window, count), times, |times|).retries| <= if count == 0 then 1 else count
  {
    WindowIsKept(times, |times| - 1, window, count);
  }

  lemma {:induction false} WindowIsKept(times: seq<int>, n: nat, window: nat, count: nat)
    requires n <= |times|
    ensures var g := MarkAll(Guard([], window, count), times, n); g.window == window && g.count == count
  {
    if n > 0 {
      WindowIsKept(times, n - 1, window, count);
    }
  }
}

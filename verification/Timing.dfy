/** How often a caretaker tries, and when it gives up: the retry delay and the sliding window together. */
module Timing {
  import opened Retry
  import opened Caretaker
  import opened Protocol
  import opened Invariant

  function Max(a: int, b: int): int {
    if a < b then b else a
  }

  /** How many elements of `s` lie in the closed interval from `lo` to `hi`. */
  function CountWithin(s: seq<int>, lo: int, hi: int): nat {
    if s == [] then 0
    else CountWithin(s[..|s| - 1], lo, hi) + if lo <= s[|s| - 1] <= hi then 1 else 0
  }

  /** Two attempts with max(1, count) or more rounds between them are more than the window apart. */
  lemma {:induction false} FarApart(c: Config, attempts: seq<int>, marks: seq<int>, i: nat, j: nat)
    requires Alternate(attempts, marks, c.delay) && Sorted(marks)
    requires i < j < |attempts| && Max(1, c.count) <= j - i
    requires !TooMany(marks[..j], c.window, c.count)
    ensures c.window < attempts[j] - attempts[i]
  {
    assert attempts[i] <= marks[i] && marks[j - 1] <= attempts[j];
    assert marks[..j][j - 1] == marks[j - 1] && marks[..j][j - c.count] == marks[j - c.count];
    SortedAt(marks, i, j - c.count);
  }

  /** The elements of a sorted sequence that lie in an interval are consecutive. */
  lemma {:induction false} WithinIsABlock(s: seq<int>, n: nat, lo: int, hi: int) returns (i: nat, j: nat)
    requires Sorted(s) && n <= |s|
    ensures i <= j <= n && CountWithin(s[..n], lo, hi) == j - i
    ensures i < j ==> lo <= s[i] && s[j - 1] <= hi
    ensures forall k :: j <= k < n ==> hi < s[k]
  {
    if n == 0 {
      i, j := 0, 0;
    } else {
      i, j := WithinIsABlock(s, n - 1, lo, hi);
      assert s[..n][..n - 1] == s[..n - 1];
      if i < n - 1 {
        SortedAt(s, i, n - 1);
      }
      if j < n - 1 {
        SortedAt(s, j, n - 1);
      }
      if s[n - 1] <= hi {
        i, j := if i < j then i else if lo <= s[n - 1] then n - 1 else n, n;
      }
    }
  }

  lemma {:induction false} SortedBySteps(s: seq<int>, n: nat)
    requires n <= |s| && forall i :: 0 < i < |s| ==> s[i - 1] <= s[i]
    ensures SortedTo(s, n)
  {
    if n > 0 {
      SortedBySteps(s, n - 1);
    }
  }

  lemma {:induction false} AttemptsStep(attempts: seq<int>, marks: seq<int>, delay: nat)
    requires Alternate(attempts, marks, delay)
    ensures forall i :: 0 < i < |attempts| ==> attempts[i - 1] <= attempts[i]
  {
    forall i | 0 < i < |attempts| ensures attempts[i - 1] <= attempts[i] {
      assert attempts[i - 1] <= marks[i - 1] && marks[i - 1] + delay <= attempts[i];
    }
  }

  lemma {:induction false} FewAttemptsWithin(c: Config, attempts: seq<int>, marks: seq<int>, lo: int)
    requires Alternate(attempts, marks, c.delay) && Sorted(marks)
    requires attempts != [] ==> Approved(c, marks, |attempts| - 1)
    ensures CountWithin(attempts, lo, lo + c.window) <= Max(1, c.count)
  {
    assert Sorted(attempts) by {
      AttemptsStep(attempts, marks, c.delay);
      SortedBySteps(attempts, |attempts|);
    }
    var i, j := WithinIsABlock(attempts, |attempts|, lo, lo + c.window);
    assert attempts[..|attempts|] == attempts;
    if Max(1, c.count) < j - i {
      assert !TooMany(marks[..j - 1], c.window, c.count);
      FarApart(c, attempts, marks, i, j - 1);
    }
  }

  lemma {:induction false} RecordApproves(c: Config, attempts: seq<int>, marks: seq<int>, unmarked: bool,
                                          gaveUp: bool, now: int)
    requires Record(c, attempts, marks, unmarked, gaveUp, now) && (gaveUp ==> !unmarked)
    ensures attempts != [] ==> Approved(c, marks, |attempts| - 1)
  {
  }

  /** In any closed interval of one window's length, over any run: at most max(1, count) attempts. */
  lemma {:induction false} AttemptRateIsBounded(c: Config, s: Sys, lo: int)
    requires Reachable(c, s)
    ensures CountWithin(s.hist.attempts, lo, lo + c.window) <= Max(1, c.count)
  {
    ReachableInv(c, s);
    RecordApproves(c, s.hist.attempts, s.hist.marks, Unmarked(s), s.daemon == Ended(false), s.now);
    FewAttemptsWithin(c, s.hist.attempts, s.hist.marks, lo);
  }

  lemma {:induction false} AttemptsSpread(attempts: seq<int>, marks: seq<int>, delay: nat, i: nat, j: nat)
    requires Alternate(attempts, marks, delay) && i < j < |attempts|
    ensures (j - i) * delay <= attempts[j] - attempts[i]
  {
    MarksSpread(attempts, marks, delay, i, j - 1);
    assert attempts[i] <= marks[i] && marks[j - 1] + delay <= attempts[j];
    assert (j - i) * delay == (j - 1 - i) * delay + delay;
  }

  /** A retry comes at least the delay after the attempt before it. */
  lemma {:induction false} RetriesWaitTheirDelay(c: Config, s: Sys, i: nat, j: nat)
    requires Reachable(c, s) && i < j < |s.hist.attempts|
    ensures (j - i) * c.delay <= s.hist.attempts[j] - s.hist.attempts[i]
  {
    ReachableInv(c, s);
    AttemptsSpread(s.hist.attempts, s.hist.marks, c.delay, i, j);
  }

  // ---------------------------------------------------------------------------------------------
  // Giving up
  // ---------------------------------------------------------------------------------------------

  lemma {:induction false} MarksSpread(attempts: seq<int>, marks: seq<int>, delay: nat, i: nat, j: nat)
    requires Alternate(attempts, marks, delay) && i <= j < |marks|
    ensures (j - i) * delay <= marks[j] - marks[i]
    decreases j
  {
    if i < j {
      MarksSpread(attempts, marks, delay, i, j - 1);
      assert marks[j - 1] + delay <= attempts[j] <= marks[j];
      assert (j - i) * delay == (j - 1 - i) * delay + delay;
    }
  }

  /** The daemon has given up exactly when the whole history of marks holds one too many. */
  lemma {:induction false} GaveUpIff(c: Config, s: Sys)
    requires Reachable(c, s)
    ensures s.daemon == Ended(false) <==> s.hist.marks != [] && TooMany(s.hist.marks, c.window, c.count)
    ensures s.actor.status == Failed <==> s.daemon == Ended(false)
  {
    ReachableInv(c, s);
    var m := s.hist.marks;
    assert m[..|m|] == m;
  }

  lemma {:induction false} SpacedMarksNeverTooMany(c: Config, attempts: seq<int>, marks: seq<int>)
    requires Alternate(attempts, marks, c.delay) && marks != []
    requires c.window < (c.count - 1) * c.delay
    ensures !TooMany(marks, c.window, c.count)
  {
    if 0 < c.count <= |marks| {
      MarksSpread(attempts, marks, c.delay, |marks| - c.count, |marks| - 1);
    }
  }

  /** If count-1 delays are longer than the window, no run ever gives up. */
  lemma {:induction false} SlowRetriesNeverFail(c: Config, s: Sys)
    requires Reachable(c, s)
    requires c.window < (c.count - 1) * c.delay
    ensures s.daemon != Ended(false) && s.actor.status != Failed
  {
    ReachableInv(c, s);
    GaveUpIff(c, s);
    if s.hist.marks != [] {
      SpacedMarksNeverTooMany(c, s.hist.attempts, s.hist.marks);
    }
  }

  ghost predicate GapsAtMost(marks: seq<int>, gap: nat) {
    forall i :: 0 < i < |marks| ==> marks[i] - marks[i - 1] <= gap
  }

  lemma {:induction false} MarksClose(marks: seq<int>, gap: nat, i: nat, j: nat)
    requires GapsAtMost(marks, gap) && i <= j < |marks|
    ensures marks[j] - marks[i] <= (j - i) * gap
    decreases j
  {
    if i < j {
      MarksClose(marks, gap, i, j - 1);
      assert marks[j] - marks[j - 1] <= gap;
      assert (j - i) * gap == (j - 1 - i) * gap + gap;
    }
  }

  /** The bound is tight: if the gaps between successive exits are small enough for the window, the
  caretaker has given up exactly when it has marked max(1, count) exits, and it never marks more. */
  lemma {:induction false} FastFailuresGiveUp(c: Config, s: Sys, gap: nat)
    requires Reachable(c, s)
    requires GapsAtMost(s.hist.marks, gap) && (c.count - 1) * gap <= c.window
    ensures |s.hist.marks| <= Max(1, c.count)
    ensures s.daemon == Ended(false) <==> |s.hist.marks| == Max(1, c.count)
  {
    ReachableInv(c, s);
    GaveUpIff(c, s);
    var m, n := s.hist.marks, Max(1, c.count);
    if n <= |m| {
      CloseMarksAreTooMany(c, m, gap);
      assert m[..|m|] == m;
    }
  }

  lemma {:induction false} CloseMarksAreTooMany(c: Config, marks: seq<int>, gap: nat)
    requires GapsAtMost(marks, gap) && (c.count - 1) * gap <= c.window && Max(1, c.count) <= |marks|
    ensures TooMany(marks[..Max(1, c.count)], c.window, c.count)
  {
    MarksClose(marks, gap, 0, Max(1, c.count) - 1);
  }
}

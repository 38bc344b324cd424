/** A program that cannot be spawned: the rounds it goes through, that they can reach the retry limit
whenever the limit can be reached at all, and that a stop goes unnoticed meanwhile. */
module FailingSpawns {
  import opened Retry
  import opened Futs
  import opened Caretaker
  import opened Protocol
  import opened Invariant
  import opened Safety
  import opened Timing

  /** A `Run` is in the mailbox, and somebody waits for the daemon. */
  ghost predicate AtRun(c: Config, s: Sys) {
    Inv(c, s) && s.run.Queued? && Waiting(s) != {}
  }

  /** `t` is what a failed spawn at `s` leaves: one attempt and one mark more, at the same clock. */
  ghost predicate FailedOnce(s: Sys, t: Sys) {
    && t.hist.attempts == s.hist.attempts + [s.now] && t.hist.marks == s.hist.marks + [s.now]
    && t.hist.spawned == s.hist.spawned && t.now == s.now && t.stopSent == s.stopSent
  }

  lemma {:induction false} SpawnFails(c: Config, s: Sys) returns (t: Sys)
    requires AtRun(c, s)
    ensures Step(c, s, HandleRun(false)) == Next(t)
    ensures Inv(c, t) && t.run == Spawned(SpawnFailed(s.run.rx)) && t.now == s.now && Waiting(t) == Waiting(s)
    ensures t.stopSent == s.stopSent && t.daemon == s.daemon
    ensures t.hist == s.hist.(attempts := s.hist.attempts + [s.now])
  {
    t := StepHandleRun(c, s, false);
    StepKeepsInv(c, s, HandleRun(false));
  }

  lemma {:induction false} FailureAnswered(c: Config, s: Sys) returns (t: Sys)
    requires Inv(c, s) && s.run.Spawned? && s.run.stage.SpawnFailed?
    ensures Step(c, s, PollRun) == Next(t)
    ensures Inv(c, t) && TakesReply(t) && MarksNow(t) && t.now == s.now && Waiting(t) == Waiting(s)
    ensures t.stopSent == s.stopSent && t.daemon == s.daemon && t.hist == s.hist
  {
    t := StepPollRun(c, s).s;
    StepKeepsInv(c, s, PollRun);
  }

  /** The failure of the spawn is answered. */
  lemma {:induction false} FailureReplied(c: Config, s: Sys) returns (t: Sys)
    requires AtRun(c, s)
    ensures Legal(c, s, [HandleRun(false), PollRun]) && Final(c, s, [HandleRun(false), PollRun]) == t
    ensures Inv(c, t) && TakesReply(t) && MarksNow(t) && t.now == s.now && Waiting(t) == Waiting(s)
    ensures t.stopSent == s.stopSent && t.daemon == s.daemon
    ensures t.hist == s.hist.(attempts := s.hist.attempts + [s.now])
  {
    var s1 := SpawnFails(c, s);
    t := FailureAnswered(c, s1);
    ConsRun(c, s1, PollRun, []);
    ConsRun(c, s, HandleRun(false), [PollRun]);
    assert [HandleRun(false)] + [PollRun] == [HandleRun(false), PollRun];
  }

  /** The answer is taken and marked: too many, or a delay to sleep. */
  lemma {:induction false} FailureMarked(c: Config, s: Sys)
    requires Inv(c, s) && TakesReply(s) && MarksNow(s) && Waiting(s) != {}
    ensures Step(c, s, PollDaemonTask).Next?
    ensures var t := Step(c, s, PollDaemonTask).s;
      && t.hist == s.hist.(marks := s.hist.marks + [s.now])
      && t.now == s.now && t.stopSent == s.stopSent
      && (t.daemon == Ended(false) ||
          (t.daemon.Looping? && t.daemon.fut.slot == Sleeping(s.now + c.delay) && Waiting(t) == Waiting(s)))
  {
    PollDaemonOutcome(s);
  }

  lemma {:induction false} FailedAttempt(c: Config, s: Sys) returns (es: seq<Event>, t: Sys)
    requires AtRun(c, s)
    ensures Legal(c, s, es) && t == Final(c, s, es)
    ensures Inv(c, t) && FailedOnce(s, t)
    ensures
      || t.daemon == Ended(false)
      || (t.daemon.Looping? && t.daemon.fut.slot == Sleeping(s.now + c.delay) && Waiting(t) == Waiting(s))
  {
    var s2 := FailureReplied(c, s);
    FailureMarked(c, s2);
    StepKeepsInv(c, s2, PollDaemonTask);
    t := Step(c, s2, PollDaemonTask).s;
    ConsRun(c, s2, PollDaemonTask, []);
    LegalConcat(c, s, [HandleRun(false), PollRun], [PollDaemonTask]);
    es := [HandleRun(false), PollRun] + [PollDaemonTask];
  }

  /** The delay passes. */
  lemma {:induction false} SleepOver(c: Config, s: Sys) returns (t: Sys)
    requires Inv(c, s) && s.daemon.Looping? && s.daemon.fut.slot.Sleeping? && s.now <= s.daemon.fut.slot.deadline
    ensures var es := [Tick(s.daemon.fut.slot.deadline), PollDaemonTask];
      Legal(c, s, es) && Final(c, s, es) == t
    ensures Inv(c, t) && t.daemon.Looping? && t.daemon.fut.slot.Empty? && t.actor == s.actor
    ensures t.now == s.daemon.fut.slot.deadline && t.hist == s.hist && t.stopSent == s.stopSent
  {
    var d := s.daemon.fut.slot.deadline;
    var s1 := StepTick(s, d);
    StepKeepsInv(c, s, Tick(d));
    PollDaemonOutcome(s1);
    t := StepPollDaemon(s1).s;
    StepKeepsInv(c, s1, PollDaemonTask);
    ConsRun(c, s1, PollDaemonTask, []);
    ConsRun(c, s, Tick(d), [PollDaemonTask]);
    assert [Tick(d)] + [PollDaemonTask] == [Tick(d), PollDaemonTask];
  }

  /** And the next `Run` is sent. */
  lemma {:induction false} NextRun(c: Config, s: Sys) returns (es: seq<Event>)
    requires Inv(c, s) && s.daemon.Looping? && s.daemon.fut.slot.Sleeping? && Waiting(s) != {}
    requires s.now <= s.daemon.fut.slot.deadline
    ensures Legal(c, s, es)
    ensures var t := Final(c, s, es);
      AtRun(c, t) && t.now == s.daemon.fut.slot.deadline && t.hist == s.hist && t.stopSent == s.stopSent
  {
    var s2 := SleepOver(c, s);
    PollDaemonOutcome(s2);
    StepKeepsInv(c, s2, PollDaemonTask);
    ConsRun(c, s2, PollDaemonTask, []);
    LegalConcat(c, s, [Tick(s.daemon.fut.slot.deadline), PollDaemonTask], [PollDaemonTask]);
    es := [Tick(s.daemon.fut.slot.deadline), PollDaemonTask] + [PollDaemonTask];
  }

  /** One round: the spawn fails, and either the caretaker gives up or it is back one delay later. */
  lemma {:induction false} FailedRound(c: Config, s: Sys) returns (es: seq<Event>)
    requires AtRun(c, s)
    ensures Legal(c, s, es)
    ensures var t := Final(c, s, es);
      && Inv(c, t) && t.hist.marks == s.hist.marks + [s.now] && t.hist.spawned == s.hist.spawned
      && t.stopSent == s.stopSent
      && (t.daemon == Ended(false) || (AtRun(c, t) && t.now == s.now + c.delay))
  {
    var t;
    es, t := FailedAttempt(c, s);
    if t.daemon.Looping? {
      var more := NextRun(c, t);
      LegalConcat(c, s, es, more);
      es := es + more;
    }
  }

  // ---------------------------------------------------------------------------------------------
  // A stop is not noticed while spawns fail
  // ---------------------------------------------------------------------------------------------

  /** A clock reading so late that no earlier mark is in the window any more. */
  function LongAfter(c: Config, s: Sys): int {
    if s.hist.marks == [] then s.now else Max(s.now, s.hist.marks[|s.hist.marks| - 1] + c.window + 1)
  }

  lemma {:induction false} LateMarkIsNotTooMany(marks: seq<int>, now: int, window: nat, count: nat)
    requires Sorted(marks) && (marks != [] ==> marks[|marks| - 1] + window < now)
    requires 2 <= count
    ensures !TooMany(marks + [now], window, count)
  {
    if count <= |marks| + 1 {
      SortedAt(marks, |marks| + 1 - count, |marks| - 1);
    }
  }

  /** The `Run` waits in the mailbox until the window is over. */
  lemma {:induction false} WaitLong(c: Config, s: Sys) returns (t: Sys)
    requires Reachable(c, s) && AtRun(c, s)
    ensures Legal(c, s, [Tick(LongAfter(c, s))]) && Final(c, s, [Tick(LongAfter(c, s))]) == t
    ensures Reachable(c, t) && AtRun(c, t)
    ensures t.now == LongAfter(c, s) && t.hist == s.hist && t.stopSent == s.stopSent
  {
    t := StepTick(s, LongAfter(c, s));
    StepKeepsInv(c, s, Tick(LongAfter(c, s)));
    ConsRun(c, s, Tick(LongAfter(c, s)), []);
    ReachableOn(c, s, [Tick(LongAfter(c, s))]);
  }

  /** One round in which the spawn fails, the mark is approved and the next `Run` is sent. */
  lemma {:induction false} PatientRound(c: Config, s: Sys) returns (es: seq<Event>)
    requires Reachable(c, s) && AtRun(c, s) && 2 <= c.count
    ensures Legal(c, s, es)
    ensures var t := Final(c, s, es);
      && Reachable(c, t) && AtRun(c, t) && t.stopSent == s.stopSent
      && |t.hist.marks| == |s.hist.marks| + 1 && t.hist.spawned == s.hist.spawned
  {
    var mid := WaitLong(c, s);
    var round := FailedRound(c, mid);
    var t := Final(c, mid, round);
    ReachableOn(c, mid, round);
    LateMarkIsNotTooMany(mid.hist.marks, mid.now, c.window, c.count);
    GaveUpIff(c, t);
    LegalConcat(c, s, [Tick(LongAfter(c, s))], round);
    es := [Tick(LongAfter(c, s))] + round;
  }

  /** `es` takes the stopped `s` through `rounds` more rounds in which no child comes up. */
  ghost predicate FailsOn(c: Config, s: Sys, es: seq<Event>, rounds: nat) {
    && s.stopSent && Legal(c, s, es)
    && var t := Final(c, s, es);
      |t.hist.marks| == |s.hist.marks| + rounds && t.hist.spawned == s.hist.spawned && !t.daemon.Ended?
  }

  /** With a retry count of at least two, a stopped caretaker whose spawns keep failing can go on for any
  number of rounds, whatever its delay and window: its receiver is handed from round to round without
  being polled. */
  lemma {:induction false} StopUnnoticedWhileSpawnsFail(c: Config, s: Sys, rounds: nat) returns (es: seq<Event>)
    requires Reachable(c, s) && AtRun(c, s) && s.stopSent && 2 <= c.count
    ensures FailsOn(c, s, es, rounds)
    ensures Reachable(c, Final(c, s, es)) && AtRun(c, Final(c, s, es))
    decreases rounds
  {
    if rounds == 0 {
      es := [];
    } else {
      es := PatientRound(c, s);
      var t := Final(c, s, es);
      var more := StopUnnoticedWhileSpawnsFail(c, t, rounds - 1);
      LegalConcat(c, s, es, more);
      es := es + more;
    }
  }

  lemma {:induction false} FirstRun(c: Config) returns (s: Sys)
    ensures Reachable(c, s) && AtRun(c, s) && s.hist.marks == [] && s.actor.stopTx.Some?
  {
    var s0 := Init(0);
    InitInv(c, 0);
    var s1 := StepWait(s0, 0);
    StepKeepsInv(c, s0, Wait(0));
    var s2 := StepHandleDaemon(c, s1);
    StepKeepsInv(c, s1, HandleDaemon);
    PollDaemonOutcome(s2);
    s := StepPollDaemon(s2).s;
    StepKeepsInv(c, s2, PollDaemonTask);
    ConsRun(c, s2, PollDaemonTask, []);
    ConsRun(c, s1, HandleDaemon, [PollDaemonTask]);
    ConsRun(c, s0, Wait(0), [HandleDaemon] + [PollDaemonTask]);
  }

  /** A stop that comes while the first `Run` is in the mailbox. */
  lemma {:induction false} StoppedFirstRun(c: Config) returns (s: Sys)
    ensures Reachable(c, s) && AtRun(c, s) && s.stopSent
  {
    var first := FirstRun(c);
    TerminateOutcome(first);
    s := AfterStop(first);
    StepKeepsInv(c, first, Terminate);
    ConsRun(c, first, Terminate, []);
    ReachableOn(c, first, [Terminate]);
  }

  lemma {:induction false} OneMarkAtMost(c: Config, s: Sys)
    requires Reachable(c, s) && c.count <= 1
    ensures |s.hist.marks| <= 1
  {
    ReachableInv(c, s);
    var m := s.hist.marks;
    if |m| > 1 {
      assert TooMany(m[..1], c.window, c.count);
    }
  }

  ghost predicate CanFailOn(c: Config, s: Sys, rounds: nat) {
    exists es :: FailsOn(c, s, es, rounds)
  }

  /** A stopped caretaker can go on failing for any number of rounds. */
  ghost predicate NeverNotices(c: Config, s: Sys) {
    s.stopSent && forall rounds: nat :: CanFailOn(c, s, rounds)
  }

  /** Exactly when a stop can go unnoticed for good: a configuration has such a state if and only if its
  retry count is at least two. */
  lemma {:induction false} StopUnnoticedIff(c: Config)
    ensures (exists s :: Reachable(c, s) && NeverNotices(c, s)) <==> 2 <= c.count
  {
    if 2 <= c.count {
      var s := StoppedFirstRun(c);
      forall rounds: nat ensures CanFailOn(c, s, rounds) {
        var es := StopUnnoticedWhileSpawnsFail(c, s, rounds);
      }
      assert NeverNotices(c, s);
    } else {
      forall s | Reachable(c, s) ensures !NeverNotices(c, s) {
        if CanFailOn(c, s, 2) {
          var es :| FailsOn(c, s, es, 2);
          ReachableOn(c, s, es);
          OneMarkAtMost(c, Final(c, s, es));
        }
      }
    }
  }

  // ---------------------------------------------------------------------------------------------
  // When the retry limit can be reached
  // ---------------------------------------------------------------------------------------------

  /** Rounds that each take exactly one delay, until the caretaker gives up. */
  lemma {:induction false} RoundsUntilFailed(c: Config, s: Sys) returns (t: Sys)
    requires Reachable(c, s) && AtRun(c, s) && GapsAtMost(s.hist.marks, c.delay)
    requires s.hist.marks != [] ==> s.now <= s.hist.marks[|s.hist.marks| - 1] + c.delay
    requires (c.count - 1) * c.delay <= c.window
    ensures Reachable(c, t) && t.daemon == Ended(false)
    decreases Max(1, c.count) - |s.hist.marks|
  {
    FastFailuresGiveUp(c, s, c.delay);
    var es := FailedRound(c, s);
    t := Final(c, s, es);
    ReachableOn(c, s, es);
    if t.daemon != Ended(false) {
      t := RoundsUntilFailed(c, t);
    }
  }

  /** Exactly when a configuration can end in `Failed`: if and only if count-1 delays fit the window. */
  lemma {:induction false} CanFailIff(c: Config)
    ensures (exists s :: Reachable(c, s) && s.actor.status == Failed) <==> (c.count - 1) * c.delay <= c.window
  {
    if (c.count - 1) * c.delay <= c.window {
      var s := FirstRun(c);
      var t := RoundsUntilFailed(c, s);
      GaveUpIff(c, t);
    } else {
      forall s | Reachable(c, s) ensures s.actor.status != Failed {
        SlowRetriesNeverFail(c, s);
      }
    }
  }
}

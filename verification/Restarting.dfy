/** How a caretaker keeps its program running: between the end of one child and the next `Run`. */
module Restarting {
  import opened Retry
  import opened Protocol
  import opened Invariant
  import opened Safety
  import opened Termination
  import opened Timing

  /** How far a caretaker without a live child is from its next `Run`, in stages. */
  function GapPhase(s: Sys): nat {
    match s.daemon
    case Ended(_) => 0
    case Notified(_) => 3
    case Looping(f) =>
      match s.run
      case Queued(_) => 1
      case NoRun => if f.slot.Sleeping? then 3 + Ahead(s.now, f.slot.deadline) else 2
      case Replied(_) => 5
      case Spawned(stage) => 6 + if stage.Stopping? then Ahead(s.now, stage.deadline) else 0
  }

  /** Stages, refined by the wake-ups that are pending. */
  function GapRank(s: Sys): (n: nat)
    ensures n <= 23
  {
    3 * GapPhase(s) + (if s.daemonWoken then 1 else 0) + (if s.run.Spawned? && s.runWoken then 1 else 0)
  }

  /** A run whose child is gone has been woken. */
  lemma {:induction false} GoneChildWakes(c: Config, s: Sys)
    requires Inv(c, s) && s.alive == {} && s.run.Spawned?
    ensures s.runWoken
    ensures s.run.stage.SpawnFailed? || SignalsOf(s, s.run.stage).exit.Some?
  {
  }

  lemma {:induction false} GapRunPoll(c: Config, s: Sys, s': Sys)
    requires Inv(c, s) && s.alive == {} && RunPolled(c, s, s')
    ensures s'.alive == {} && GapRank(s') < GapRank(s)
  {
    GoneChildWakes(c, s);
  }

  lemma {:induction false} GapDaemonPoll(c: Config, s: Sys, s': Sys)
    requires Inv(c, s) && s.alive == {} && DaemonPolled(s, s')
    ensures s'.alive == {} && GapRank(s') <= GapRank(s) && (s.daemonWoken ==> GapRank(s') < GapRank(s))
  {
  }

  lemma {:induction false} GapSignals(c: Config, s: Sys)
    requires Inv(c, s) && s.alive == {}
    ensures Enabled(c, s, HealthFires) ==> GapRank(StepHealthFires(s)) == GapRank(s)
    ensures GapRank(AfterStop(s)) == GapRank(s)
  {
    if s.run.Spawned? {
      GoneChildWakes(c, s);
    }
  }

  lemma {:induction false} GapTick(c: Config, s: Sys, t: int)
    requires Inv(c, s) && s.alive == {} && s.now <= t
    ensures GapRank(StepTick(s, t)) <= GapRank(s)
    ensures Productive(s, Tick(t)) ==> GapRank(StepTick(s, t)) < GapRank(s)
  {
    if s.run.Spawned? {
      GoneChildWakes(c, s);
    }
  }

  /** Until the next `Run` is handled no event takes the caretaker back, and every productive one takes it
  on; whether it is stopped meanwhile or not. */
  lemma {:induction false} GapStep(c: Config, s: Sys, e: Event)
    requires Inv(c, s) && s.alive == {} && Enabled(c, s, e) && Step(c, s, e).Next? && !e.HandleRun?
    ensures var t := Step(c, s, e).s;
      t.alive == {} && GapRank(t) <= GapRank(s) && (Productive(s, e) ==> GapRank(t) < GapRank(s))
  {
    match e
    case PollDaemonTask =>
      PollDaemonOutcome(s);
      GapDaemonPoll(c, s, StepPollDaemon(s).s);
    case PollRun =>
      PollRunOutcome(c, s);
      GapRunPoll(c, s, StepPollRun(c, s).s);
    case Tick(t) => GapTick(c, s, t);
    case HealthFires => GapSignals(c, s);
    case Terminate =>
      TerminateOutcome(s);
      GapSignals(c, s);
    case _ =>
  }

  ghost predicate NoRunHandled(es: seq<Event>) {
    forall e :: e in es ==> !e.HandleRun?
  }

  /** Over any run from a state without a live child there are at most 23 productive events before the
  next `Run` is handled. */
  lemma {:induction false} GapWorkIsBounded(c: Config, s: Sys, es: seq<Event>)
    requires Inv(c, s) && s.alive == {} && Legal(c, s, es) && NoRunHandled(es)
    ensures Work(c, s, es) + GapRank(Final(c, s, es)) <= GapRank(s) <= 23
    decreases |es|
  {
    if es != [] {
      GapStep(c, s, es[0]);
      StepKeepsInv(c, s, es[0]);
      GapWorkIsBounded(c, Step(c, s, es[0]).s, es[1..]);
    }
  }

  /** And until the next `Run` is in the mailbox, or the daemon has ended, one is always possible. */
  lemma {:induction false} GapNeverStuck(c: Config, s: Sys)
    requires Inv(c, s) && s.alive == {} && !s.daemon.Ended? && !s.run.Queued?
    ensures var e := Onward(s);
      && Enabled(c, s, e) && Productive(s, e) && !e.HandleRun?
      && (Step(c, s, e).Next? <==> !(e.PollDaemonTask? && EndsNow(s) && Waiting(s) == {}))
      && (Step(c, s, e).Next? ==> Step(c, s, e).s.stopSent == s.stopSent)
  {
    if s.run.Spawned? {
      GoneChildWakes(c, s);
    }
    match Onward(s)
    case PollDaemonTask => PollDaemonOutcome(s);
    case PollRun => PollRunOutcome(c, s);
    case _ =>
  }

  /** The next `Run` is in the mailbox, or the daemon has ended: because of a stop, or because of too many
  marks. */
  ghost predicate RunsOn(c: Config, s: Sys) {
    || s.run.Queued?
    || (s.daemon == Ended(true) && s.stopSent)
    || (s.daemon == Ended(false) && s.hist.marks != [] && TooMany(s.hist.marks, c.window, c.count))
  }

  /** A caretaker that is waited for and has no live child comes to its next `Run` within 23 steps, unless
  it was stopped or its retries have run out. */
  lemma {:induction false} NextRunComes(c: Config, s: Sys) returns (es: seq<Event>)
    requires Reachable(c, s) && s.alive == {} && (Waiting(s) != {} || s.daemon.Ended?)
    ensures |es| <= GapRank(s) <= 23 && Legal(c, s, es) && NoRunHandled(es)
    ensures RunsOn(c, Final(c, s, es)) && Final(c, s, es).stopSent == s.stopSent
    decreases GapRank(s)
  {
    ReachableInv(c, s);
    if s.daemon.Ended? || s.run.Queued? {
      es := [];
      if s.daemon.Ended? {
        StoppedNotGivenUp(c, s);
        GaveUpIff(c, s);
      }
    } else {
      var e := Onward(s);
      GapNeverStuck(c, s);
      var s' := Step(c, s, e).s;
      GapStep(c, s, e);
      ListenedStep(c, s, e);
      ConsRun(c, s, e, []);
      ReachableOn(c, s, [e]);
      var rest := NextRunComes(c, s');
      ConsRun(c, s, e, rest);
      es := [e] + rest;
    }
  }
}

/** What a stop does to a caretaker, whatever it was doing when the stop came. */
module Termination {
  import opened Futs
  import opened Caretaker
  import opened Protocol
  import opened Invariant
  import opened Safety

  // ---------------------------------------------------------------------------------------------
  // At most one more child
  // ---------------------------------------------------------------------------------------------

  /** The stop has been sent and the current child is the last: it is still racing, with the signal
  waiting for it, or has been stopped, or the daemon is through. */
  predicate Settled(s: Sys) {
    s.stopSent &&
    (s.daemon.Ended? ||
     match s.run
     case Spawned(Racing(_)) => true
     case Spawned(Stopping(_, rx, _)) => rx.None?
     case Spawned(Killing(_, rx)) => rx.None?
     case Replied(result) => result == RunTerminated
     case _ => false)
  }

  /** `t` follows the settled `s`: nothing more was attempted, marked or spawned, and if the daemon ended
  in between, it ended as stopped. */
  ghost predicate Concludes(s: Sys, t: Sys) {
    && Settled(t) && t.hist == s.hist
    && (s.daemon.Ended? ==> t.daemon == s.daemon)
    && (t.daemon.Ended? && !s.daemon.Ended? ==> t.daemon.approved)
  }

  lemma {:induction false} SettledStep(c: Config, s: Sys, e: Event)
    requires Inv(c, s) && Settled(s) && Enabled(c, s, e) && Step(c, s, e).Next?
    ensures Concludes(s, Step(c, s, e).s)
  {
    match e
    case PollDaemonTask => PollDaemonOutcome(s);
    case PollRun => PollRunOutcome(c, s);
    case _ =>
  }

  /** From then on: no further attempt, no further child, no further mark; and the only way for the
  daemon to end is as stopped. */
  lemma {:induction false} SettledForGood(c: Config, s: Sys, es: seq<Event>)
    requires Inv(c, s) && Settled(s) && Legal(c, s, es)
    ensures Concludes(s, Final(c, s, es))
    decreases |es|
  {
    if es != [] {
      SettledStep(c, s, es[0]);
      StepKeepsInv(c, s, es[0]);
      SettledForGood(c, Step(c, s, es[0]).s, es[1..]);
    }
  }

  /** `t` follows `s` with at most one more child; with one, `t` is settled; from a settled `s`, none. */
  ghost predicate OneMore(s: Sys, t: Sys) {
    && s.hist.spawned <= t.hist.spawned <= s.hist.spawned + 1
    && (s.hist.spawned < t.hist.spawned ==> Settled(t) && !Settled(s))
  }

  lemma {:induction false} StoppedStep(c: Config, s: Sys, e: Event)
    requires Inv(c, s) && s.stopSent && Enabled(c, s, e) && Step(c, s, e).Next?
    ensures var t := Step(c, s, e).s;
      && t.stopSent && OneMore(s, t)
      && (Settled(s) ==> Settled(t))
      && (s.hist.spawned < t.hist.spawned <==> e == HandleRun(true))
  {
    match e
    case PollDaemonTask => PollDaemonOutcome(s);
    case PollRun => PollRunOutcome(c, s);
    case _ =>
  }

  /** After a stop at most one more child comes up, over any run and from any phase: a delay, an answer in
  flight, a child being reaped, failing spawns. If one does come up the caretaker is settled. */
  lemma {:induction false} OneMoreChildAtMost(c: Config, s: Sys, es: seq<Event>)
    requires Inv(c, s) && s.stopSent && Legal(c, s, es)
    ensures OneMore(s, Final(c, s, es))
    decreases |es|
  {
    if es != [] {
      StoppedStep(c, s, es[0]);
      StepKeepsInv(c, s, es[0]);
      if Settled(Step(c, s, es[0]).s) {
        SettledForGood(c, Step(c, s, es[0]).s, es[1..]);
      } else {
        OneMoreChildAtMost(c, Step(c, s, es[0]).s, es[1..]);
      }
    }
  }

  /** A child that races after the stop is stopped by the first poll of its race, exited or not,
  unhealthy or not. */
  lemma {:induction false} StoppedOnFirstPoll(c: Config, s: Sys)
    requires Inv(c, s) && s.stopSent && s.run.Spawned? && s.run.stage.Racing?
    ensures var t := Step(c, s, PollRun).s;
      && Step(c, s, PollRun).Next? && Settled(t)
      && (if t.run.Spawned? then t.actor.status == Terminating && !t.run.stage.Racing?
          else t.run == Replied(RunTerminated) && t.actor.status == Terminated)
    ensures s.runWoken
  {
    PollRunOutcome(c, s);
  }

  // ---------------------------------------------------------------------------------------------
  // The daemon ends
  // ---------------------------------------------------------------------------------------------

  function Ahead(now: int, deadline: int): nat {
    if now < deadline then 1 else 0
  }

  /** How far a stopped caretaker is from its end, in stages. */
  function Phase(s: Sys): nat {
    var live := if s.alive != {} then 1 else 0;
    match s.daemon
    case Ended(_) => 0
    case Notified(_) => 13
    case Looping(f) =>
      match s.run
      case NoRun => if f.slot.Sleeping? then 12 + Ahead(s.now, f.slot.deadline) else 11
      case Queued(_) => 10
      case Replied(result) => if ToLoop(result).None? then 1 else 14
      case Spawned(stage) =>
        match stage
        case SpawnFailed(_) => 15
        case Racing(_) => 8 + live
        case Killing(_, rx) => (if rx.None? then 2 else 16) + live
        case Stopping(_, rx, deadline) => (if rx.None? then 4 else 18) + live + Ahead(s.now, deadline)
  }

  /** Stages, refined by the wake-ups that are pending. */
  function Rank(s: Sys): (n: nat)
    ensures n <= 62
  {
    3 * Phase(s) + (if s.daemonWoken then 1 else 0) + (if s.runWoken then 1 else 0)
  }

  /** Events that move the caretaker on: a message handled, a woken poll, the exit of a child, and the
  clock reaching a deadline that something sleeps on. */
  predicate Productive(s: Sys, e: Event) {
    match e
    case HandleDaemon => true
    case HandleRun(_) => true
    case PollDaemonTask => s.daemonWoken
    case PollRun => s.runWoken
    case ChildExit(_, _) => true
    case Tick(t) =>
      || (LoopTimerDue(s.daemon, t) && !LoopTimerDue(s.daemon, s.now))
      || (StageTimerDue(s.run, t) && !StageTimerDue(s.run, s.now))
    case _ => false
  }

  lemma {:induction false} RankPollRun(c: Config, s: Sys, s': Sys)
    requires Inv(c, s) && s.stopSent && RunPolled(c, s, s')
    ensures Rank(s') <= Rank(s) && (s.runWoken ==> Rank(s') < Rank(s))
  {
  }

  lemma {:induction false} RankPollDaemon(c: Config, s: Sys, s': Sys)
    requires Inv(c, s) && s.stopSent && DaemonPolled(s, s')
    ensures Rank(s') <= Rank(s) && (s.daemonWoken ==> Rank(s') < Rank(s))
  {
  }

  lemma {:induction false} RankTick(c: Config, s: Sys, t: int)
    requires Inv(c, s) && s.stopSent && s.now <= t
    ensures Rank(StepTick(s, t)) <= Rank(s)
    ensures Productive(s, Tick(t)) ==> Rank(StepTick(s, t)) < Rank(s)
  {
  }

  lemma {:induction false} RankChildExit(c: Config, s: Sys, pid: nat, exit: Exit)
    requires Inv(c, s) && s.stopSent && pid in s.alive
    ensures Rank(StepChildExit(s, pid, exit)) < Rank(s)
  {
  }

  lemma {:induction false} RankMessages(c: Config, s: Sys)
    requires Inv(c, s) && s.stopSent
    ensures s.daemon.Notified? ==> Rank(StepHandleDaemon(c, s)) < Rank(s)
    ensures s.run.Queued? ==> Rank(StepHandleRun(c, s, true)) < Rank(s)
  {
  }

  lemma {:induction false} RankSignals(c: Config, s: Sys)
    requires Inv(c, s) && s.stopSent
    ensures Enabled(c, s, HealthFires) ==> Rank(StepHealthFires(s)) <= Rank(s)
    ensures StepTerminate(s) == Next(s)
  {
  }

  /** After a stop, as long as no spawn fails, no event takes the caretaker back and every productive
  one takes it on. */
  lemma {:induction false} RankStep(c: Config, s: Sys, e: Event)
    requires Inv(c, s) && s.stopSent && Enabled(c, s, e) && Step(c, s, e).Next? && e != HandleRun(false)
    ensures Rank(Step(c, s, e).s) <= Rank(s)
    ensures Productive(s, e) ==> Rank(Step(c, s, e).s) < Rank(s)
  {
    match e
    case PollDaemonTask =>
      PollDaemonOutcome(s);
      RankPollDaemon(c, s, StepPollDaemon(s).s);
    case PollRun =>
      PollRunOutcome(c, s);
      RankPollRun(c, s, StepPollRun(c, s).s);
    case Tick(t) => RankTick(c, s, t);
    case ChildExit(pid, exit) => RankChildExit(c, s, pid, exit);
    case HandleDaemon => RankMessages(c, s);
    case HandleRun(_) => RankMessages(c, s);
    case HealthFires => RankSignals(c, s);
    case Terminate => RankSignals(c, s);
    case _ =>
  }

  function Work(c: Config, s: Sys, es: seq<Event>): nat
    requires Legal(c, s, es)
    decreases |es|
  {
    if es == [] then 0
    else (if Productive(s, es[0]) then 1 else 0) + Work(c, Step(c, s, es[0]).s, es[1..])
  }

  /** So over any run after a stop, without a failing spawn, there are at most 62 productive events. */
  lemma {:induction false} StoppedWorkIsBounded(c: Config, s: Sys, es: seq<Event>)
    requires Inv(c, s) && s.stopSent && Legal(c, s, es) && HandleRun(false) !in es
    ensures Work(c, s, es) + Rank(Final(c, s, es)) <= Rank(s)
    decreases |es|
  {
    if es != [] {
      RankStep(c, s, es[0]);
      StoppedStep(c, s, es[0]);
      StepKeepsInv(c, s, es[0]);
      StoppedWorkIsBounded(c, Step(c, s, es[0]).s, es[1..]);
    }
  }

  /** The next productive event; a child that was killed dies. */
  function Onward(s: Sys): Event
    requires !s.daemon.Ended?
  {
    if s.daemon.Notified? then HandleDaemon
    else
      match s.run
      case Queued(_) => HandleRun(true)
      case Spawned(stage) =>
        if s.runWoken || ChildOf(stage).None? then PollRun
        else if stage.Stopping? then Tick(stage.deadline)
        else ChildExit(ChildOf(stage).value, ExitSignal(9))
      case _ =>
        if s.daemonWoken || !s.daemon.fut.slot.Sleeping? then PollDaemonTask
        else Tick(s.daemon.fut.slot.deadline)
  }

  /** Stopped, and listened to while its daemon has not ended. */
  ghost predicate Stopped(c: Config, s: Sys) {
    Inv(c, s) && s.stopSent && (s.daemon.Ended? || Waiting(s) != {})
  }

  /** A stopped caretaker whose daemon has not ended always has a productive event before it. */
  lemma {:induction false} NeverStuck(c: Config, s: Sys)
    requires Stopped(c, s) && !s.daemon.Ended?
    ensures var e := Onward(s);
      Enabled(c, s, e) && Productive(s, e) && e != HandleRun(false) && Step(c, s, e).Next?
  {
    match Onward(s)
    case PollDaemonTask => PollDaemonOutcome(s);
    case PollRun => PollRunOutcome(c, s);
    case _ =>
  }

  lemma {:induction false} OnwardStep(c: Config, s: Sys) returns (s': Sys)
    requires Stopped(c, s) && !s.daemon.Ended?
    ensures Enabled(c, s, Onward(s)) && Onward(s) != HandleRun(false) && Step(c, s, Onward(s)) == Next(s')
    ensures Stopped(c, s') && Rank(s') < Rank(s)
  {
    var e := Onward(s);
    NeverStuck(c, s);
    s' := Step(c, s, e).s;
    RankStep(c, s, e);
    StoppedStep(c, s, e);
    StepKeepsInv(c, s, e);
    ListenedStep(c, s, e);
  }

  /** A run without failing spawns after which the daemon has ended and every waiter is released. */
  ghost predicate LeadsToEnd(c: Config, s: Sys, es: seq<Event>) {
    && Legal(c, s, es) && HandleRun(false) !in es
    && Final(c, s, es).daemon.Ended? && Waiting(Final(c, s, es)) == {}
  }

  lemma {:induction false} PrefixLeadsToEnd(c: Config, s: Sys, e: Event, s': Sys, rest: seq<Event>)
    requires Enabled(c, s, e) && e != HandleRun(false) && Step(c, s, e) == Next(s') && LeadsToEnd(c, s', rest)
    ensures LeadsToEnd(c, s, [e] + rest)
  {
    ConsRun(c, s, e, rest);
  }

  /** After a stop, if spawns succeed and killed children die, the daemon ends within 62 steps and every
  waiter is released. */
  lemma {:induction false} StopEndsTheDaemon(c: Config, s: Sys) returns (es: seq<Event>)
    requires Stopped(c, s)
    ensures |es| <= Rank(s) <= 62
    ensures LeadsToEnd(c, s, es)
    decreases Rank(s)
  {
    if s.daemon.Ended? {
      es := [];
    } else {
      var s' := OnwardStep(c, s);
      var rest := StopEndsTheDaemon(c, s');
      es := [Onward(s)] + rest;
      PrefixLeadsToEnd(c, s, Onward(s), s', rest);
    }
  }
}

/** What every step of a caretaker keeps, and what follows for every reachable state. */
module Invariant {
  import opened Basics
  import opened Retry
  import opened Futs
  import opened Caretaker
  import opened Protocol

  /** Who holds the stop receiver, and which channels are open. */
  ghost predicate Shape(s: Sys) {
    && (s.daemon.Notified? ==> s.run.NoRun?)
    && (s.daemon.Ended? ==> s.run.NoRun?)
    && (s.daemon.Looping? ==>
          match s.daemon.fut.slot
          case Empty => s.run.NoRun? && s.daemon.fut.state.Some?
          case Sleeping(_) => s.run.NoRun? && s.daemon.fut.state.Some?
          case Polling => !s.run.NoRun? && s.daemon.fut.state.None?)
    && (s.run.Spawned? ==> Whole(s.run.stage))
    && (s.actor.stoppedTx.Some? <==> !s.daemon.Ended?)
    && (!s.daemon.Ended? ==> s.released == {})
    && (s.actor.stopTx.Some? <==> !s.stopSent && !s.daemon.Ended?)
    && (s.daemon == Ended(true) ==> s.stopSent)
    && s.hist.stops == (if s.stopSent then 1 else 0)
    && (Owners(s) == 0 ==> s.stopSent || s.daemon.Ended?)
  }

  ghost predicate StatusFits(s: Sys) {
    && (s.run.Spawned? || s.run.Replied? ==> s.hist.attempts != [])
    && match s.run
    case NoRun =>
      if s.daemon == Ended(false) then s.actor.status == Failed
      else if s.hist.attempts == [] then Reportable(s.actor.status)
      else s.actor.status == Terminated
    case Queued(_) =>
      if s.hist.attempts == [] then Reportable(s.actor.status) else s.actor.status == Terminated
    case Spawned(stage) =>
      if stage.SpawnFailed? || stage.Racing? then Reportable(s.actor.status) else s.actor.status == Terminating
    case Replied(_) => s.actor.status == Terminated
  }

  ghost predicate Pids(alive: set<nat>, exits: map<nat, Exit>, nextPid: nat) {
    && alive !! exits.Keys
    && (forall p :: p in alive || p in exits ==> p < nextPid)
  }

  /** The processes alive are at most the one whose handle the run holds. */
  ghost predicate Processes(s: Sys) {
    && Pids(s.alive, s.exits, s.nextPid)
    && match s.run
       case Spawned(stage) =>
         (match ChildOf(stage)
          case None => s.alive == {}
          case Some(pid) => s.alive == (if pid in s.exits then {} else {pid}) && pid < s.nextPid)
       case _ => s.alive == {}
  }

  /** The run being attempted, if any, has been attempted but not marked. */
  predicate Unmarked(s: Sys) {
    s.run.Spawned? || s.run.Replied? || s.daemon == Ended(true)
  }

  /** Attempts and marks alternate, and a retry waits for its delay. */
  ghost predicate Alternate(attempts: seq<int>, marks: seq<int>, delay: nat) {
    && |marks| <= |attempts| <= |marks| + 1
    && (forall i :: 0 <= i < |marks| ==> attempts[i] <= marks[i])
    && (forall i :: 0 < i < |attempts| ==> marks[i - 1] + delay <= attempts[i])
  }

  /** Every mark but a last rejected one was approved. */
  ghost predicate Approved(c: Config, marks: seq<int>, n: nat)
    requires n <= |marks|
  {
    forall i :: 0 < i <= n ==> !TooMany(marks[..i], c.window, c.count)
  }

  /** The record of attempts and marks up to `now`. */
  ghost predicate Record(c: Config, attempts: seq<int>, marks: seq<int>, unmarked: bool, gaveUp: bool, now: int) {
    && Alternate(attempts, marks, c.delay)
    && |attempts| == |marks| + (if unmarked then 1 else 0)
    && Sorted(marks)
    && (marks != [] ==> marks[|marks| - 1] <= now)
    && (attempts != [] ==> attempts[|attempts| - 1] <= now)
    && (gaveUp ==> marks != [] && TooMany(marks, c.window, c.count))
    && Approved(c, marks, if gaveUp then |marks| - 1 else |marks|)
  }

  /** The loop's guard and timer agree with the marks; `due` when the next run is free to start. */
  ghost predicate LoopAgrees(c: Config, marks: seq<int>, f: Repeated<StopRx>, due: bool, now: int) {
    && f.guard == Guard(WindowOf(marks, |marks|, c.window), c.window, c.count)
    && f.interval == c.delay
    && (f.slot.Sleeping? ==> marks != [] && f.slot.deadline == marks[|marks| - 1] + c.delay)
    && (marks != [] && due ==> marks[|marks| - 1] + c.delay <= now)
  }

  ghost predicate Chronicle(c: Config, s: Sys) {
    && Record(c, s.hist.attempts, s.hist.marks, Unmarked(s), s.daemon == Ended(false), s.now)
    && (s.daemon.Notified? ==> s.hist.attempts == [])
    && (s.daemon.Looping? ==>
          LoopAgrees(c, s.hist.marks, s.daemon.fut, s.daemon.fut.slot.Empty? || s.run.Queued?, s.now))
  }

  /** A future that is not woken has left its waker wherever its next progress can come from. */
  ghost predicate Wakers(s: Sys) {
    && (s.daemon.Looping? ==>
          match s.daemon.fut.slot
          case Empty => s.daemonWoken
          case Sleeping(deadline) => s.daemonWoken || (s.daemonReg && s.now < deadline)
          case Polling => s.daemonWoken || (s.daemonReg && !s.run.Replied?))
    && (s.run.Spawned? && !s.runWoken ==>
          match s.run.stage
          case SpawnFailed(_) => false
          case Racing(fut) =>
            && s.runReg == {StopSource, UnhealthySource, ChildSource}
            && SignalsOf(s, s.run.stage) == Signals(false, false, None)
          case Stopping(_, _, deadline) =>
            && s.runReg == {ChildSource, TimerSource}
            && SignalsOf(s, s.run.stage).exit.None? && s.now < deadline
          case Killing(_, _) => s.runReg == {ChildSource} && SignalsOf(s, s.run.stage).exit.None?)
  }

  ghost predicate Inv(c: Config, s: Sys) {
    Shape(s) && StatusFits(s) && Processes(s) && Chronicle(c, s) && Wakers(s)
  }

  lemma {:induction false} InitInv(c: Config, at: int)
    ensures Inv(c, Init(at))
  {
  }

  // ---------------------------------------------------------------------------------------------
  // The two polls, case by case
  // ---------------------------------------------------------------------------------------------

  /** A race still holds all it started with. */
  ghost predicate Whole(stage: Stage) {
    stage.Racing? ==> stage.fut.child.Some? && stage.fut.stopRx.Some? && stage.fut.unhealthyRx.Some?
  }

  /** The receiver a stopped run will hand back: none if the stop signal won the race. */
  function HandBack(stage: Stage, sig: Signals): Option<StopRx> {
    match stage
    case SpawnFailed(rx) => Some(rx)
    case Racing(fut) => if sig.stop then None else fut.stopRx
    case Stopping(_, rx, _) => rx
    case Killing(_, rx) => rx
  }

  /** The race is over because a signal won it, or was so before. */
  predicate Interrupted(stage: Stage, sig: Signals) {
    !stage.SpawnFailed? && (stage.Racing? ==> sig.stop || sig.unhealthy)
  }

  function StopDeadline(stage: Stage, now: int, grace: nat): int {
    if stage.Stopping? then stage.deadline else now + grace
  }

  /** A polled stage goes on as `p` says. */
  ghost predicate GoesOn(stage: Stage, a: Actor, sig: Signals, now: int, grace: nat, p: StagePoll)
    requires p.StagePending?
  {
    var status := if stage.Racing? then Terminating else a.status;
    && sig.exit.None? && ChildOf(p.stage) == ChildOf(stage)
    && match p.stage
       case SpawnFailed(_) => false
       case Racing(_) =>
         && p.stage == stage && p.actor == a && !Interrupted(stage, sig)
         && p.registered == {StopSource, UnhealthySource, ChildSource}
       case Stopping(_, rx, deadline) =>
         && Interrupted(stage, sig) && !stage.Killing?
         && rx == HandBack(stage, sig) && now < deadline == StopDeadline(stage, now, grace)
         && p.actor == a.(status := status) && p.registered == {ChildSource, TimerSource}
       case Killing(_, rx) =>
         && Interrupted(stage, sig)
         && rx == HandBack(stage, sig) && (stage.Killing? || StopDeadline(stage, now, grace) <= now)
         && p.actor == a.(status := status) && p.registered == {ChildSource}
  }

  /** A polled stage answers `result`. */
  ghost predicate Answers(stage: Stage, sig: Signals, result: RunResult) {
    && (stage.SpawnFailed? || sig.exit.Some?)
    && ToLoop(result) == HandBack(stage, sig)
    && (Interrupted(stage, sig) ==> result == StoppedResult(HandBack(stage, sig)))
  }

  lemma {:induction false} StageGoesOn(stage: Stage, a: Actor, sig: Signals, now: int, grace: nat)
    requires Whole(stage)
    ensures var p := PollStage(stage, a, sig, now, grace); p.StagePending? ==> GoesOn(stage, a, sig, now, grace, p)
  {
  }

  lemma {:induction false} StageAnswers(stage: Stage, a: Actor, sig: Signals, now: int, grace: nat)
    requires Whole(stage)
    ensures var p := PollStage(stage, a, sig, now, grace);
      && !p.StageFault?
      && (p.StageDone? ==> Answers(stage, sig, p.result) && p.actor == a.(status := Terminated))
  {
  }

  ghost predicate RunPolled(c: Config, s: Sys, s': Sys) {
    && s.run.Spawned?
    && var stage, sig := s.run.stage, SignalsOf(s, s.run.stage);
    match s'.run
    case Spawned(next) =>
      && s' == s.(run := s'.run, actor := s'.actor, runWoken := false, runReg := s'.runReg)
      && GoesOn(stage, s.actor, sig, s.now, c.grace, StagePending(next, s'.actor, s'.runReg))
    case Replied(result) =>
      && s' == s.(run := s'.run, actor := s.actor.(status := Terminated), runWoken := false, runReg := {},
                  daemonWoken := s.daemonWoken || s.daemonReg)
      && Answers(stage, sig, result)
    case _ => false
  }

  lemma {:induction false} PollRunOutcome(c: Config, s: Sys)
    requires Shape(s) && s.run.Spawned?
    ensures StepPollRun(c, s).Next? && RunPolled(c, s, StepPollRun(c, s).s)
  {
    var sig := SignalsOf(s, s.run.stage);
    StageGoesOn(s.run.stage, s.actor, sig, s.now, c.grace);
    StageAnswers(s.run.stage, s.actor, sig, s.now, c.grace);
  }

  function AfterStop(s: Sys): Sys {
    s.(actor := s.actor.(stopTx := None), stopSent := true, hist := s.hist.(stops := s.hist.stops + 1),
       runWoken := s.runWoken || StopSource in s.runReg)
  }

  /** Sending the stop never fails, and only the first `Terminate` sends it. */
  lemma {:induction false} TerminateOutcome(s: Sys)
    requires Shape(s)
    ensures StepTerminate(s) == Next(if s.actor.stopTx.Some? then AfterStop(s) else s)
  {
  }

  /** The daemon ends in this poll: its run was stopped, or its mark is one too many. */
  predicate EndsNow(s: Sys) {
    TakesReply(s) && (MarksNow(s) ==> !Approves(Marked(s.daemon.fut.guard, s.now)))
  }

  function AfterEnd(s: Sys): Sys
    requires s.daemon.Looping?
  {
    s.(daemon := Ended(!MarksNow(s)),
       actor := Actor(if MarksNow(s) then Failed else s.actor.status, None, None), run := NoRun,
       hist := if MarksNow(s) then s.hist.(marks := s.hist.marks + [s.now]) else s.hist,
       daemonWoken := false, daemonReg := false, released := s.released + Waiting(s))
  }

  ghost predicate DaemonPolled(s: Sys, s': Sys) {
    && s.daemon.Looping?
    && var f := s.daemon.fut;
    match f.slot
    case Empty =>
      && f.state.Some?
      && s' == s.(daemon := Looping(f.(slot := Polling, state := None)), run := Queued(f.state.value),
                  daemonWoken := true, daemonReg := false)
    case Sleeping(deadline) =>
      s' == if s.now < deadline then s.(daemonWoken := false, daemonReg := true)
            else s.(daemon := Looping(f.(slot := Empty)), daemonWoken := true, daemonReg := false)
    case Polling =>
      if !s.run.Replied? then s' == s.(daemonWoken := false, daemonReg := true)
      else if EndsNow(s) then s' == AfterEnd(s)
      else
        && MarksNow(s)
        && s' == s.(daemon := Looping(Repeated(Sleeping(s.now + f.interval), ToLoop(s.run.result),
                                               Marked(f.guard, s.now), f.interval)),
                    run := NoRun, hist := s.hist.(marks := s.hist.marks + [s.now]),
                    daemonWoken := true, daemonReg := false)
  }

  /** The daemon's poll fails in one case only: it ends the daemon while nobody waits. */
  lemma {:induction false} PollDaemonOutcome(s: Sys)
    requires Shape(s) && s.daemon.Looping?
    ensures StepPollDaemon(s).Panic? <==> EndsNow(s) && Waiting(s) == {}
    ensures StepPollDaemon(s).Panic? ==> StepPollDaemon(s).fault == NobodyListens
    ensures StepPollDaemon(s).Next? ==> DaemonPolled(s, StepPollDaemon(s).s)
  {
  }

  lemma {:induction false} ApprovedAppend(c: Config, marks: seq<int>, now: int)
    requires Approved(c, marks, |marks|)
    ensures Approved(c, marks + [now], |marks|)
    ensures !TooMany(marks + [now], c.window, c.count) ==> Approved(c, marks + [now], |marks| + 1)
  {
    var after := marks + [now];
    assert forall i :: 0 <= i <= |marks| ==> after[..i] == marks[..i];
    assert after[..|marks| + 1] == after;
  }

  lemma {:induction false} RecordMark(c: Config, attempts: seq<int>, marks: seq<int>, now: int)
    requires Record(c, attempts, marks, true, false, now)
    ensures Record(c, attempts, marks + [now], false, TooMany(marks + [now], c.window, c.count), now)
  {
    SortedAppend(marks, now);
    ApprovedAppend(c, marks, now);
  }

  lemma {:induction false} RecordAttempt(c: Config, attempts: seq<int>, marks: seq<int>, now: int)
    requires Record(c, attempts, marks, false, false, now)
    requires marks != [] ==> marks[|marks| - 1] + c.delay <= now
    ensures Record(c, attempts + [now], marks, true, false, now)
  {
  }

  /** The guard's verdict on a mark is the one that the whole history of marks gives. */
  lemma {:induction false} MarkStep(c: Config, f: Repeated<StopRx>, marks: seq<int>, now: int)
    requires Sorted(marks) && (marks != [] ==> marks[|marks| - 1] <= now)
    requires f.guard == Guard(WindowOf(marks, |marks|, c.window), c.window, c.count)
    ensures var g := Marked(f.guard, now);
      && g == Guard(WindowOf(marks + [now], |marks| + 1, c.window), c.window, c.count)
      && (Approves(g) <==> !TooMany(marks + [now], c.window, c.count))
  {
    MarkExtendsWindow(f.guard, marks, now);
    SortedAppend(marks, now);
    VerdictCountsWindow(marks + [now], c.window, c.count);
  }

  lemma {:induction false} TickKeepsInv(c: Config, s: Sys, t: int)
    requires Inv(c, s) && s.now <= t
    ensures Inv(c, StepTick(s, t))
  {
  }

  lemma {:induction false} HandleDaemonKeepsInv(c: Config, s: Sys)
    requires Inv(c, s) && s.daemon.Notified?
    ensures Inv(c, StepHandleDaemon(c, s))
  {
  }

  lemma {:induction false} HandleRunKeepsShape(c: Config, s: Sys, spawns: bool)
    requires Shape(s)
    requires s.run.Queued?
    ensures Shape(StepHandleRun(c, s, spawns))
  {
  }

  lemma {:induction false} HandleRunKeepsStatusFits(c: Config, s: Sys, spawns: bool)
    requires Shape(s) && StatusFits(s)
    requires s.run.Queued?
    ensures StatusFits(StepHandleRun(c, s, spawns))
  {
  }

  lemma {:induction false} HandleRunKeepsProcesses(c: Config, s: Sys, spawns: bool)
    requires Shape(s) && Processes(s)
    requires s.run.Queued?
    ensures Processes(StepHandleRun(c, s, spawns))
  {
  }

  lemma {:induction false} HandleRunKeepsWakers(c: Config, s: Sys, spawns: bool)
    requires Shape(s) && Processes(s) && Wakers(s)
    requires s.run.Queued?
    ensures Wakers(StepHandleRun(c, s, spawns))
  {
  }

  lemma {:induction false} HandleRunKeepsChronicle(c: Config, s: Sys, spawns: bool)
    requires Shape(s) && Chronicle(c, s)
    requires s.run.Queued?
    ensures Chronicle(c, StepHandleRun(c, s, spawns))
  {
    RecordAttempt(c, s.hist.attempts, s.hist.marks, s.now);
  }

  lemma {:induction false} RunPolledKeepsShape(c: Config, s: Sys, s': Sys)
    requires Shape(s)
    requires RunPolled(c, s, s')
    ensures Shape(s')
  {
  }

  lemma {:induction false} RunPolledKeepsStatusFits(c: Config, s: Sys, s': Sys)
    requires Shape(s) && StatusFits(s)
    requires RunPolled(c, s, s')
    ensures StatusFits(s')
  {
  }

  lemma {:induction false} RunPolledKeepsProcesses(c: Config, s: Sys, s': Sys)
    requires Shape(s) && Processes(s)
    requires RunPolled(c, s, s')
    ensures Processes(s')
  {
  }

  lemma {:induction false} RunPolledKeepsWakers(c: Config, s: Sys, s': Sys)
    requires Shape(s) && Processes(s) && Wakers(s)
    requires RunPolled(c, s, s')
    ensures Wakers(s')
  {
  }

  lemma {:induction false} RunPolledKeepsChronicle(c: Config, s: Sys, s': Sys)
    requires Shape(s) && Chronicle(c, s)
    requires RunPolled(c, s, s')
    ensures Chronicle(c, s')
  {
  }

  lemma {:induction false} DaemonPolledKeepsShape(c: Config, s: Sys, s': Sys)
    requires Shape(s)
    requires DaemonPolled(s, s')
    ensures Shape(s')
  {
  }

  lemma {:induction false} StatusFitsAfterEnd(s: Sys)
    requires StatusFits(s) && TakesReply(s)
    ensures StatusFits(AfterEnd(s))
  {
  }

  lemma {:induction false} DaemonPolledKeepsStatusFits(c: Config, s: Sys, s': Sys)
    requires Shape(s) && StatusFits(s)
    requires DaemonPolled(s, s')
    ensures StatusFits(s')
  {
    if EndsNow(s) {
      StatusFitsAfterEnd(s);
    }
  }

  lemma {:induction false} DaemonPolledKeepsProcesses(c: Config, s: Sys, s': Sys)
    requires Shape(s) && Processes(s)
    requires DaemonPolled(s, s')
    ensures Processes(s')
  {
  }

  lemma {:induction false} DaemonPolledKeepsWakers(c: Config, s: Sys, s': Sys)
    requires Shape(s) && Processes(s) && Wakers(s)
    requires DaemonPolled(s, s')
    ensures Wakers(s')
  {
  }

  /** A poll that marks either puts the loop to sleep or ends the daemon as failed. */
  lemma {:induction false} MarkOutcome(s: Sys, s': Sys)
    requires DaemonPolled(s, s') && MarksNow(s)
    ensures var g := Marked(s.daemon.fut.guard, s.now);
      && s'.run.NoRun? && s'.now == s.now
      && s'.hist == s.hist.(marks := s.hist.marks + [s.now])
      && s'.daemon == if !Approves(g) then Ended(false) else
          Looping(Repeated(Sleeping(s.now + s.daemon.fut.interval), ToLoop(s.run.result), g, s.daemon.fut.interval))
  {
  }

  lemma {:induction false} MarkKeepsChronicle(c: Config, s: Sys, s': Sys)
    requires Chronicle(c, s) && DaemonPolled(s, s') && MarksNow(s)
    ensures Chronicle(c, s')
  {
    MarkOutcome(s, s');
    MarkStep(c, s.daemon.fut, s.hist.marks, s.now);
    RecordMark(c, s.hist.attempts, s.hist.marks, s.now);
  }

  lemma {:induction false} DaemonPolledKeepsChronicle(c: Config, s: Sys, s': Sys)
    requires Shape(s) && Chronicle(c, s)
    requires DaemonPolled(s, s')
    ensures Chronicle(c, s')
  {
    if MarksNow(s) {
      MarkKeepsChronicle(c, s, s');
    } else {
      assert s'.hist == s.hist && s'.now == s.now && s'.daemon != Ended(false);
    }
  }

  lemma {:induction false} ChildExitKeepsInv(c: Config, s: Sys, pid: nat, exit: Exit)
    requires Inv(c, s) && pid in s.alive
    ensures Inv(c, StepChildExit(s, pid, exit))
  {
  }

  lemma {:induction false} HealthFiresKeepsInv(c: Config, s: Sys)
    requires Inv(c, s) && Enabled(c, s, HealthFires)
    ensures Inv(c, StepHealthFires(s))
  {
  }

  lemma {:induction false} SetHealthKeepsInv(c: Config, s: Sys, h: HealthState)
    requires Inv(c, s)
    ensures Inv(c, s.(actor := OnSetHealth(s.actor, h)))
  {
  }

  lemma {:induction false} TerminateKeepsShape(c: Config, s: Sys)
    requires Shape(s)
    requires s.actor.stopTx.Some?
    ensures Shape(AfterStop(s))
  {
  }

  lemma {:induction false} TerminateKeepsStatusFits(c: Config, s: Sys)
    requires Shape(s) && StatusFits(s)
    requires s.actor.stopTx.Some?
    ensures StatusFits(AfterStop(s))
  {
  }

  lemma {:induction false} TerminateKeepsProcesses(c: Config, s: Sys)
    requires Shape(s) && Processes(s)
    requires s.actor.stopTx.Some?
    ensures Processes(AfterStop(s))
  {
  }

  lemma {:induction false} TerminateKeepsWakers(c: Config, s: Sys)
    requires Shape(s) && Processes(s) && Wakers(s)
    requires s.actor.stopTx.Some?
    ensures Wakers(AfterStop(s))
  {
  }

  lemma {:induction false} TerminateKeepsChronicle(c: Config, s: Sys)
    requires Shape(s) && Chronicle(c, s)
    requires s.actor.stopTx.Some?
    ensures Chronicle(c, AfterStop(s))
  {
  }

  lemma {:induction false} WaitKeepsInv(c: Config, s: Sys, w: nat)
    requires Inv(c, s)
    ensures Inv(c, StepWait(s, w))
  {
  }

  lemma {:induction false} HandleRunKeepsInv(c: Config, s: Sys, spawns: bool)
    requires Inv(c, s) && s.run.Queued?
    ensures Inv(c, StepHandleRun(c, s, spawns))
  {
    HandleRunKeepsShape(c, s, spawns);
    HandleRunKeepsStatusFits(c, s, spawns);
    HandleRunKeepsProcesses(c, s, spawns);
    HandleRunKeepsWakers(c, s, spawns);
    HandleRunKeepsChronicle(c, s, spawns);
  }

  lemma {:induction false} PollRunKeepsInv(c: Config, s: Sys, s': Sys)
    requires Inv(c, s) && RunPolled(c, s, s')
    ensures Inv(c, s')
  {
    RunPolledKeepsShape(c, s, s');
    RunPolledKeepsStatusFits(c, s, s');
    RunPolledKeepsProcesses(c, s, s');
    RunPolledKeepsWakers(c, s, s');
    RunPolledKeepsChronicle(c, s, s');
  }

  lemma {:induction false} PollDaemonKeepsInv(c: Config, s: Sys, s': Sys)
    requires Inv(c, s) && DaemonPolled(s, s')
    ensures Inv(c, s')
  {
    DaemonPolledKeepsShape(c, s, s');
    DaemonPolledKeepsStatusFits(c, s, s');
    DaemonPolledKeepsProcesses(c, s, s');
    DaemonPolledKeepsWakers(c, s, s');
    DaemonPolledKeepsChronicle(c, s, s');
  }

  lemma {:induction false} TerminateKeepsInv(c: Config, s: Sys)
    requires Inv(c, s) && s.actor.stopTx.Some?
    ensures Inv(c, AfterStop(s))
  {
    TerminateKeepsShape(c, s);
    TerminateKeepsStatusFits(c, s);
    TerminateKeepsProcesses(c, s);
    TerminateKeepsWakers(c, s);
    TerminateKeepsChronicle(c, s);
  }

  /** The invariant is inductive. */
  lemma {:induction false} StepKeepsInv(c: Config, s: Sys, e: Event)
    requires Inv(c, s) && Enabled(c, s, e) && Step(c, s, e).Next?
    ensures Inv(c, Step(c, s, e).s)
  {
    match e
    case Tick(t) => TickKeepsInv(c, s, t);
    case HandleDaemon => HandleDaemonKeepsInv(c, s);
    case PollDaemonTask =>
      PollDaemonOutcome(s);
      PollDaemonKeepsInv(c, s, StepPollDaemon(s).s);
    case HandleRun(spawns) => HandleRunKeepsInv(c, s, spawns);
    case PollRun =>
      PollRunOutcome(c, s);
      PollRunKeepsInv(c, s, StepPollRun(c, s).s);
    case ChildExit(pid, exit) => ChildExitKeepsInv(c, s, pid, exit);
    case HealthFires => HealthFiresKeepsInv(c, s);
    case SetHealth(h) => SetHealthKeepsInv(c, s, h);
    case Terminate =>
      TerminateOutcome(s);
      if s.actor.stopTx.Some? {
        TerminateKeepsInv(c, s);
      }
    case Wait(w) => WaitKeepsInv(c, s, w);
  }

  /** So it holds in every state that any run of a caretaker reaches. */
  lemma {:induction false} RunsKeepInv(c: Config, s: Sys, es: seq<Event>)
    requires Inv(c, s) && Legal(c, s, es)
    ensures Inv(c, Final(c, s, es))
    decreases |es|
  {
    if es != [] {
      StepKeepsInv(c, s, es[0]);
      RunsKeepInv(c, Step(c, s, es[0]).s, es[1..]);
    }
  }

  ghost predicate Reachable(c: Config, s: Sys) {
    exists at: int, es: seq<Event> :: Legal(c, Init(at), es) && Final(c, Init(at), es) == s
  }

  lemma {:induction false} ReachableInv(c: Config, s: Sys)
    requires Reachable(c, s)
    ensures Inv(c, s)
  {
    var at: int, es: seq<Event> :| Legal(c, Init(at), es) && Final(c, Init(at), es) == s;
    InitInv(c, at);
    RunsKeepInv(c, Init(at), es);
  }

  lemma {:induction false} ReachableOn(c: Config, s: Sys, es: seq<Event>)
    requires Reachable(c, s) && Legal(c, s, es)
    ensures Reachable(c, Final(c, s, es))
  {
    var at: int, before: seq<Event> :| Legal(c, Init(at), before) && Final(c, Init(at), before) == s;
    LegalConcat(c, Init(at), before, es);
  }
}

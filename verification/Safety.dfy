/** Safety of one caretaker over all its runs. */
module Safety {
  import opened Basics
  import opened Retry
  import opened Futs
  import opened Caretaker
  import opened Protocol
  import opened Invariant

  // ---------------------------------------------------------------------------------------------
  // The stop receiver, and the expectations that rest on it
  // ---------------------------------------------------------------------------------------------

  /** The stop signal has been received, and the run it stopped has not been taken off yet. */
  predicate StopConsumed(s: Sys) {
    match s.run
    case Spawned(stage) =>
      (stage.Stopping? || stage.Killing?) && stage.handBack.None?
    case Replied(result) => result == RunTerminated
    case _ => false
  }

  /** The receiver is in one place until it is consumed, which only a sent stop can do. While the
  sender is in the actor the receiver is alive, so sending on it succeeds. */
  lemma {:induction false} StopReceiverHasOneOwner(c: Config, s: Sys)
    requires Reachable(c, s)
    ensures Owners(s) <= 1
    ensures Owners(s) == 0 <==> s.daemon.Ended? || StopConsumed(s)
    ensures StopConsumed(s) ==> s.stopSent && s.actor.stopTx.None?
    ensures s.actor.stopTx.Some? ==> Owners(s) == 1
  {
    ReachableInv(c, s);
  }

  /** Of the faults in `Fault`, in any reachable state and for any event, one can occur: the unheard
  broadcast, exactly when the daemon ends and nobody is subscribed. */
  lemma {:induction false} OnlyUnheardBroadcastPanics(c: Config, s: Sys, e: Event)
    requires Reachable(c, s) && Enabled(c, s, e)
    ensures Step(c, s, e).Panic? <==> e.PollDaemonTask? && EndsNow(s) && Waiting(s) == {}
    ensures Step(c, s, e).Panic? ==> Step(c, s, e).fault == NobodyListens
  {
    ReachableInv(c, s);
    match e
    case PollDaemonTask => PollDaemonOutcome(s);
    case PollRun => PollRunOutcome(c, s);
    case _ =>
  }

  /** That failure does happen: a retry count of at most one, a program that cannot be spawned, and a
  daemon that is through before the first `Wait`. */
  lemma {:induction false} UnheardBroadcastHappens(c: Config, at: int)
    requires c.count <= 1
    ensures var es := [HandleDaemon, PollDaemonTask, HandleRun(false), PollRun];
      && Legal(c, Init(at), es)
      && Enabled(c, Final(c, Init(at), es), PollDaemonTask)
      && Step(c, Final(c, Init(at), es), PollDaemonTask) == Panic(NobodyListens)
  {
    var s1 := StepHandleDaemon(c, Init(at));
    var s2 := StepPollDaemon(s1).s;
    var s3 := StepHandleRun(c, s2, false);
    var s4 := StepPollRun(c, s3).s;
    ConsRun(c, s3, PollRun, []);
    ConsRun(c, s2, HandleRun(false), [PollRun]);
    ConsRun(c, s1, PollDaemonTask, [HandleRun(false), PollRun]);
    ConsRun(c, Init(at), HandleDaemon, [PollDaemonTask, HandleRun(false), PollRun]);
    assert [HandleDaemon] + [PollDaemonTask, HandleRun(false), PollRun]
        == [HandleDaemon, PollDaemonTask, HandleRun(false), PollRun];
    FirstMarkIsTooMany(c, at);
  }

  lemma {:induction false} FirstMarkIsTooMany(c: Config, at: int)
    requires c.count <= 1
    ensures !Approves(Marked(Guard([], c.window, c.count), at))
  {
    MarkExtendsWindow(Guard([], c.window, c.count), [], at);
    VerdictCountsWindow([at], c.window, c.count);
    assert [] + [at] == [at];
  }

  lemma {:induction false} ConsRun(c: Config, s: Sys, e: Event, rest: seq<Event>)
    requires Enabled(c, s, e) && Step(c, s, e).Next? && Legal(c, Step(c, s, e).s, rest)
    ensures Legal(c, s, [e] + rest) && Final(c, s, [e] + rest) == Final(c, Step(c, s, e).s, rest)
  {
    assert ([e] + rest)[1..] == rest;
  }

  /** Events that are enabled in turn, whatever their steps yield. */
  predicate EnabledInTurn(c: Config, s: Sys, es: seq<Event>)
    decreases |es|
  {
    es == [] || (Enabled(c, s, es[0]) && (Step(c, s, es[0]).Next? ==> EnabledInTurn(c, Step(c, s, es[0]).s, es[1..])))
  }

  /** Once a `Wait` has been handled, none of these faults occurs for the rest of any run. */
  lemma {:induction false} ListenedRunsNeverPanic(c: Config, s: Sys, es: seq<Event>)
    requires Inv(c, s) && (Waiting(s) != {} || s.daemon.Ended?)
    requires EnabledInTurn(c, s, es)
    ensures Legal(c, s, es)
    decreases |es|
  {
    if es != [] {
      ListenedStep(c, s, es[0]);
      StepKeepsInv(c, s, es[0]);
      ListenedRunsNeverPanic(c, Step(c, s, es[0]).s, es[1..]);
    }
  }

  lemma {:induction false} ListenedStep(c: Config, s: Sys, e: Event)
    requires Inv(c, s) && (Waiting(s) != {} || s.daemon.Ended?) && Enabled(c, s, e)
    ensures Step(c, s, e).Next?
    ensures Waiting(Step(c, s, e).s) != {} || Step(c, s, e).s.daemon.Ended?
  {
    match e
    case PollDaemonTask =>
      PollDaemonOutcome(s);
      ListenedDaemonPoll(s, StepPollDaemon(s).s);
    case PollRun =>
      PollRunOutcome(c, s);
      ListenedRunPoll(c, s, StepPollRun(c, s).s);
    case _ =>
  }

  lemma {:induction false} ListenedDaemonPoll(s: Sys, s': Sys)
    requires DaemonPolled(s, s') && Waiting(s) != {}
    ensures Waiting(s') != {} || s'.daemon.Ended?
  {
  }

  lemma {:induction false} ListenedRunPoll(c: Config, s: Sys, s': Sys)
    requires RunPolled(c, s, s') && Waiting(s) != {}
    ensures Waiting(s') != {}
  {
  }

  // ---------------------------------------------------------------------------------------------
  // Processes
  // ---------------------------------------------------------------------------------------------

  /** At most one child of a program is alive at any time; when the next one is about to be built, the
  last one is gone, on every path: exit, error, unhealthy and stop. */
  lemma {:induction false} AtMostOneChild(c: Config, s: Sys)
    requires Reachable(c, s)
    ensures |s.alive| <= 1
    ensures s.run.Queued? ==> s.alive == {}
    ensures s.daemon.Ended? ==> s.alive == {}
  {
    ReachableInv(c, s);
  }

  /** If child `pid` is being stopped, its deadline is `due`; if it is being killed, `due` has passed. */
  predicate KilledLate(s: Sys, pid: nat, due: int) {
    && pid < s.nextPid
    && (s.run.Spawned? && ChildOf(s.run.stage) == Some(pid) ==>
          match s.run.stage
          case Stopping(_, _, deadline) => deadline == due
          case Killing(_, _) => due <= s.now
          case _ => false)
  }

  lemma {:induction false} KilledLateStep(c: Config, s: Sys, e: Event, pid: nat, due: int)
    requires Inv(c, s) && Enabled(c, s, e) && Step(c, s, e).Next? && KilledLate(s, pid, due)
    ensures KilledLate(Step(c, s, e).s, pid, due)
  {
    match e
    case PollDaemonTask => PollDaemonOutcome(s);
    case PollRun => PollRunOutcome(c, s);
    case _ =>
  }

  lemma {:induction false} KilledLateRun(c: Config, s: Sys, es: seq<Event>, pid: nat, due: int)
    requires Inv(c, s) && Legal(c, s, es) && KilledLate(s, pid, due)
    ensures KilledLate(Final(c, s, es), pid, due)
    decreases |es|
  {
    if es != [] {
      KilledLateStep(c, s, es[0], pid, due);
      StepKeepsInv(c, s, es[0]);
      KilledLateRun(c, Step(c, s, es[0]).s, es[1..], pid, due);
    }
  }

  /** A child is signalled in the poll that ends its race. Over any run from there, if it is ever being
  killed, at least the grace period has gone by since the signal. */
  lemma {:induction false} GraceIsRespected(c: Config, s: Sys, es: seq<Event>)
    requires Reachable(c, s) && s.run.Spawned? && s.run.stage.Racing?
    requires Legal(c, s, [PollRun] + es) && Step(c, s, PollRun).s.run != s.run
    ensures var t := Final(c, s, [PollRun] + es);
      t.run.Spawned? && t.run.stage.Killing? && Some(t.run.stage.child) == s.run.stage.fut.child ==>
        s.now + c.grace <= t.now
  {
    var first, pid := Step(c, s, PollRun).s, s.run.stage.fut.child.value;
    ReachableInv(c, s);
    PollRunOutcome(c, s);
    StepKeepsInv(c, s, PollRun);
    assert ([PollRun] + es)[1..] == es;
    KilledLateRun(c, first, es, pid, s.now + c.grace);
  }

  /** An exit that no signal overtook is reported as it was: a clean exit as normal, any other with its
  code, its signal, or as already gone when it could not be waited for; the receiver is handed back. */
  lemma {:induction false} ExitIsReported(c: Config, s: Sys)
    requires Reachable(c, s) && s.run.Spawned? && s.run.stage.Racing?
    requires !s.stopSent && !s.unhealthySent && s.alive == {}
    ensures Step(c, s, PollRun).Next? && Step(c, s, PollRun).s.run.Replied?
    ensures var exit, result := s.exits[s.run.stage.fut.child.value], Step(c, s, PollRun).s.run.result;
      && ToLoop(result).Some?
      && (result.NormalExit? <==> exit.ExitSuccess?)
      && (!exit.ExitSuccess? ==> result.RunFailed?)
      && (exit.ExitCode? ==> result.error == NonZeroExit(exit.code))
      && (exit.ExitSignal? ==> result.error == ExitBySignal(exit.signal))
      && (exit.WaitFailed? ==> result.error == AlreadyDied)
  {
    ReachableInv(c, s);
  }

  /** The exit of a child in an undisturbed race is answered by the next poll, and as what it was. */
  lemma {:induction false} ExitIsAnswered(c: Config, s: Sys, pid: nat, exit: Exit)
    requires Reachable(c, s) && Races(s, pid) && pid in s.alive && !s.stopSent && !s.unhealthySent
    ensures Enabled(c, s, ChildExit(pid, exit)) && s.run.stage.fut.stopRx.Some?
    ensures var gone, rx := StepChildExit(s, pid, exit), s.run.stage.fut.stopRx.value;
      && gone.runWoken && gone.alive == {}
      && Step(c, gone, PollRun).Next?
      && Step(c, gone, PollRun).s.run == Replied(
           match exit
           case ExitSuccess => NormalExit(rx)
           case ExitCode(code) => RunFailed(rx, NonZeroExit(code))
           case ExitSignal(signal) => RunFailed(rx, ExitBySignal(signal))
           case WaitFailed => RunFailed(rx, AlreadyDied))
  {
    ReachableInv(c, s);
    StepKeepsInv(c, s, ChildExit(pid, exit));
  }

  /** What a run answers once its child is gone, whatever else has happened to it: a failed spawn, a stop
  and a health check that failed are each told apart, and all but the stop hand the receiver back. */
  lemma {:induction false} AnswerTellsCause(c: Config, s: Sys)
    requires Reachable(c, s) && s.run.Spawned? && s.alive == {}
    ensures Step(c, s, PollRun).Next? && Step(c, s, PollRun).s.run.Replied?
    ensures Step(c, s, PollRun).s.actor.status == Terminated
    ensures var result := Step(c, s, PollRun).s.run.result;
      match s.run.stage
      case SpawnFailed(rx) => result == RunFailed(rx, SpawnError)
      case Racing(fut) =>
        && (s.stopSent ==> result == RunTerminated)
        && (!s.stopSent && s.unhealthySent ==> fut.stopRx.Some? && result == RunUnhealthy(fut.stopRx.value))
      case Stopping(_, None, _) => result == RunTerminated
      case Stopping(_, Some(rx), _) => result == RunUnhealthy(rx)
      case Killing(_, None) => result == RunTerminated
      case Killing(_, Some(rx)) => result == RunUnhealthy(rx)
  {
    ReachableInv(c, s);
  }

  // ---------------------------------------------------------------------------------------------
  // Children that nothing disturbs, and children that are unhealthy
  // ---------------------------------------------------------------------------------------------

  /** Child `pid` is racing. */
  predicate Races(s: Sys, pid: nat) {
    s.run.Spawned? && s.run.stage.Racing? && s.run.stage.fut.child == Some(pid)
  }

  /** Child `pid` is racing alone, with neither signal sent. */
  predicate Undisturbed(s: Sys, pid: nat) {
    Races(s, pid) && s.alive == {pid} && s.actor.stopTx.Some? && !s.unhealthySent
  }

  /** Events that end a race. */
  predicate Disturbs(e: Event) {
    e.Terminate? || e.HealthFires? || e.ChildExit?
  }

  lemma {:induction false} UndisturbedStep(c: Config, s: Sys, e: Event, pid: nat)
    requires Inv(c, s) && Undisturbed(s, pid) && Enabled(c, s, e) && Step(c, s, e).Next? && !Disturbs(e)
    ensures var t := Step(c, s, e).s; Undisturbed(t, pid) && t.hist == s.hist
  {
    match e
    case PollDaemonTask => PollDaemonOutcome(s);
    case PollRun => PollRunOutcome(c, s);
    case _ =>
  }

  lemma {:induction false} UndisturbedRun(c: Config, s: Sys, es: seq<Event>, pid: nat)
    requires Inv(c, s) && Undisturbed(s, pid) && Legal(c, s, es)
    requires forall e :: e in es ==> !Disturbs(e)
    ensures Undisturbed(Final(c, s, es), pid) && Final(c, s, es).hist == s.hist
    decreases |es|
  {
    if es != [] {
      UndisturbedStep(c, s, es[0], pid);
      StepKeepsInv(c, s, es[0]);
      UndisturbedRun(c, Step(c, s, es[0]).s, es[1..], pid);
    }
  }

  /** A new child goes on running over any run without a stop, a health signal for it and an exit of it,
  whatever was sent for its predecessors: nothing else stops it, and nothing is attempted meanwhile. */
  lemma {:induction false} HealthyChildIsLeftAlone(c: Config, s: Sys, es: seq<Event>)
    requires Reachable(c, s) && s.run.Queued? && s.actor.stopTx.Some?
    requires Legal(c, s, [HandleRun(true)] + es) && forall e :: e in es ==> !Disturbs(e)
    ensures var t := Final(c, s, [HandleRun(true)] + es);
      && Races(t, s.nextPid) && t.alive == {s.nextPid}
      && t.hist == s.hist.(attempts := s.hist.attempts + [s.now], spawned := s.hist.spawned + 1)
  {
    ReachableInv(c, s);
    StepKeepsInv(c, s, HandleRun(true));
    assert ([HandleRun(true)] + es)[1..] == es;
    UndisturbedRun(c, Step(c, s, HandleRun(true)).s, es, s.nextPid);
  }

  /** The health signal can come to any checked child that races, wakes its run, and the next poll sends
  it the termination signal, with the grace period ahead of it and the receiver kept for a retry. */
  lemma {:induction false} UnhealthyChildIsStopped(c: Config, s: Sys, pid: nat)
    requires Reachable(c, s) && Races(s, pid) && pid in s.alive && !s.stopSent && !s.unhealthySent && c.healthCheck
    ensures Enabled(c, s, HealthFires) && s.run.stage.fut.stopRx.Some?
    ensures var sick, rx := StepHealthFires(s), s.run.stage.fut.stopRx;
      && sick.runWoken && Step(c, sick, PollRun).Next?
      && var t := Step(c, sick, PollRun).s;
      && t.alive == {pid} && t.actor.status == Terminating
      && t.run == Spawned(if c.grace == 0 then Killing(pid, rx)
                          else Stopping(pid, rx, s.now + c.grace))
  {
    ReachableInv(c, s);
    StepKeepsInv(c, s, HealthFires);
  }

  // ---------------------------------------------------------------------------------------------
  // Statuses
  // ---------------------------------------------------------------------------------------------

  /** A health report may come at any time. It shows while the program is starting or running, and at no
  other time; nothing else is changed by it. */
  lemma {:induction false} ReportShows(c: Config, s: Sys, h: HealthState)
    ensures Enabled(c, s, SetHealth(h)) && Step(c, s, SetHealth(h)).Next?
    ensures Step(c, s, SetHealth(h)).s == s.(actor := s.actor.(status :=
      match s.actor.status
      case Starting => Running(h)
      case Running(_) => Running(h)
      case Terminating => Terminating
      case Terminated => Terminated
      case Failed => Failed))
  {
  }

  lemma {:induction false} StartingStep(c: Config, s: Sys, e: Event)
    requires Inv(c, s) && s.hist.attempts == [] && Enabled(c, s, e) && Step(c, s, e).Next?
    requires !e.HandleRun? && !e.SetHealth?
    ensures var t := Step(c, s, e).s; t.hist.attempts == [] && t.actor.status == s.actor.status
  {
    match e
    case PollDaemonTask => PollDaemonOutcome(s);
    case _ =>
  }

  lemma {:induction false} StartingRun(c: Config, s: Sys, es: seq<Event>)
    requires Inv(c, s) && s.hist.attempts == [] && Legal(c, s, es)
    requires forall e :: e in es ==> !e.HandleRun? && !e.SetHealth?
    ensures Final(c, s, es).actor.status == s.actor.status
    decreases |es|
  {
    if es != [] {
      StartingStep(c, s, es[0]);
      StepKeepsInv(c, s, es[0]);
      StartingRun(c, Step(c, s, es[0]).s, es[1..]);
    }
  }

  /** Before its first `Run` and before any report, a caretaker is starting. */
  lemma {:induction false} StartsAsStarting(c: Config, at: int, es: seq<Event>)
    requires Legal(c, Init(at), es) && forall e :: e in es ==> !e.HandleRun? && !e.SetHealth?
    ensures Final(c, Init(at), es).actor.status == Starting
  {
    InitInv(c, at);
    StartingRun(c, Init(at), es);
  }

  /** Which event may change the status, from what, to what. */
  ghost predicate StatusMove(c: Config, s: Sys, e: Event, s': Sys) {
    var a, b := s.actor.status, s'.actor.status;
    match e
    case SetHealth(h) => if Reportable(a) then b == Running(h) else b == a
    case HandleRun(spawns) =>
      && b == (if spawns && c.healthCheck then Running(Unknown) else Starting)
      && (a == Terminated || (Reportable(a) && s.hist.attempts == []))
    case PollRun =>
      || b == a
      || (Reportable(a) && (b == Terminating || b == Terminated))
      || (a == Terminating && b == Terminated)
    case PollDaemonTask => if s'.daemon == Ended(false) then a == Terminated && b == Failed else b == a
    case _ => b == a
  }

  lemma {:induction false} RunPollStatus(c: Config, s: Sys, s': Sys)
    requires StatusFits(s) && RunPolled(c, s, s')
    ensures StatusMove(c, s, PollRun, s')
  {
  }

  lemma {:induction false} DaemonPollStatus(c: Config, s: Sys, s': Sys)
    requires Inv(c, s) && DaemonPolled(s, s')
    ensures StatusMove(c, s, PollDaemonTask, s')
  {
  }

  lemma {:induction false} RunStartStatus(c: Config, s: Sys, spawns: bool)
    requires StatusFits(s) && s.run.Queued?
    ensures StatusMove(c, s, HandleRun(spawns), StepHandleRun(c, s, spawns))
  {
  }

  /** For any interleaving of health reports with everything else. */
  lemma {:induction false} StatusFollowsRelation(c: Config, s: Sys, e: Event)
    requires Reachable(c, s) && Enabled(c, s, e) && Step(c, s, e).Next?
    ensures StatusMove(c, s, e, Step(c, s, e).s)
  {
    ReachableInv(c, s);
    match e
    case PollDaemonTask =>
      PollDaemonOutcome(s);
      DaemonPollStatus(c, s, StepPollDaemon(s).s);
    case PollRun =>
      PollRunOutcome(c, s);
      RunPollStatus(c, s, StepPollRun(c, s).s);
    case HandleRun(spawns) => RunStartStatus(c, s, spawns);
    case _ =>
  }

  /** Verdict, status, processes and history stand still. */
  ghost predicate SameEnd(s: Sys, t: Sys) {
    && t.daemon == s.daemon && t.run.NoRun? && t.alive == {}
    && t.hist == s.hist && t.actor.status == s.actor.status
  }

  lemma {:induction false} EndStep(c: Config, s: Sys, e: Event)
    requires Inv(c, s) && s.daemon.Ended? && Enabled(c, s, e) && Step(c, s, e).Next?
    ensures SameEnd(s, Step(c, s, e).s)
  {
  }

  /** After the daemon has ended: the same verdict, the same status, no child, no run, no mark, for the
  rest of any run. */
  lemma {:induction false} EndIsForever(c: Config, s: Sys, es: seq<Event>)
    requires Inv(c, s) && s.daemon.Ended? && Legal(c, s, es)
    ensures SameEnd(s, Final(c, s, es))
    decreases |es|
  {
    if es != [] {
      EndStep(c, s, es[0]);
      StepKeepsInv(c, s, es[0]);
      EndIsForever(c, Step(c, s, es[0]).s, es[1..]);
    }
  }

  /** The last status tells a stop from giving up. */
  lemma {:induction false} StoppedNotGivenUp(c: Config, s: Sys)
    requires Inv(c, s) && s.daemon.Ended?
    ensures s.actor.status == if s.daemon.approved then Terminated else Failed
    ensures s.daemon.approved ==> s.stopSent
  {
    if s.daemon.approved {
      assert |s.hist.attempts| == |s.hist.marks| + 1;
    }
  }

  // ---------------------------------------------------------------------------------------------
  // Waiters
  // ---------------------------------------------------------------------------------------------

  /** `Wait` number `w` has been handled. */
  predicate Waited(s: Sys, w: nat) {
    w in Waiting(s) || w in s.released
  }

  /** A handled `Wait` has been answered exactly when the daemon has ended: those handled earlier by the
  one broadcast, those handled later at once. At most one stop signal is ever sent. */
  lemma {:induction false} WaitersReleasedExactlyAtEnd(c: Config, s: Sys, w: nat)
    requires Reachable(c, s) && Waited(s, w)
    ensures w in s.released <==> s.daemon.Ended?
    ensures s.hist.stops <= 1
  {
    ReachableInv(c, s);
  }

  /** No handled `Wait` is ever forgotten. */
  lemma {:induction false} WaitersAreKept(c: Config, s: Sys, es: seq<Event>, w: nat)
    requires Inv(c, s) && Legal(c, s, es) && Waited(s, w)
    ensures Waited(Final(c, s, es), w)
    decreases |es|
  {
    if es != [] {
      var s' := Step(c, s, es[0]).s;
      WaiterStep(c, s, es[0], w);
      StepKeepsInv(c, s, es[0]);
      WaitersAreKept(c, s', es[1..], w);
    }
  }

  lemma {:induction false} WaiterStep(c: Config, s: Sys, e: Event, w: nat)
    requires Inv(c, s) && Enabled(c, s, e) && Step(c, s, e).Next? && Waited(s, w)
    ensures Waited(Step(c, s, e).s, w)
  {
    match e
    case PollDaemonTask =>
      PollDaemonOutcome(s);
      WaiterDaemonPoll(s, StepPollDaemon(s).s, w);
    case PollRun =>
      PollRunOutcome(c, s);
      WaiterRunPoll(c, s, StepPollRun(c, s).s, w);
    case _ =>
  }

  lemma {:induction false} WaiterDaemonPoll(s: Sys, s': Sys, w: nat)
    requires DaemonPolled(s, s') && Waited(s, w)
    ensures Waited(s', w)
  {
  }

  lemma {:induction false} WaiterRunPoll(c: Config, s: Sys, s': Sys, w: nat)
    requires RunPolled(c, s, s') && Waited(s, w)
    ensures Waited(s', w)
  {
  }

  // ---------------------------------------------------------------------------------------------
  // Wake-ups
  // ---------------------------------------------------------------------------------------------

  /** Polling a future that nothing has woken changes nothing at all. */
  lemma {:induction false} NoLostWakeup(c: Config, s: Sys)
    requires Inv(c, s)
    ensures s.daemon.Looping? && !s.daemonWoken ==> Step(c, s, PollDaemonTask) == Next(s)
    ensures s.run.Spawned? && !s.runWoken ==> Step(c, s, PollRun) == Next(s)
  {
  }

  /** Polls of futures that are not woken. */
  predicate Idle(s: Sys, e: Event) {
    (e.PollDaemonTask? && !s.daemonWoken) || (e.PollRun? && !s.runWoken)
  }

  /** A run without its idle polls. */
  function OnWakeOnly(c: Config, s: Sys, es: seq<Event>): seq<Event>
    requires Legal(c, s, es)
    decreases |es|
  {
    if es == [] then []
    else
      var rest := OnWakeOnly(c, Step(c, s, es[0]).s, es[1..]);
      if Idle(s, es[0]) then rest else [es[0]] + rest
  }

  ghost predicate NoIdlePolls(c: Config, s: Sys, es: seq<Event>)
    requires Legal(c, s, es)
    decreases |es|
  {
    es == [] || (!Idle(s, es[0]) && NoIdlePolls(c, Step(c, s, es[0]).s, es[1..]))
  }

  /** `lean` is a run of busy events with the same end as `es`. */
  ghost predicate Leaner(c: Config, s: Sys, es: seq<Event>, lean: seq<Event>)
    requires Legal(c, s, es)
  {
    Legal(c, s, lean) && NoIdlePolls(c, s, lean) && Final(c, s, lean) == Final(c, s, es)
  }

  lemma {:induction false} SkipIdle(c: Config, s: Sys, es: seq<Event>)
    requires Inv(c, s) && Legal(c, s, es) && es != [] && Idle(s, es[0])
    ensures Legal(c, s, es[1..]) && Final(c, s, es) == Final(c, s, es[1..])
    ensures OnWakeOnly(c, s, es) == OnWakeOnly(c, s, es[1..])
  {
    NoLostWakeup(c, s);
  }

  lemma {:induction false} KeepBusy(c: Config, s: Sys, es: seq<Event>)
    requires Legal(c, s, es) && es != [] && !Idle(s, es[0])
    requires var s' := Step(c, s, es[0]).s; Leaner(c, s', es[1..], OnWakeOnly(c, s', es[1..]))
    ensures Leaner(c, s, es, OnWakeOnly(c, s, es))
  {
    var rest := OnWakeOnly(c, Step(c, s, es[0]).s, es[1..]);
    assert ([es[0]] + rest)[1..] == rest;
  }

  /** Polling only on wake-ups reaches the same end as polling whenever one likes. */
  lemma {:induction false} PollingOnWakeSuffices(c: Config, s: Sys, es: seq<Event>)
    requires Inv(c, s) && Legal(c, s, es)
    ensures Leaner(c, s, es, OnWakeOnly(c, s, es))
    decreases |es|
  {
    if es == [] {
    } else if Idle(s, es[0]) {
      SkipIdle(c, s, es);
      PollingOnWakeSuffices(c, s, es[1..]);
    } else {
      StepKeepsInv(c, s, es[0]);
      PollingOnWakeSuffices(c, Step(c, s, es[0]).s, es[1..]);
      KeepBusy(c, s, es);
    }
  }

  /** A caretaker at rest, no future woken and no message unread, waits for the outside world only: for
  a child that is alive, not stopped and not unhealthy, for a child that got its signal and a deadline
  ahead, for a killed child, or for the retry delay. */
  lemma {:induction false} RestMeansWaitingForTheWorld(c: Config, s: Sys)
    requires Reachable(c, s) && s.daemon.Looping? && !s.run.Queued?
    requires !s.daemonWoken && (s.run.Spawned? ==> !s.runWoken)
    ensures s.run.NoRun? ==> s.daemon.fut.slot.Sleeping? && s.now < s.daemon.fut.slot.deadline
    ensures !s.run.NoRun? ==> s.run.Spawned? && |s.alive| == 1 && !s.run.stage.SpawnFailed?
    ensures s.run.Spawned? && s.run.stage.Racing? ==> !s.stopSent && !s.unhealthySent
    ensures s.run.Spawned? && s.run.stage.Stopping? ==> s.now < s.run.stage.deadline
  {
    ReachableInv(c, s);
  }
}

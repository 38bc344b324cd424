/** One caretaker as a step system: its actor, the daemon loop, the run in progress, the operating
system's processes and the clock. Messages, polls, exits, health signals and the clock interleave in any
order; handlers and polls are atomic, as on one actix arbiter. */
module Protocol {
  import opened Basics
  import opened Retry
  import opened Futs
  import opened Caretaker

  datatype Config = Config(window: nat, count: nat, delay: nat, grace: nat, healthCheck: bool)

  /** The daemon: its message is waiting, its loop is running, or it ended (with the loop's verdict). */
  datatype Daemon = Notified(rx: StopRx) | Looping(fut: Repeated<StopRx>) | Ended(approved: bool)

  /** The run: none, its message is in the mailbox, its future is spawned, or its answer is unread. */
  datatype Run = NoRun | Queued(rx: StopRx) | Spawned(stage: Stage) | Replied(result: RunResult)

  /** What happened so far: clock readings at each `build_child` and at each `mark`, the number of
  children that came up, and the number of stop signals sent. */
  datatype History = History(attempts: seq<int>, marks: seq<int>, spawned: nat, stops: nat)

  /** `daemonReg`: the daemon's last poll left its waker with the inner future or the timer.
  `runReg`: the sources that hold the run's waker. `released`: waiters whose `Wait` was answered. */
  datatype Sys = Sys(
    now: int,
    actor: Actor,
    daemon: Daemon,
    run: Run,
    stopSent: bool,
    unhealthySent: bool,
    alive: set<nat>,
    exits: map<nat, Exit>,
    nextPid: nat,
    released: set<nat>,
    daemonWoken: bool,
    daemonReg: bool,
    runWoken: bool,
    runReg: set<Source>,
    hist: History)

  datatype Event =
    | Tick(to: int)
    | HandleDaemon
    | PollDaemonTask
    | HandleRun(spawns: bool)
    | PollRun
    | ChildExit(pid: nat, exit: Exit)
    | HealthFires
    | SetHealth(health: HealthState)
    | Terminate
    | Wait(waiter: nat)

  datatype Outcome = Next(s: Sys) | Panic(fault: Fault)

  /** The state right after `started`, at clock reading `at`. */
  function Init(at: int): Sys {
    Sys(at, OnStarted(NewActor()), Notified(StopRx), NoRun, false, false, {}, map[], 0, {},
        false, false, false, {}, History([], [], 0, 0))
  }

  function Waiting(s: Sys): set<nat> {
    if s.actor.stoppedTx.Some? then s.actor.stoppedTx.value.subscribers else {}
  }

  // ---------------------------------------------------------------------------------------------
  // The stop receiver
  // ---------------------------------------------------------------------------------------------

  function Held(rx: Option<StopRx>): nat {
    if rx.Some? then 1 else 0
  }

  function HeldByStage(stage: Stage): nat {
    match stage
    case SpawnFailed(_) => 1
    case Racing(fut) => Held(fut.stopRx)
    case Stopping(_, rx, _) => Held(rx)
    case Killing(_, rx) => Held(rx)
  }

  /** In how many places the stop receiver is held. */
  function Owners(s: Sys): nat {
    (match s.daemon case Notified(_) => 1 case Looping(f) => Held(f.state) case Ended(_) => 0) +
    (match s.run
     case NoRun => 0
     case Queued(_) => 1
     case Spawned(stage) => HeldByStage(stage)
     case Replied(res) => Held(ToLoop(res)))
  }

  // ---------------------------------------------------------------------------------------------
  // Steps
  // ---------------------------------------------------------------------------------------------

  predicate Enabled(c: Config, s: Sys, e: Event) {
    match e
    case Tick(t) => s.now <= t
    case HandleDaemon => s.daemon.Notified?
    case PollDaemonTask => s.daemon.Looping?
    case HandleRun(_) => s.run.Queued?
    case PollRun => s.run.Spawned?
    case ChildExit(pid, _) => pid in s.alive
    case HealthFires => c.healthCheck && s.run.Spawned? && s.run.stage.Racing? && !s.unhealthySent
    case SetHealth(_) => true
    case Terminate => true
    case Wait(_) => true
  }

  /** The deadline of the timer a stage polls, if it polls one. */
  predicate StageTimerDue(run: Run, t: int) {
    run.Spawned? && run.stage.Stopping? && run.stage.deadline <= t
  }

  predicate LoopTimerDue(d: Daemon, t: int) {
    d.Looping? && d.fut.slot.Sleeping? && d.fut.slot.deadline <= t
  }

  /** The child a stage holds, if it holds one. */
  function ChildOf(stage: Stage): Option<nat> {
    match stage
    case SpawnFailed(_) => None
    case Racing(fut) => fut.child
    case Stopping(pid, _, _) => Some(pid)
    case Killing(pid, _) => Some(pid)
  }

  /** A receiver is ready once its sender is gone, whether the sender was used or dropped. */
  function SignalsOf(s: Sys, stage: Stage): Signals {
    Signals(s.actor.stopTx.None?, s.unhealthySent,
            var child := ChildOf(stage);
            if child.Some? && child.value in s.exits then Some(s.exits[child.value]) else None)
  }

  function StepTick(s: Sys, t: int): Sys {
    s.(now := t,
       daemonWoken := s.daemonWoken || (s.daemonReg && LoopTimerDue(s.daemon, t)),
       runWoken := s.runWoken || (TimerSource in s.runReg && StageTimerDue(s.run, t)))
  }

  function StepHandleDaemon(c: Config, s: Sys): Sys
    requires s.daemon.Notified?
  {
    s.(daemon := Looping(NewRepeated(s.daemon.rx, Guard([], c.window, c.count), c.delay)),
       daemonWoken := true, daemonReg := false)
  }

  function StepHandleRun(c: Config, s: Sys, spawns: bool): Sys
    requires s.run.Queued?
  {
    var started := s.(actor := OnRun(s.actor, spawns, c.healthCheck),
                      runWoken := true, runReg := {},
                      hist := s.hist.(attempts := s.hist.attempts + [s.now]));
    if spawns then
      started.(run := Spawned(Racing(NewWaitAbort(s.nextPid, s.run.rx))),
               unhealthySent := false,
               alive := s.alive + {s.nextPid}, nextPid := s.nextPid + 1,
               hist := started.hist.(spawned := s.hist.spawned + 1))
    else
      started.(run := Spawned(SpawnFailed(s.run.rx)))
  }

  function StepPollRun(c: Config, s: Sys): Outcome
    requires s.run.Spawned?
  {
    match PollStage(s.run.stage, s.actor, SignalsOf(s, s.run.stage), s.now, c.grace)
    case StagePending(stage, actor, registered) =>
      Next(s.(run := Spawned(stage), actor := actor, runWoken := false, runReg := registered))
    case StageDone(result, actor) =>
      Next(s.(run := Replied(result), actor := actor, runWoken := false, runReg := {},
              daemonWoken := s.daemonWoken || s.daemonReg))
    case StageFault => Panic(NoField)
  }

  /** The answer the daemon's request future yields when polled. */
  function ReplyOf(s: Sys): Poll<RunResult> {
    if s.run.Replied? then Ready(s.run.result) else Pending
  }

  /** The daemon's poll takes the answer of the run out of its channel. */
  predicate TakesReply(s: Sys) {
    s.daemon.Looping? && s.daemon.fut.slot.Polling? && s.run.Replied?
  }

  predicate MarksNow(s: Sys) {
    TakesReply(s) && ToLoop(s.run.result).Some?
  }

  function StepPollDaemon(s: Sys): Outcome
    requires s.daemon.Looping?
  {
    var (fut, actor, out) := PollDaemon(s.daemon.fut, s.actor, ReplyOf(s), s.now);
    var run := if TakesReply(s) then NoRun else s.run;
    var hist := if MarksNow(s) then s.hist.(marks := s.hist.marks + [s.now]) else s.hist;
    match out
    case DaemonFault => Panic(NoState)
    case DaemonPending(call, wokeSelf) =>
      if call.Some? && run != NoRun then Panic(RunOverlap)
      else
        Next(s.(daemon := Looping(fut), actor := actor, hist := hist,
                run := if call.Some? then Queued(call.value) else run,
                daemonWoken := wokeSelf, daemonReg := !wokeSelf))
    case DaemonDone(approved, BroadcastFault(fault)) => Panic(fault)
    case DaemonDone(approved, Released(waiters)) =>
      Next(s.(daemon := Ended(approved), actor := actor, hist := hist, run := run,
              daemonWoken := false, daemonReg := false, released := s.released + waiters))
  }

  function StepTerminate(s: Sys): Outcome {
    var (actor, r) := OnTerminate(s.actor, Owners(s) > 0);
    match r
    case AlreadyStopped => Next(s.(actor := actor))
    case SendFailed => Panic(StopUnheard)
    case StopSignalled =>
      Next(s.(actor := actor, stopSent := true, hist := s.hist.(stops := s.hist.stops + 1),
              runWoken := s.runWoken || StopSource in s.runReg))
  }

  function StepWait(s: Sys, waiter: nat): Sys {
    var (actor, immediate) := OnWait(s.actor, waiter);
    s.(actor := actor, released := s.released + if immediate then {waiter} else {})
  }

  function StepChildExit(s: Sys, pid: nat, exit: Exit): Sys {
    s.(alive := s.alive - {pid}, exits := s.exits[pid := exit],
       runWoken := s.runWoken ||
         (ChildSource in s.runReg && s.run.Spawned? && ChildOf(s.run.stage) == Some(pid)))
  }

  function StepHealthFires(s: Sys): Sys {
    s.(unhealthySent := true, runWoken := s.runWoken || UnhealthySource in s.runReg)
  }

  function Step(c: Config, s: Sys, e: Event): Outcome
    requires Enabled(c, s, e)
  {
    match e
    case Tick(t) => Next(StepTick(s, t))
    case HandleDaemon => Next(StepHandleDaemon(c, s))
    case PollDaemonTask => StepPollDaemon(s)
    case HandleRun(spawns) => Next(StepHandleRun(c, s, spawns))
    case PollRun => StepPollRun(c, s)
    case ChildExit(pid, exit) => Next(StepChildExit(s, pid, exit))
    case HealthFires => Next(StepHealthFires(s))
    case SetHealth(h) => Next(s.(actor := OnSetHealth(s.actor, h)))
    case Terminate => StepTerminate(s)
    case Wait(w) => Next(StepWait(s, w))
  }

  // ---------------------------------------------------------------------------------------------
  // Runs
  // ---------------------------------------------------------------------------------------------

  /** Every event of `es` is enabled when its turn comes, and none of them panics. */
  predicate Legal(c: Config, s: Sys, es: seq<Event>)
    decreases |es|
  {
    es == [] || (Enabled(c, s, es[0]) && Step(c, s, es[0]).Next? && Legal(c, Step(c, s, es[0]).s, es[1..]))
  }

  function Final(c: Config, s: Sys, es: seq<Event>): Sys
    requires Legal(c, s, es)
    decreases |es|
  {
    if es == [] then s else Final(c, Step(c, s, es[0]).s, es[1..])
  }

  lemma {:induction false} LegalConcat(c: Config, s: Sys, a: seq<Event>, b: seq<Event>)
    ensures Legal(c, s, a + b) <==> Legal(c, s, a) && Legal(c, Final(c, s, a), b)
    ensures Legal(c, s, a + b) ==> Final(c, s, a + b) == Final(c, Final(c, s, a), b)
    decreases |a|
  {
    if a == [] {
      assert a + b == b;
    } else {
      assert (a + b)[0] == a[0] && (a + b)[1..] == a[1..] + b;
      if Enabled(c, s, a[0]) && Step(c, s, a[0]).Next? {
        LegalConcat(c, Step(c, s, a[0]).s, a[1..], b);
      }
    }
  }
}

/** The caretaker actor and the futures its handlers spawn (src/supervisor/caretaker.rs).

`Actor` is the value of the fields that the handlers update; every class method below is proved against
a function on that value. Whether a channel is ready, what `wait` reports, the clock and the outcome of
a spawn are passed in. A failed `expect` or `unwrap` is reported as a `Fault`. */
module Caretaker {
  import opened Basics
  import opened Retry
  import opened Futs

  datatype HealthState = Healthy | Unhealthy | Unknown

  datatype Lifecycle = Starting | Running(health: HealthState) | Terminating | Terminated | Failed

  /** The sending half of the stop channel, and the stopped broadcast with its live subscribers. */
  datatype StopTx = StopTx
  datatype Broadcast = Broadcast(subscribers: set<nat>)

  datatype Actor = Actor(status: Lifecycle, stopTx: Option<StopTx>, stoppedTx: Option<Broadcast>)

  datatype RunResult =
    | NormalExit(rx: StopRx)
    | RunTerminated
    | RunUnhealthy(rx: StopRx)
    | RunFailed(rx: StopRx, error: RunError)

  /** The expectations that could fail. `RunOverlap` belongs to the model: it is a second `Run` sent
  while one is unanswered, which the one run slot of module Protocol could not hold. */
  datatype Fault = NoState | NoField | StopUnheard | AlreadyBroadcast | NobodyListens | RunOverlap

  // ---------------------------------------------------------------------------------------------
  // Specification of the handlers
  // ---------------------------------------------------------------------------------------------

  function NewActor(): Actor {
    Actor(Starting, None, None)
  }

  function OnStarted(a: Actor): Actor {
    a.(stopTx := Some(StopTx), stoppedTx := Some(Broadcast({})))
  }

  /** Statuses that a health report may replace. */
  predicate Reportable(status: Lifecycle) {
    status.Running? || status.Starting?
  }

  function OnSetHealth(a: Actor, h: HealthState): Actor {
    if Reportable(a.status) then a.(status := Running(h)) else a
  }

  /** The answer is immediate unless the caller was subscribed to the broadcast. */
  function OnWait(a: Actor, waiter: nat): (Actor, bool) {
    match a.stoppedTx
    case None => (a, true)
    case Some(b) => (a.(stoppedTx := Some(Broadcast(b.subscribers + {waiter}))), false)
  }

  datatype TerminateResult = StopSignalled | AlreadyStopped | SendFailed

  function OnTerminate(a: Actor, receiverLive: bool): (Actor, TerminateResult) {
    if a.stopTx.None? then (a, AlreadyStopped)
    else (a.(stopTx := None), if receiverLive then StopSignalled else SendFailed)
  }

  function OnRun(a: Actor, spawned: bool, healthCheck: bool): Actor {
    a.(status := if spawned && healthCheck then Running(Unknown) else Starting)
  }

  datatype BroadcastResult = Released(waiters: set<nat>) | BroadcastFault(fault: Fault)

  function OnDaemonDone(a: Actor, approved: bool): (Actor, BroadcastResult) {
    var status := if approved then a.status else Failed;
    (Actor(status, None, None),
     if a.stoppedTx.None? then BroadcastFault(AlreadyBroadcast)
     else if a.stoppedTx.value.subscribers == {} then BroadcastFault(NobodyListens)
     else Released(a.stoppedTx.value.subscribers))
  }

  /** What one round hands back to the retry loop: the receiver, unless it was consumed by a stop. */
  function ToLoop(res: RunResult): Option<StopRx> {
    match res
    case RunTerminated => None
    case NormalExit(rx) => Some(rx)
    case RunUnhealthy(rx) => Some(rx)
    case RunFailed(rx, _) => Some(rx)
  }

  // ---------------------------------------------------------------------------------------------
  // Specification of the future that `Run` spawns
  // ---------------------------------------------------------------------------------------------

  /** Where a run stands: the ready failure of a spawn, the race, or the two stages of `ensure_stop`.
  `rx` is the receiver to hand back, None when it was consumed by the stop signal. */
  datatype Stage =
    | SpawnFailed(rx: StopRx)
    | Racing(fut: WaitAbort)
    | Stopping(child: nat, handBack: Option<StopRx>, deadline: int)
    | Killing(child: nat, handBack: Option<StopRx>)

  datatype StagePoll =
    | StagePending(stage: Stage, actor: Actor, registered: set<Source>)
    | StageDone(result: RunResult, actor: Actor)
    | StageFault

  /** What the polled run sees: readiness of the two signals, and the exit of its child. */
  datatype Signals = Signals(stop: bool, unhealthy: bool, exit: Option<Exit>)

  function StoppedResult(handBack: Option<StopRx>): RunResult {
    match handBack
    case None => RunTerminated
    case Some(rx) => RunUnhealthy(rx)
  }

  /** The termination signal is out: wait for the child until the deadline, then kill it. */
  function PollEnsureStop(child: nat, handBack: Option<StopRx>, deadline: int, a: Actor,
                          exit: Option<Exit>, now: int): StagePoll {
    if exit.Some? then StageDone(StoppedResult(handBack), a.(status := Terminated))
    else if now < deadline then
      StagePending(Stopping(child, handBack, deadline), a, {ChildSource, TimerSource})
    else StagePending(Killing(child, handBack), a, {ChildSource})
  }

  function PollStage(stage: Stage, a: Actor, sig: Signals, now: int, grace: nat): StagePoll {
    match stage
    case SpawnFailed(rx) => StageDone(RunFailed(rx, SpawnError), a.(status := Terminated))
    case Racing(fut) =>
      (var (fut', out) := PollWaitAbort(fut, sig.stop, sig.unhealthy, sig.exit);
       match out
       case FieldMissing => StageFault
       case WaitPending(registered) => StagePending(Racing(fut'), a, registered)
       case WaitReady(ExitedWell(rx)) => StageDone(NormalExit(rx), a.(status := Terminated))
       case WaitReady(ExitedWithError(rx, e)) => StageDone(RunFailed(rx, e), a.(status := Terminated))
       case WaitReady(StopSignalReceived(child)) =>
         PollEnsureStop(child, None, now + grace, a.(status := Terminating), sig.exit, now)
       case WaitReady(UnhealthySignalReceived(rx, child)) =>
         PollEnsureStop(child, Some(rx), now + grace, a.(status := Terminating), sig.exit, now))
    case Stopping(child, handBack, deadline) => PollEnsureStop(child, handBack, deadline, a, sig.exit, now)
    case Killing(child, handBack) =>
      if sig.exit.Some? then StageDone(StoppedResult(handBack), a.(status := Terminated))
      else StagePending(stage, a, {ChildSource})
  }

  // ---------------------------------------------------------------------------------------------
  // The actor
  // ---------------------------------------------------------------------------------------------

  class CaretakerActor {
    var status: Lifecycle
    var stopTx: Option<StopTx>
    var stoppedTx: Option<Broadcast>
    const retryWindow: nat
    const retryCount: nat
    const retryDelay: nat
    const grace: nat
    const healthCheck: bool

    constructor (retryWindow: nat, retryCount: nat, retryDelay: nat, grace: nat, healthCheck: bool)
      ensures View() == NewActor()
      ensures this.retryWindow == retryWindow && this.retryCount == retryCount && this.retryDelay == retryDelay
      ensures this.grace == grace && this.healthCheck == healthCheck
    {
      status, stopTx, stoppedTx := Starting, None, None;
      this.retryWindow, this.retryCount, this.retryDelay := retryWindow, retryCount, retryDelay;
      this.grace, this.healthCheck := grace, healthCheck;
    }

    function View(): Actor
      reads this
    {
      Actor(status, stopTx, stoppedTx)
    }

    /** Opens both channels; the receiver travels with the `Daemon` message. */
    method Started() returns (rx: StopRx)
      modifies this
      ensures View() == OnStarted(old(View()))
    {
      stoppedTx := Some(Broadcast({}));
      stopTx := Some(StopTx);
      rx := StopRx;
    }

    method HandleSetHealthState(h: HealthState)
      modifies this`status
      ensures View() == OnSetHealth(old(View()), h)
    {
      match status
      case Running(_) => status := Running(h);
      case Starting => status := Running(h);
      case _ =>
    }

    method HandleWait(waiter: nat) returns (immediate: bool)
      modifies this`stoppedTx
      ensures (View(), immediate) == OnWait(old(View()), waiter)
    {
      match stoppedTx
      case None => immediate := true;
      case Some(b) =>
        stoppedTx := Some(Broadcast(b.subscribers + {waiter}));
        immediate := false;
    }

    method HandleTerminate(receiverLive: bool) returns (r: TerminateResult)
      modifies this`stopTx
      ensures (View(), r) == OnTerminate(old(View()), receiverLive)
    {
      var taken := stopTx;
      stopTx := None;
      if taken.None? {
        return AlreadyStopped;
      }
      return if receiverLive then StopSignalled else SendFailed;
    }

    /** `child` is the spawned process, None when the spawn failed. */
    method HandleRun(rx: StopRx, child: Option<nat>) returns (task: RunTask)
      modifies this`status
      ensures View() == OnRun(old(View()), child.Some?, healthCheck)
      ensures fresh(task) && task.grace == grace && fresh(task.Repr())
      ensures task.View() == if child.Some? then Racing(NewWaitAbort(child.value, rx)) else SpawnFailed(rx)
    {
      status := Starting;
      match child
      case Some(pid) =>
        if healthCheck {
          status := Running(Unknown);
        }
        var fut := new WaitAbortFut(pid, rx, UnhealthyRx);
        task := new RunTask(InRace(fut), grace);
      case None =>
        task := new RunTask(InFailure(rx), grace);
    }

    method BroadcastStopped() returns (r: BroadcastResult)
      modifies this`stopTx, this`stoppedTx
      ensures r == OnDaemonDone(old(View()), true).1
      ensures View() == OnDaemonDone(old(View()), true).0
    {
      stopTx := None;
      var taken := stoppedTx;
      stoppedTx := None;
      if taken.None? {
        return BroadcastFault(AlreadyBroadcast);
      }
      if taken.value.subscribers == {} {
        return BroadcastFault(NobodyListens);
      }
      return Released(taken.value.subscribers);
    }

    method HandleDaemon(rx: StopRx) returns (task: DaemonTask)
      ensures fresh(task) && fresh(task.fut) && fresh(task.fut.retryGuard)
      ensures task.fut.View() == NewRepeated(rx, Guard([], retryWindow, retryCount), retryDelay)
    {
      var guard := new RetryGuard([], retryWindow, retryCount);
      var fut := new RepeatedActFut(rx, guard, retryDelay);
      task := new DaemonTask(fut);
    }
  }

  // ---------------------------------------------------------------------------------------------
  // The future of one run
  // ---------------------------------------------------------------------------------------------

  datatype TaskStage =
    | InFailure(rx: StopRx)
    | InRace(fut: WaitAbortFut)
    | InStop(child: nat, handBack: Option<StopRx>, deadline: int)
    | InKill(child: nat, handBack: Option<StopRx>)

  datatype TaskPoll = TaskPending(registered: set<Source>) | TaskDone(result: RunResult) | TaskFault

  class RunTask {
    var stage: TaskStage
    const grace: nat

    constructor (stage: TaskStage, grace: nat)
      ensures this.stage == stage && this.grace == grace
    {
      this.stage, this.grace := stage, grace;
    }

    /** The task and the race it holds while there is one. */
    ghost function Repr(): set<object>
      reads this
    {
      {this} + if stage.InRace? then {stage.fut} else {}
    }

    ghost function View(): Stage
      reads this, Repr()
    {
      match stage
      case InFailure(rx) => SpawnFailed(rx)
      case InRace(fut) => Racing(fut.View())
      case InStop(child, handBack, deadline) => Stopping(child, handBack, deadline)
      case InKill(child, handBack) => Killing(child, handBack)
    }

    /** One poll of the whole chain: the race, the status updates around it, and `ensure_stop`. */
    method Poll(act: CaretakerActor, sig: Signals, now: int) returns (r: TaskPoll)
      modifies Repr(), act`status
      ensures
        match PollStage(old(View()), old(act.View()), sig, now, grace)
        case StagePending(s, a, registered) => r == TaskPending(registered) && View() == s && act.View() == a
        case StageDone(result, a) => r == TaskDone(result) && act.View() == a
        case StageFault => r == TaskFault
      ensures Repr() <= old(Repr())
    {
      match stage
      case InFailure(rx) =>
        act.status := Terminated;
        return TaskDone(RunFailed(rx, SpawnError));
      case InRace(fut) =>
        var out := fut.Poll(sig.stop, sig.unhealthy, sig.exit);
        match out {
          case FieldMissing =>
            return TaskFault;
          case WaitPending(registered) =>
            return TaskPending(registered);
          case WaitReady(ExitedWell(rx)) =>
            act.status := Terminated;
            return TaskDone(NormalExit(rx));
          case WaitReady(ExitedWithError(rx, e)) =>
            act.status := Terminated;
            return TaskDone(RunFailed(rx, e));
          case WaitReady(StopSignalReceived(child)) =>
            act.status := Terminating;
            stage := InStop(child, None, now + grace);
            r := EnsureStop(act, sig.exit, now);
          case WaitReady(UnhealthySignalReceived(rx, child)) =>
            act.status := Terminating;
            stage := InStop(child, Some(rx), now + grace);
            r := EnsureStop(act, sig.exit, now);
        }
      case InStop(_, _, _) =>
        r := EnsureStop(act, sig.exit, now);
      case InKill(_, handBack) =>
        if sig.exit.None? {
          return TaskPending({ChildSource});
        }
        act.status := Terminated;
        return TaskDone(StoppedResult(handBack));
    }

    method EnsureStop(act: CaretakerActor, exit: Option<Exit>, now: int) returns (r: TaskPoll)
      requires stage.InStop?
      modifies this, act`status
      ensures !stage.InRace? && !stage.InFailure?
      ensures
        match PollEnsureStop(old(stage.child), old(stage.handBack), old(stage.deadline), old(act.View()), exit, now)
        case StagePending(s, a, registered) => r == TaskPending(registered) && View() == s && act.View() == a
        case StageDone(result, a) => r == TaskDone(result) && act.View() == a
        case StageFault => false
    {
      var InStop(child, handBack, deadline) := stage;
      if exit.Some? {
        act.status := Terminated;
        return TaskDone(StoppedResult(handBack));
      }
      if now < deadline {
        return TaskPending({ChildSource, TimerSource});
      }
      stage := InKill(child, handBack);
      return TaskPending({ChildSource});
    }
  }

  // ---------------------------------------------------------------------------------------------
  // The future of the daemon
  // ---------------------------------------------------------------------------------------------

  datatype DaemonPoll =
    | DaemonPending(call: Option<StopRx>, wokeSelf: bool)
    | DaemonDone(approved: bool, broadcast: BroadcastResult)
    | DaemonFault

  function PollDaemon(f: Repeated<StopRx>, a: Actor, reply: Poll<RunResult>, now: int)
    : (Repeated<StopRx>, Actor, DaemonPoll)
  {
    var inner := match reply case Pending => Pending case Ready(res) => Ready(ToLoop(res));
    var (f', out) := PollRepeated(f, inner, now);
    match out
    case NoStateAvailable => (f', a, DaemonFault)
    case LoopPending(call, wokeSelf) => (f', a, DaemonPending(call, wokeSelf))
    case LoopReady(approved) =>
      var (a', b) := OnDaemonDone(a, approved);
      (f', a', DaemonDone(approved, b))
  }

  class DaemonTask {
    const fut: RepeatedActFut<StopRx>

    constructor (fut: RepeatedActFut<StopRx>)
      ensures this.fut == fut
    {
      this.fut := fut;
    }

    /** One poll of the retry loop and of the closure that runs when it is over. */
    method Poll(act: CaretakerActor, reply: Poll<RunResult>, now: int) returns (r: DaemonPoll)
      modifies fut, fut.retryGuard, act
      ensures (fut.View(), act.View(), r) == PollDaemon(old(fut.View()), old(act.View()), reply, now)
    {
      var inner := match reply case Pending => Pending case Ready(res) => Ready(ToLoop(res));
      var out := fut.Poll(inner, now);
      match out
      case NoStateAvailable =>
        return DaemonFault;
      case LoopPending(call, wokeSelf) =>
        return DaemonPending(call, wokeSelf);
      case LoopReady(approved) =>
        if !approved {
          act.status := Failed;
        }
        var b := act.BroadcastStopped();
        return DaemonDone(approved, b);
    }
  }
}

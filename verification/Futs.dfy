/** The two hand-written futures (src/supervisor/futs.rs).

Each future is a class whose `Poll` replaces and takes fields in place. What the polled inner future,
timers and channels answer is passed in; what the future registers with is passed out. A failed
`expect` or `unwrap` is an outcome of the poll, not a precondition: that none is ever reached is proved
for whole runs in modules Invariant and Safety. */
module Futs {
  import opened Basics
  import opened Retry

  // ---------------------------------------------------------------------------------------------
  // RepeatedActFut
  // ---------------------------------------------------------------------------------------------

  datatype Slot = Empty | Polling | Sleeping(deadline: int)

  datatype Repeated<I> = Repeated(slot: Slot, state: Option<I>, guard: Guard, interval: nat)

  /** `LoopPending` says which state was handed to the factory in this poll, if any, and whether the
  future woke itself; if it did not, the inner future or the timer it polled holds its waker. */
  datatype LoopPoll<I> =
    | LoopPending(call: Option<I>, wokeSelf: bool)
    | LoopReady(approved: bool)
    | NoStateAvailable

  function NewRepeated<I>(state: I, guard: Guard, interval: nat): Repeated<I> {
    Repeated(Empty, Some(state), guard, interval)
  }

  function PollRepeated<I>(f: Repeated<I>, inner: Poll<Option<I>>, now: int): (Repeated<I>, LoopPoll<I>) {
    match f.slot
    case Polling =>
      (match inner
       case Pending => (f, LoopPending(None, false))
       case Ready(None) => (f, LoopReady(true))
       case Ready(Some(i)) =>
         var g := Marked(f.guard, now);
         if Approves(g) then
           (f.(slot := Sleeping(now + f.interval), state := Some(i), guard := g), LoopPending(None, true))
         else
           (f.(guard := g), LoopReady(false)))
    case Sleeping(deadline) =>
      if now < deadline then (f, LoopPending(None, false)) else (f.(slot := Empty), LoopPending(None, true))
    case Empty =>
      (match f.state
       case None => (f, NoStateAvailable)
       case Some(i) => (f.(slot := Polling, state := None), LoopPending(Some(i), true)))
  }

  class RepeatedActFut<I> {
    var slot: Slot
    var state: Option<I>
    const retryGuard: RetryGuard
    const retryInterval: nat

    constructor (initialState: I, retryGuard: RetryGuard, retryInterval: nat)
      ensures View() == NewRepeated(initialState, retryGuard.View(), retryInterval)
      ensures this.retryGuard == retryGuard
    {
      slot, state := Empty, Some(initialState);
      this.retryGuard, this.retryInterval := retryGuard, retryInterval;
    }

    ghost function View(): Repeated<I>
      reads this, retryGuard
    {
      Repeated(slot, state, retryGuard.View(), retryInterval)
    }

    /** `inner` is consulted only in the polling slot; `now` is the clock for `mark` and the timer. */
    method Poll(inner: Poll<Option<I>>, now: int) returns (r: LoopPoll<I>)
      modifies this, retryGuard
      ensures (View(), r) == PollRepeated(old(View()), inner, now)
    {
      match slot
      case Polling =>
        if inner.Pending? {
          return LoopPending(None, false);
        }
        if inner.value.None? {
          return LoopReady(true);
        }
        var approved := retryGuard.Mark(now);
        if approved {
          state := inner.value;
          slot := Sleeping(now + retryInterval);
          return LoopPending(None, true);
        } else {
          return LoopReady(false);
        }
      case Sleeping(deadline) =>
        if now < deadline {
          return LoopPending(None, false);
        }
        slot := Empty;
        return LoopPending(None, true);
      case Empty =>
        var taken := state;
        state := None;
        if taken.None? {
          return NoStateAvailable;
        }
        slot := Polling;
        return LoopPending(taken, true);
    }
  }

  // ---------------------------------------------------------------------------------------------
  // Refinement: the poll-by-poll machine against the plain retry loop
  // ---------------------------------------------------------------------------------------------

  /** One poll as the outside world sees it. */
  datatype PollAt<I> = PollAt(inner: Poll<Option<I>>, at: int)

  /** An answer of the inner future, with the time it was taken. */
  datatype Reply<I> = Reply(result: Option<I>, at: int)

  /** What a loop has done: the states it ran with and its verdict if it is over. */
  datatype LoopRun<I> = LoopRun(calls: seq<I>, verdict: Option<bool>)

  /** The plain loop: run; on None return true; otherwise mark, on rejection return false; sleep;
  repeat. It consumes one reply per round. */
  function PlainLoop<I>(state: I, guard: Guard, replies: seq<Reply<I>>): LoopRun<I>
    decreases |replies|
  {
    if replies == [] then LoopRun([state], None)
    else
      match replies[0].result
      case None => LoopRun([state], Some(true))
      case Some(next) =>
        var g := Marked(guard, replies[0].at);
        if !Approves(g) then LoopRun([state], Some(false))
        else
          var rest := PlainLoop(next, g, replies[1..]);
          LoopRun([state] + rest.calls, rest.verdict)
  }

  datatype MachineRun<I> =
    MachineRun(fut: Repeated<I>, calls: seq<I>, times: seq<int>, replies: seq<Reply<I>>, last: LoopPoll<I>)

  /** The machine under a sequence of polls, stopping at the first poll that is not pending; `times` are
  the clock readings of its calls and `replies` the inner results it consumed. */
  function Drive<I>(f: Repeated<I>, ticks: seq<PollAt<I>>): (m: MachineRun<I>)
    ensures |m.calls| == |m.times|
    decreases |ticks|
  {
    if ticks == [] then MachineRun(f, [], [], [], LoopPending(None, false))
    else
      var t := ticks[0];
      var (g, out) := PollRepeated(f, t.inner, t.at);
      var taken := if f.slot.Polling? && t.inner.Ready? then [Reply(t.inner.value, t.at)] else [];
      if !out.LoopPending? then MachineRun(g, [], [], taken, out)
      else
        var rest := Drive(g, ticks[1..]);
        rest.(calls := (if out.call.Some? then [out.call.value] else []) + rest.calls,
              times := (if out.call.Some? then [t.at] else []) + rest.times,
              replies := taken + rest.replies)
  }

  function Verdict<I>(out: LoopPoll<I>): Option<bool> {
    if out.LoopReady? then Some(out.approved) else None
  }

  /** Calls still owed by the machine when the loop has already moved on to the next round. */
  function Owed<I>(m: MachineRun<I>): seq<I> {
    if m.last.LoopPending? && !m.fut.slot.Polling? && m.fut.state.Some? then [m.fut.state.value] else []
  }

  /** From the polling slot, having been called with `state`: the same calls, the same verdict. */
  lemma {:induction false} DrivePolling<I>(f: Repeated<I>, state: I, ticks: seq<PollAt<I>>)
    requires f.slot.Polling? && f.state.None?
    ensures var m := Drive(f, ticks);
      var p := PlainLoop(state, f.guard, m.replies);
      && [state] + m.calls + Owed(m) == p.calls
      && Verdict(m.last) == p.verdict
      && !m.last.NoStateAvailable?
    decreases |ticks|
  {
    if ticks != [] {
      var t := ticks[0];
      match t.inner
      case Pending =>
        DrivePolling(f, state, ticks[1..]);
        var m, m' := Drive(f, ticks), Drive(f, ticks[1..]);
        assert m.replies == m'.replies && m.calls == m'.calls;
      case Ready(None) =>
      case Ready(Some(next)) =>
        var (g, out) := PollRepeated(f, t.inner, t.at);
        if out.LoopPending? {
          DriveResting(g, next, ticks[1..]);
          var m, m' := Drive(f, ticks), Drive(g, ticks[1..]);
          assert m.replies == [Reply(Some(next), t.at)] + m'.replies;
          assert m.replies[1..] == m'.replies;
          assert m.calls == m'.calls;
        }
    }
  }

  /** From the sleeping or the empty slot, holding `state`: the call with `state` comes next. */
  lemma {:induction false} DriveResting<I>(f: Repeated<I>, state: I, ticks: seq<PollAt<I>>)
    requires !f.slot.Polling? && f.state == Some(state)
    ensures var m := Drive(f, ticks);
      var p := PlainLoop(state, f.guard, m.replies);
      && m.calls + Owed(m) == p.calls
      && Verdict(m.last) == p.verdict
      && !m.last.NoStateAvailable?
    decreases |ticks|
  {
    if ticks != [] {
      var t := ticks[0];
      var (g, out) := PollRepeated(f, t.inner, t.at);
      var m, m' := Drive(f, ticks), Drive(g, ticks[1..]);
      assert m.replies == m'.replies;
      assert Owed(m) == Owed(m');
      if f.slot.Empty? {
        DrivePolling(g, state, ticks[1..]);
        assert m.calls == [state] + m'.calls;
      } else {
        DriveResting(g, state, ticks[1..]);
        assert m.calls == m'.calls;
      }
    }
  }

  /** For every sequence of polls, inner results and clock readings: the machine makes the calls of the
  plain loop in the same order (at most the next one is still owed), ends with the same verdict at the
  same reply, and never finds its state missing. */
  lemma {:induction false} RepeatedRefinesPlainLoop<I>(state: I, guard: Guard, interval: nat, ticks: seq<PollAt<I>>)
    ensures var m := Drive(NewRepeated(state, guard, interval), ticks);
      var p := PlainLoop(state, guard, m.replies);
      && m.calls + Owed(m) == p.calls
      && |Owed(m)| <= 1
      && Verdict(m.last) == p.verdict
      && !m.last.NoStateAvailable?
  {
    DriveResting(NewRepeated(state, guard, interval), state, ticks);
  }

  ghost predicate Monotone<I>(ticks: seq<PollAt<I>>) {
    forall i, j :: 0 <= i < j < |ticks| ==> ticks[i].at <= ticks[j].at
  }

  /** The call that follows reply `k` comes at least `interval` after that reply was marked. */
  ghost predicate Delayed(times: seq<int>, marks: seq<int>, interval: nat) {
    |times| <= |marks| && forall k :: 0 <= k < |times| ==> marks[k] + interval <= times[k]
  }

  function MarkTimes<I>(replies: seq<Reply<I>>): (s: seq<int>) {
    if replies == [] then [] else [replies[0].at] + MarkTimes(replies[1..])
  }

  lemma {:induction false} DelayedTail(times: seq<int>, marks: seq<int>, t: int, mark: int, interval: nat)
    requires Delayed(times, marks, interval) && mark + interval <= t
    ensures Delayed([t] + times, [mark] + marks, interval)
  {
  }

  /** Delay of every call made from the polling slot on. */
  lemma {:induction false} PollingDelays<I>(f: Repeated<I>, ticks: seq<PollAt<I>>)
    requires Monotone(ticks) && f.slot.Polling?
    ensures Delayed(Drive(f, ticks).times, MarkTimes(Drive(f, ticks).replies), f.interval)
    decreases |ticks|
  {
    if ticks != [] {
      var t := ticks[0];
      var (g, out) := PollRepeated(f, t.inner, t.at);
      if out.LoopPending? {
        var m, m' := Drive(f, ticks), Drive(g, ticks[1..]);
        assert m.times == m'.times;
        if t.inner.Pending? {
          PollingDelays(g, ticks[1..]);
          assert m.replies == m'.replies;
        } else {
          RestingDelays(g, t.at, ticks[1..]);
          assert m.replies == [Reply(t.inner.value, t.at)] + m'.replies;
          assert m.replies[1..] == m'.replies;
        }
      }
    }
  }

  /** The same from a resting slot, whose next call answers a mark made at `mark`. */
  lemma {:induction false} RestingDelays<I>(f: Repeated<I>, mark: int, ticks: seq<PollAt<I>>)
    requires Monotone(ticks) && !f.slot.Polling?
    requires f.slot.Sleeping? ==> mark + f.interval <= f.slot.deadline
    requires f.slot.Empty? ==> forall i :: 0 <= i < |ticks| ==> mark + f.interval <= ticks[i].at
    ensures Delayed(Drive(f, ticks).times, [mark] + MarkTimes(Drive(f, ticks).replies), f.interval)
    decreases |ticks|
  {
    if ticks != [] {
      var t := ticks[0];
      var (g, out) := PollRepeated(f, t.inner, t.at);
      if out.LoopPending? {
        var m, m' := Drive(f, ticks), Drive(g, ticks[1..]);
        assert m.replies == m'.replies;
        if f.slot.Empty? {
          PollingDelays(g, ticks[1..]);
          DelayedTail(m'.times, MarkTimes(m'.replies), t.at, mark, f.interval);
          assert m.times == [t.at] + m'.times;
        } else {
          RestingDelays(g, mark, ticks[1..]);
          assert m.times == m'.times;
        }
      }
    }
  }

  lemma {:induction false} DelayedShift(times: seq<int>, mark: int, marks: seq<int>, interval: nat)
    requires times != [] && Delayed(times, [mark] + marks, interval)
    ensures Delayed(times[1..], marks, interval)
  {
    forall k | 0 <= k < |times| - 1 ensures marks[k] + interval <= times[1..][k] {
      assert ([mark] + marks)[k + 1] == marks[k];
    }
  }

  /** With a non-decreasing clock the machine also sleeps like the plain loop: call k+1 comes at least
  the retry delay after the k-th reply was marked. */
  lemma {:induction false} RepeatedSleepsBetweenRuns<I>(state: I, guard: Guard, interval: nat, ticks: seq<PollAt<I>>)
    requires Monotone(ticks)
    ensures var m := Drive(NewRepeated(state, guard, interval), ticks);
      m.times != [] ==> Delayed(m.times[1..], MarkTimes(m.replies), interval)
  {
    if ticks != [] {
      var f := NewRepeated(state, guard, interval);
      RestingDelays(f, ticks[0].at - interval, ticks);
      var m := Drive(f, ticks);
      if m.times != [] {
        DelayedShift(m.times, ticks[0].at - interval, MarkTimes(m.replies), interval);
      }
    }
  }

  // ---------------------------------------------------------------------------------------------
  // WaitAbortFut
  // ---------------------------------------------------------------------------------------------

  /** The one stop receiver of a caretaker, and the receiver of one run's unhealthy signal. */
  datatype StopRx = StopRx
  datatype UnhealthyRx = UnhealthyRx

  /** How a child ended, as `wait` reports it; `WaitFailed` is `wait` returning an error. */
  datatype Exit = ExitSuccess | ExitCode(code: int) | ExitSignal(signal: int) | WaitFailed

  datatype RunError = SpawnError | NonZeroExit(code: int) | ExitBySignal(signal: int) | AlreadyDied

  datatype Source = StopSource | UnhealthySource | ChildSource | TimerSource

  datatype WaitAbort = WaitAbort(child: Option<nat>, stopRx: Option<StopRx>, unhealthyRx: Option<UnhealthyRx>)

  datatype WaitAbortResult =
    | UnhealthySignalReceived(rx: StopRx, child: nat)
    | StopSignalReceived(child: nat)
    | ExitedWell(rx: StopRx)
    | ExitedWithError(rx: StopRx, error: RunError)

  datatype WaitPoll =
    | WaitPending(registered: set<Source>)
    | WaitReady(result: WaitAbortResult)
    | FieldMissing

  function NewWaitAbort(child: nat, rx: StopRx): WaitAbort {
    WaitAbort(Some(child), Some(rx), Some(UnhealthyRx))
  }

  function ErrorOf(exit: Exit): RunError
    requires !exit.ExitSuccess?
  {
    match exit
    case ExitCode(code) => NonZeroExit(code)
    case ExitSignal(signal) => ExitBySignal(signal)
    case WaitFailed => AlreadyDied
  }

  /** The race, decided in the order stop, unhealthy, exit. */
  function PollWaitAbort(f: WaitAbort, stop: bool, unhealthy: bool, exit: Option<Exit>): (WaitAbort, WaitPoll) {
    var spent := WaitAbort(None, None, None);
    if f.child.None? || f.stopRx.None? || f.unhealthyRx.None? then (spent, FieldMissing)
    else if stop then (spent, WaitReady(StopSignalReceived(f.child.value)))
    else if unhealthy then (spent, WaitReady(UnhealthySignalReceived(f.stopRx.value, f.child.value)))
    else
      match exit
      case None => (f, WaitPending({StopSource, UnhealthySource, ChildSource}))
      case Some(ExitSuccess) => (spent, WaitReady(ExitedWell(f.stopRx.value)))
      case Some(e) => (spent, WaitReady(ExitedWithError(f.stopRx.value, ErrorOf(e))))
  }

  class WaitAbortFut {
    var child: Option<nat>
    var stopRx: Option<StopRx>
    var unhealthyRx: Option<UnhealthyRx>

    constructor (child: nat, stopRx: StopRx, unhealthyRx: UnhealthyRx)
      ensures View() == NewWaitAbort(child, stopRx)
    {
      this.child, this.stopRx, this.unhealthyRx := Some(child), Some(stopRx), Some(unhealthyRx);
    }

    ghost function View(): WaitAbort
      reads this
    {
      WaitAbort(child, stopRx, unhealthyRx)
    }

    /** `stop` and `unhealthy` say whether the two receivers are ready, `exit` what `wait` would report.
    `child.wait()` is polled, and so registered, only when both receivers are pending. */
    method Poll(stop: bool, unhealthy: bool, exit: Option<Exit>) returns (r: WaitPoll)
      modifies this
      ensures var (after, out) := PollWaitAbort(old(View()), stop, unhealthy, exit);
        r == out && View() == after
    {
      var c, s, u := child, stopRx, unhealthyRx;
      child, stopRx, unhealthyRx := None, None, None;
      if c.None? || s.None? || u.None? {
        return FieldMissing;
      }
      var registered := {};
      if !stop { registered := registered + {StopSource}; }
      if !unhealthy { registered := registered + {UnhealthySource}; }
      if stop {
        return WaitReady(StopSignalReceived(c.value));
      }
      if unhealthy {
        return WaitReady(UnhealthySignalReceived(s.value, c.value));
      }
      match exit
      case Some(e) =>
        if e.ExitSuccess? {
          return WaitReady(ExitedWell(s.value));
        }
        return WaitReady(ExitedWithError(s.value, ErrorOf(e)));
      case None =>
        registered := registered + {ChildSource};
        child, stopRx, unhealthyRx := c, s, u;
        return WaitPending(registered);
    }
  }
}

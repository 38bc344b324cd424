# A verified model of a process supervisor and reverse proxy

BLÅHAJ starts programs, restarts them within limits, stops them when told to or when their health checks
fail, and relays HTTP requests to them. This project models that logic in Dafny 4.11 and proves what it
promises over every input, every run and every interleaving. `dafny verify dfyconfig.toml` checks all of it.

| file | what it models |
|---|---|
| `Retry.dfy` | the sliding-window limiter, a deque updated in place |
| `Futs.dfy` | the two hand-written futures, `RepeatedActFut` and `WaitAbortFut`; the first refines a plain loop |
| `Caretaker.dfy` | the fields and handlers of `CaretakerActor`, and the futures its handlers spawn |
| `Protocol.dfy` | one caretaker as a step system: actor, daemon loop, run in progress, processes, clock |
| `Invariant.dfy` | what every step keeps, and `ReachableInv`: it holds in every state a run reaches |
| `Safety.dfy` | the stop receiver, the expectations, processes, statuses, waiters, wake-ups |
| `Termination.dfy` | what happens after a stop: at most one more child, and a bounded way to the end |
| `Timing.dfy` | attempt rate, retry delay, and when the caretaker gives up |
| `Restarting.dfy` | how the program is kept running: from the end of one child to the next `Run` |
| `FailingSpawns.dfy` | runs in which no child comes up; exactly which configurations can fail |
| `Supervising.dfy` | many caretakers under `Join` and `TerminateAll` |
| `Health.dfy` | the counter of consecutive failed checks and its one signal |
| `Proxy.dfy` | routing by path, and the path rewrite |
| `Forwarded.dfy` | the Forwarded header, printed and read back over any number of hops |

## How the parts fit

The objects whose methods update fields in place are classes here too: `RetryGuard`, `RepeatedActFut`,
`WaitAbortFut`, `CaretakerActor`, `HealthActor`, and `RunTask` and `DaemonTask` for the two futures that
handlers build out of closures. Each method's `ensures` gives its whole new state as a function of the old
one: `Marked`, `PollRepeated`, `PollWaitAbort`, `OnRun`, `OnTerminate`, `PollStage`, `PollDaemon`,
`OnCompleted` and so on. `Protocol.Step` composes exactly these functions, so that what is proved of runs
is proved of what the methods do.

In the step system handlers and polls are atomic, as on one actix arbiter. Everything else is open: when
the clock moves and how far, whether a spawn succeeds, when and how a child exits, when the health signal
fires, which health reports arrive and when, how many `Terminate` and `Wait` messages come and between which
steps, and when a future is polled, woken or not. The expectations on state that the actor and its futures
keep are the faults of datatype `Fault`. A failed one is the outcome `Panic`, not a precondition, and when one
fails is a theorem (`OnlyUnheardBroadcastPanics`): one of them can, and exactly when. Expectations on what
libraries and the operating system answer are listed under "Left out".

Every lemma is marked `{:induction false}`, so that each induction is written out where it is made.

`History` records the clock reading of each `build_child` and each `mark`; it decides nothing.

## Where the code and its intention part

The model follows the code. These are proved, each with the exact condition where there is one.

- `broadcast_stopped` expects a listener. It fails exactly when a daemon ends while no `Wait` is subscribed
  (`OnlyUnheardBroadcastPanics`), which does happen (`UnheardBroadcastHappens`) and cannot once one `Wait`
  has been handled (`ListenedRunsNeverPanic`).
- The stop receiver is not polled while the loop sleeps or while spawns fail. With a retry count of at least
  two, a stopped caretaker whose spawns keep failing can go on for any number of rounds, whatever its delay
  and window (`StopUnnoticedWhileSpawnsFail`); with a smaller count it cannot (`StopUnnoticedIff`).
- `mark` compares after pushing: a count of N approves at most N-1 restarts in a window, and a count of 0 is
  the same as 1 (`FastFailuresGiveUp`).
- A configuration can end in `Failed` if and only if `(count - 1) * delay <= window` (`CanFailIff`).
- `evict` is documented to evict all events before a given time. It drains as many events from the front as
  there are old ones, which is the same if and only if the old events come first (`EvictionIsExactIff`): of
  the deque 5, 1 and the time 2 it drains the 5 (`WrongEventEvicted`). Non-decreasing clock readings give a
  sorted deque, on which it is exact (`SortedIsOldFirst`).
- The documentation of `Run` speaks of `Ok` and `Err` values; the code answers with a `RunResult`.
- `ProxyEntry.prefix_path` is annotated as trimmed, but `From<&HttpRelay>` clones the path as configured. Without
  `strip_path` a path passes unchanged exactly when the relay was written without a leading slash and with
  as many trailing slashes as the request has there (`PassesUnchangedIff`); a relay written as `/some_path`
  never passes one unchanged (`LeadingSlashNeverPasses`). Its request for `/some_path/x` is sent on as
  `//some_pathx`, with the first slash doubled and the next one missing (`GluedPathIsSent`, `SomePathIsGlued`).
- A relay at `/` serves the bare root only (`RootKeyServesRootOnly`), and a request path with more than one
  leading slash is routed but not forwarded (`UpstreamIff`).
- Two relays whose paths differ only in outer slashes make routing depend on the order in which the
  relays are supplied; otherwise the order is irrelevant (`OrderIrrelevantIff`).
- The reader of the Forwarded header keeps the space that the printer puts after a comma
  (`HopReadsBack`, `HopChainSurvives`), and stops at the first `;` behind the first `for=`. Of an RFC 7239
  list (section 4) it reads the elements up to the first that has parameters, so all of them if and only if
  none but the last has any (`ListReadsUpToParams`, `AllElementsReadIff`); of `for=a;proto=http, for=b` it
  reads `a` only (`LaterElementsAreLost`).
- The health actor's failure count must fit 32 bits: with a zero interval and a positive grace period the
  conversion fails before the signal is sent (`FiresExactlyAtLimit`).

## Model

| member | source | states |
|---|---|---|
| Retry.RetryGuard.constructor | src/supervisor/retry.rs:12-22 | the guard starts with the given deque, window and count |
| Retry.RetryGuard.Evict | src/supervisor/retry.rs:27-30 | the deque loses from its front as many events as there are old ones, and nothing else changes |
| Retry.RetryGuard.Mark | src/supervisor/retry.rs:34-39 | push, then evict by the window; approved exactly when fewer than count events remain |
| Retry.EvictionIsExactIff | src/supervisor/retry.rs:26-30 | the drain leaves exactly the subsequence of events at or after the limit, read off one by one, if and only if no old event stands behind a recent one |
| Retry.WrongEventEvicted | src/supervisor/retry.rs:26-30 | a deque out of order of which it drains the wrong event |
| Retry.SortedIsOldFirst | src/supervisor/retry.rs:34-37 | a sorted deque has its old events first |
| Retry.MarkKeepsWindow | src/supervisor/retry.rs:34-39 | a guard that forgot everything outside the window marks as one that kept the whole history would |
| Retry.VerdictCountsWindow | src/supervisor/retry.rs:38 | the length test holds exactly when the count-th most recent event lies outside the window |
| Retry.GuardCountsWholeHistory | src/supervisor/retry.rs:25-40 | after any non-decreasing sequence of marks the deque is the subsequence within the window, is sorted, and the verdict is the one that counting the whole history gives |
| Retry.DequeStaysShort | src/supervisor/retry.rs:34-39 | while earlier marks were approved the deque holds at most max(1, count) events |
| Futs.RepeatedActFut.constructor | src/supervisor/futs.rs:38-51 | an empty slot holding the initial state |
| Futs.RepeatedActFut.Poll | src/supervisor/futs.rs:63-123 | one poll of the three-slot machine: its new slot, state and guard, its call and whether it woke itself, or a missing state |
| Futs.DrivePolling | src/supervisor/futs.rs:71-98 | from the polling slot, any further polls make the calls and reach the verdict of the plain loop |
| Futs.DriveResting | src/supervisor/futs.rs:99-121 | the same from the sleeping and the empty slot, where the next call is still owed |
| Futs.RepeatedRefinesPlainLoop | src/supervisor/futs.rs:26-123 | for every sequence of polls, inner results and clock readings the machine makes the calls of "run; stop on None; mark; give up on rejection; sleep; repeat" in order, with the same verdict at the same reply, and always finds its state |
| Futs.RepeatedSleepsBetweenRuns | src/supervisor/futs.rs:81-87 | with a non-decreasing clock, call k+1 comes at least the retry interval after reply k was marked |
| Futs.WaitAbortFut.constructor | src/supervisor/futs.rs:133-139 | all three handles are present |
| Futs.WaitAbortFut.Poll | src/supervisor/futs.rs:157-201 | stop wins over unhealthy, unhealthy over exit; Pending restores all three handles and registers with all three sources; which result each exit gives |
| Caretaker.CaretakerActor.constructor | src/supervisor/caretaker.rs:96-111 | a starting caretaker with no channel open |
| Caretaker.CaretakerActor.Started | src/supervisor/caretaker.rs:444-450 | both channels are opened, the status stays |
| Caretaker.CaretakerActor.HandleSetHealthState | src/supervisor/caretaker.rs:421-425 | a report replaces a starting or running status and no other |
| Caretaker.CaretakerActor.HandleWait | src/supervisor/caretaker.rs:311-322 | subscribes while the broadcast is open, answers at once when it is gone |
| Caretaker.CaretakerActor.HandleTerminate | src/supervisor/caretaker.rs:333-339 | takes the sender; sends on the first call only, and fails if nobody holds the receiver |
| Caretaker.CaretakerActor.HandleRun | src/supervisor/caretaker.rs:185-246 | the status after a spawn with or without health check and after a failed one; the future that results, holding the receiver |
| Caretaker.CaretakerActor.BroadcastStopped | src/supervisor/caretaker.rs:112-119 | closes both channels and releases the subscribers, or fails when there is no channel or nobody listens |
| Caretaker.CaretakerActor.HandleDaemon | src/supervisor/caretaker.rs:350-396 | a fresh loop holding the receiver, with an empty guard and the program's limits |
| Caretaker.RunTask.Poll | src/supervisor/caretaker.rs:246-301 | one poll of race, `ensure_stop` and the status updates around them: result, receiver handed back, status |
| Caretaker.RunTask.EnsureStop | src/supervisor/caretaker.rs:163-171 | done when the child is gone, pending until the deadline, then the kill |
| Caretaker.DaemonTask.Poll | src/supervisor/caretaker.rs:353-410 | one poll of the loop on the translated answer, and at its end the status `Failed` on rejection and the broadcast |
| Invariant.PollRunOutcome | src/supervisor/caretaker.rs:163-301 | polling a run never fails; which stage it enters, which status it sets, which receiver it hands back and what it registers with |
| Invariant.PollDaemonOutcome | src/supervisor/caretaker.rs:353-410 | polling the daemon fails exactly when it ends unheard; otherwise its new state, case by case |
| Invariant.TerminateOutcome | src/supervisor/caretaker.rs:333-339 | sending the stop never fails, only the first `Terminate` sends it, later ones change nothing |
| Invariant.MarkStep | src/supervisor/futs.rs:77-91 | in a run the guard's verdict is the one that the whole record of marks gives |
| Invariant.StepKeepsInv | src/supervisor/caretaker.rs:182-451 | the whole-system invariant (receiver, channels, statuses, processes, record of attempts and marks, wakers) is kept by every event |
| Invariant.ReachableInv | src/supervisor/caretaker.rs:182-451 | it holds in every state that any run reaches |
| Safety.StopReceiverHasOneOwner | src/supervisor/caretaker.rs:195-396 | the receiver is in one place at most, and in none only after a sent stop was received or the daemon ended; while the sender is kept the receiver is alive |
| Safety.OnlyUnheardBroadcastPanics | src/supervisor/caretaker.rs:112-119 | of the faults modelled (stop not sent, state missing, field missing, broadcast closed, broadcast unheard, a second run) only the unheard broadcast can occur, exactly when the daemon ends with no subscriber |
| Safety.UnheardBroadcastHappens | src/supervisor/caretaker.rs:112-119 | it does: count at most one, a failing spawn, no `Wait` yet |
| Safety.ListenedRunsNeverPanic | src/supervisor/caretaker.rs:311-322 | once a `Wait` was handled none of these faults occurs in any further run |
| Safety.AtMostOneChild | src/supervisor/caretaker.rs:195-301 | at most one child is alive; none when the next is about to be built, none after the end |
| Safety.GraceIsRespected | src/supervisor/caretaker.rs:163-171 | over any run from the poll that signals a child: when that child is being killed, at least the grace period has gone by since |
| Safety.ExitIsReported | src/supervisor/futs.rs:171-191 | an exit that no signal overtook is reported with its own code or signal, and the receiver is handed back |
| Safety.ExitIsAnswered | src/supervisor/futs.rs:171-191 | a live racing child may exit in any way at any time; this wakes its run, and the next poll answers with what the exit was |
| Safety.AnswerTellsCause | src/supervisor/caretaker.rs:246-301 | once the child is gone, the answer tells a failed spawn, a stop and a failed health check apart, whatever else has happened |
| Safety.HealthyChildIsLeftAlone | src/supervisor/caretaker.rs:212-243 | a new child goes on running over any run without a stop, a health signal for it and an exit of it, whatever was sent for its predecessors |
| Safety.UnhealthyChildIsStopped | src/supervisor/futs.rs:164-166 | the health signal may come to any checked child that races; the next poll is woken, stops it with the grace period ahead and keeps the receiver |
| Safety.ReportShows | src/supervisor/caretaker.rs:421-425 | a health report may come at any time, shows while starting or running and at no other time, and changes nothing else |
| Safety.StartsAsStarting | src/supervisor/caretaker.rs:96-111 | over any run before the first `Run` and the first report the status is Starting |
| Safety.StatusFollowsRelation | src/supervisor/caretaker.rs:195-299 | for any interleaving, which event may change the status from what to what: Terminating leads to Terminated only, Failed comes from Terminated only, health reports revive nothing |
| Safety.EndIsForever | src/supervisor/caretaker.rs:397-410 | after the daemon's end verdict, status and record stand still and no child or run exists, over any further run |
| Safety.StoppedNotGivenUp | src/supervisor/caretaker.rs:397-410 | the last status is Terminated after a stop and Failed after giving up |
| Safety.WaitersReleasedExactlyAtEnd | src/supervisor/caretaker.rs:311-340 | a handled `Wait` is answered exactly when the daemon has ended; at most one stop is ever sent |
| Safety.WaitersAreKept | src/supervisor/caretaker.rs:311-322 | no handled `Wait` is forgotten over any run |
| Safety.NoLostWakeup | src/supervisor/futs.rs:69-201 | polling a future that nothing woke changes nothing in the whole system |
| Safety.PollingOnWakeSuffices | src/supervisor/futs.rs:63-201 | every run, with its unwoken polls left out, is a run with the same end |
| Safety.RestMeansWaitingForTheWorld | src/supervisor/futs.rs:63-201 | a caretaker with nothing woken and nothing queued waits for a live child, a deadline ahead or the retry delay; a stop or unhealthy signal is never left unnoticed in a race |
| Termination.SettledForGood | src/supervisor/caretaker.rs:163-299 | once the stop waits at a racing child or was received: no attempt, no child, no mark any more, and the daemon ends as stopped |
| Termination.OneMoreChildAtMost | src/supervisor/caretaker.rs:333-385 | after a stop, from any phase and over any run, at most one more child comes up, and it is the last |
| Termination.StoppedOnFirstPoll | src/supervisor/futs.rs:162-163 | a child racing after the stop has a poll coming, and that poll stops it, exited or not, unhealthy or not |
| Termination.RankStep | src/supervisor/futs.rs:63-123 | after a stop, without failing spawns, a rank of at most 62 never rises and falls with every productive event |
| Termination.StoppedWorkIsBounded | src/supervisor/caretaker.rs:163-299 | so any run after a stop, without failing spawns, has at most 62 productive events |
| Termination.NeverStuck | src/supervisor/futs.rs:63-201 | and before the end a productive event is always possible |
| Termination.StopEndsTheDaemon | src/supervisor/caretaker.rs:163-410 | so if spawns succeed and killed children die, the daemon ends within 62 steps and all waiters are released |
| Timing.AttemptRateIsBounded | src/supervisor/futs.rs:73-120 | over every run, at most max(1, count) attempts in any closed interval of one window's length |
| Timing.RetriesWaitTheirDelay | src/supervisor/futs.rs:85-105 | attempts i and j are at least (j - i) delays apart |
| Timing.GaveUpIff | src/supervisor/caretaker.rs:397-405 | the daemon gave up, and the status is Failed, exactly when the last count marks fit in the window |
| Timing.SlowRetriesNeverFail | src/supervisor/retry.rs:34-39 | if (count - 1) delays are longer than the window no run gives up |
| Timing.FastFailuresGiveUp | src/supervisor/retry.rs:34-39 | if the gaps between exits are at most `gap` and (count - 1) gaps fit in the window, it has given up exactly at exit number max(1, count) |
| Restarting.GapStep | src/supervisor/futs.rs:63-123 | without a live child, no event before the next `Run` takes the caretaker back and every productive one takes it on |
| Restarting.GapWorkIsBounded | src/supervisor/caretaker.rs:342-396 | over any run from there, at most 23 productive events come before the next `Run` is handled |
| Restarting.GapNeverStuck | src/supervisor/futs.rs:63-201 | and until that `Run` is sent or the daemon ends one is always possible |
| Restarting.NextRunComes | src/supervisor/caretaker.rs:342-410 | so a caretaker that is waited for comes to its next `Run` within 23 steps, unless it was stopped or its retries have run out |
| FailingSpawns.StopUnnoticedWhileSpawnsFail | src/supervisor/caretaker.rs:245-246 | from any stopped and waited-for state with a `Run` queued, with a count of at least two, any number of failing rounds is possible without the stop being noticed |
| FailingSpawns.StoppedFirstRun | src/supervisor/caretaker.rs:333-339 | every configuration reaches such a state |
| FailingSpawns.StopUnnoticedIff | src/supervisor/caretaker.rs:245-246 | a configuration has a state from which a stop stays unnoticed for any number of rounds if and only if its count is at least two |
| FailingSpawns.CanFailIff | src/supervisor/futs.rs:77-91 | some run ends in Failed if and only if (count - 1) * delay <= window |
| Supervising.MembersBehave | src/supervisor/mod.rs:33-51 | under any messages and any interleaving each member is in a state that it could reach alone |
| Supervising.StartIsReachable | src/supervisor/mod.rs:72-88 | a started supervisor has exactly one caretaker for every program, in order, fresh and with an empty inbox |
| Supervising.MessagesAreConserved | src/supervisor/mod.rs:33-51 | over every run: what a member has handled and what waits in its inbox are, in order, what it had waiting, one `Wait` for every `Join` and one `Terminate` for every `TerminateAll` |
| Supervising.JoinStopsNothing | src/supervisor/mod.rs:33-37 | over every run without a `TerminateAll` no stop is sent and none is on its way, however often `Join` is called |
| Supervising.NothingStoppedFromStart | src/supervisor/mod.rs:33-37 | in particular from the start |
| Supervising.JoinResolvesExactlyAtEnd | src/supervisor/mod.rs:30-38 | `Join` resolves only when all daemons have ended, and exactly then once all members handled its `Wait`; each member is stopped at most once, with at most one child |
| Supervising.TerminateStops | src/supervisor/mod.rs:44-51 | handling a `Terminate` never fails and leaves its member stopped or ended |
| Supervising.LateWorkIsBounded | src/supervisor/mod.rs:33-51 | over every run, whatever is sent and however members interleave: a member that is stopped or ended has at most 62 productive events left, and 62 more for every spawn that fails after that |
| Supervising.TerminationEndsEverything | src/supervisor/mod.rs:44-51 | when all members are stopped and waited for, there is a run of at most 62 steps each after which all daemons have ended, if spawns succeed and killed children die; `LateWorkIsBounded` bounds all other runs |
| Supervising.InboxHandled | src/supervisor/caretaker.rs:311-340 | any sequence of `Wait` and `Terminate` messages can be handled in any reachable state, no expectation fails, and each has its effect |
| Supervising.TerminatedJoinResolves | src/supervisor/mod.rs:30-52 | from every state of every run, whatever the members are doing, `Join` and `TerminateAll` leave a way to the end: all daemons ended and that `Join` resolved |
| Health.HealthActor.constructor | src/supervisor/health.rs:34-51 | a count of zero and the signal unsent |
| Health.HealthActor.CheckCompleted | src/supervisor/health.rs:73-100 | one completed check: counter, report, signal, and which expectation fails when |
| Health.LimitIsExact | src/supervisor/health.rs:85-87 | a count reaches the grace period exactly from max(1, ceil(grace / interval)) on |
| Health.FiresExactlyAtLimit | src/supervisor/health.rs:73-100 | the signal is sent exactly when the completions first end in that many consecutive failures, and just once however many follow, because the actor stops itself; a limit beyond 32 bits fails its conversion instead |
| Health.OverflowIff | src/supervisor/health.rs:85-87 | the conversion fails exactly when 2^32 failures come in a row and 2^32 - 1 intervals are shorter than the grace period |
| Health.UnheardSignalFails | src/supervisor/health.rs:89-93 | the failure that would fire fails its last expectation instead if the race no longer listens, and no other completion does |
| Health.TestsAreBounded | src/supervisor/health.rs:85-87 | every product tested is below grace + interval |
| Proxy.AncestorsAreAlignedPrefixes | src/proxy/mod.rs:63-67 | `ancestors` yields exactly the prefixes that end at a segment boundary, from longest to shortest |
| Proxy.SelectsLongestKey | src/proxy/mod.rs:71-73 | the key selected is the longest aligned key of the map, and none exactly when none is aligned |
| Proxy.RootKeyServesRootOnly | src/proxy/mod.rs:71-73 | the empty key is selected exactly for the bare root, if the map has it |
| Proxy.UpstreamIff | src/proxy/mod.rs:70-88 | there is an upstream exactly when a key is selected and the request has one leading slash, or is nothing but slashes |
| Proxy.RewriteSplitsRequest | src/proxy/mod.rs:81-88 | the request splits in one way only into slash, key, slashes and rest, at a segment boundary; the upstream path is slash, prefix and rest |
| Proxy.TrimEndSplits | src/proxy/mod.rs:50 | trimming takes off trailing slashes and nothing else |
| Proxy.KeyIsInside | src/proxy/mod.rs:50 | a relay's key is its path between its outer slashes |
| Proxy.RelayRewrites | src/proxy/mod.rs:21-33 | the upstream has the relay's port and scheme; its path is slash and rest with `strip_path`, and slash, configured path and rest without |
| Proxy.StripModeRecovers | src/proxy/mod.rs:26-27 | a relay with `strip_path` sends slash and rest, and putting its key back recovers the request but for the slashes behind the key |
| Proxy.PassesUnchangedIff | src/proxy/mod.rs:26-30 | without it, the path is unchanged if and only if the relay's path is its key and the slashes that the request has there |
| Proxy.LeadingSlashNeverPasses | src/proxy/mod.rs:26-30 | so a relay path with a leading slash never passes a path unchanged |
| Proxy.GluedPathIsSent | src/proxy/mod.rs:81-88 | what is sent for such a relay: the first slash doubled, the slash between prefix and rest gone |
| Proxy.SomePathIsGlued | src/proxy/mod.rs:81-88 | the relay `/some_path` makes `//some_pathx` of `/some_path/x` |
| Proxy.CollectHoldsEntries | src/proxy/mod.rs:44-57 | every entry of the map is that of a relay with its trimmed path |
| Proxy.CollectHasKeys | src/proxy/mod.rs:44-57 | and every relay's trimmed path is a key |
| Proxy.RoutesToRelay | src/proxy/mod.rs:44-104 | from configured relays to upstream: of agreeing relays the one with the longest trimmed path that the request is aligned with gets it, at its port and scheme, with the path of its own mode |
| Proxy.OrderIrrelevantIff | src/proxy/mod.rs:44-57 | the order of the relays is irrelevant to the map if and only if relays with the same trimmed path have the same entry |
| Forwarded.FromInfo | src/proxy/forwarded_header.rs:27-60 | the header of a hop: its own interface, host and protocol, the entries received and then the peer |
| Forwarded.WithoutLabel | src/proxy/forwarded_header.rs:48-50 | of an entry every label is taken off, the first and those behind it |
| Forwarded.ChainNamesLastHop | src/proxy/forwarded_header.rs:63-79 | what a chain sends on names the last hop's interface, host and protocol around the list of entries |
| Forwarded.FirstHopSends | src/proxy/forwarded_header.rs:27-79 | the whole header that a first hop sends |
| Forwarded.HopReadsBack | src/proxy/forwarded_header.rs:27-79 | what one hop prints the next one reads: every entry in order, all but the first one space longer |
| Forwarded.HopChainSurvives | src/proxy/forwarded_header.rs:27-79 | after n hops there are exactly n entries in order; entry 0 as it was, entry i >= 1 behind n-1-i spaces |
| Forwarded.NothingReadBehind | src/proxy/forwarded_header.rs:38-47 | whatever follows the first `;` behind the first entry is not read |
| Forwarded.ListReadsUpToParams | src/proxy/forwarded_header.rs:38-54 | of a list of elements with parameters, the nodes read are those up to the first element that has any |
| Forwarded.AllElementsReadIff | src/proxy/forwarded_header.rs:38-54 | all elements are read if and only if none but the last has parameters |
| Forwarded.LaterElementsAreLost | src/proxy/forwarded_header.rs:38-54 | of `for=a;proto=http, for=b` only `a` is read |

## Left out

- Starting a process and its signals (`build_child`, `terminate`, `kill`): outcomes that events choose. A failing `kill` call is not modelled; `drop(child.kill().await)` is over when the child is gone. A child's exit is an event of its own, and `wait` may report an error, which the code takes for a child that is gone.
- Time inside a handler or a poll: they take none, and a poll reads the clock once. An attempt's time is the reading of the handler that builds the child.
- Expectations on what the model does not contain: `uri_for_check` fails the `Run` handler for a health check path that no URI can have; `child stdout` and `child stderr` rest on the pipes asked for, `exit signal` on an exit without a code having a signal, `self is alive` on the actor that awaits its own answer.
- Instants below the clock's origin: subtracting the window from the current instant can fail on a machine that has just started; instants here are integers without a least one. The granularity of timers is not modelled.
- Mailboxes of actix: capacity, order between senders, and the death of actors (`self is alive`, a `MailboxError` in `Join`). Messages here arrive between any two steps, in any order. One `Run` fits the model's one run slot; that a second is never sent while one is unanswered is part of `OnlyUnheardBroadcastPanics`.
- The `Wait` that `Terminate` sends to its own actor: an ordinary `Wait` event, whenever it arrives.
- Safety.WaitersReleasedExactlyAtEnd: a waiter is released when the broadcast is sent; that its future then resumes is left to the broadcast channel. Subscribers do not go away.
- Health.HealthActor: the ticking interval and the HTTP exchange are not modelled, only completed checks, in the order of their completion. In module Protocol the unhealthy signal and the reports are free to come at any time in a race, which covers whatever this actor does. Its answer when a check completes after its race is over is the outcome `NobodyRaces`; the actor is stopped in the poll that ends the race, so this is not part of the step system.
- Supervising.MembersBehave: every member has its own clock; members share no state, so none of the results relates two clocks.
- Pinning and `unsafe` in the futures, and what channels, wakers and `ManuallyDrop` do inside.
- `GetStatus`, `GetStatusAll`, the endpoints, the signal handler of the main program, logging, and the parsing of the configuration.
- Proxy.RewriteSplitsRequest: the checks that URI construction makes, the query, which is carried over unread, and the authority are not modelled; a path that the library refuses gives no upstream. `uri_for_check` is left out.
- Forwarding of requests and the `Via`, `X-Forwarded-For`, `X-Forwarded-Proto` and `X-Forwarded-Host` headers.
- Forwarded.ListReadsUpToParams: elements start with `for=`; RFC 7239 also lets other parameters come first, which are skipped in front of the first `for=` only.
- Strings are sequences of characters; trimming, splitting and searching meet only ASCII separators, so their byte offsets are not modelled.

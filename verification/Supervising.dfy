/** The supervisor (src/supervisor/mod.rs): a fixed list of caretakers that get the same messages. Every
caretaker runs on its own clock; messages wait in its inbox until it handles them. */
module Supervising {
  import opened Basics
  import opened Protocol
  import opened Invariant
  import opened Safety
  import opened Termination

  datatype Message = WaitMessage(waiter: nat) | TerminateMessage

  datatype Member = Member(config: Config, inbox: seq<Message>, caretaker: Sys)

  type Supervisor = seq<Member>

  datatype SupervisorEvent =
    | Join(waiter: nat)
    | TerminateAll
    | Deliver(member: nat)
    | Local(member: nat, event: Event)

  function Start(programs: seq<(Config, int)>): Supervisor {
    seq(|programs|, i requires 0 <= i < |programs| => Member(programs[i].0, [], Init(programs[i].1)))
  }

  function Send(sup: Supervisor, m: Message): Supervisor {
    seq(|sup|, i requires 0 <= i < |sup| => sup[i].(inbox := sup[i].inbox + [m]))
  }

  function Handling(m: Message): Event {
    match m
    case WaitMessage(w) => Wait(w)
    case TerminateMessage => Terminate
  }

  predicate Can(sup: Supervisor, e: SupervisorEvent) {
    match e
    case Join(_) => true
    case TerminateAll => true
    case Deliver(i) =>
      && i < |sup| && sup[i].inbox != []
      && Step(sup[i].config, sup[i].caretaker, Handling(sup[i].inbox[0])).Next?
    case Local(i, le) =>
      && i < |sup| && Enabled(sup[i].config, sup[i].caretaker, le)
      && Step(sup[i].config, sup[i].caretaker, le).Next?
  }

  function Do(sup: Supervisor, e: SupervisorEvent): (after: Supervisor)
    requires Can(sup, e)
    ensures |after| == |sup|
  {
    match e
    case Join(w) => Send(sup, WaitMessage(w))
    case TerminateAll => Send(sup, TerminateMessage)
    case Deliver(i) =>
      var m := sup[i];
      sup[i := m.(inbox := m.inbox[1..], caretaker := Step(m.config, m.caretaker, Handling(m.inbox[0])).s)]
    case Local(i, le) =>
      var m := sup[i];
      sup[i := m.(caretaker := Step(m.config, m.caretaker, le).s)]
  }

  predicate Possible(sup: Supervisor, es: seq<SupervisorEvent>)
    decreases |es|
  {
    es == [] || (Can(sup, es[0]) && Possible(Do(sup, es[0]), es[1..]))
  }

  function After(sup: Supervisor, es: seq<SupervisorEvent>): (after: Supervisor)
    requires Possible(sup, es)
    ensures |after| == |sup|
    decreases |es|
  {
    if es == [] then sup else After(Do(sup, es[0]), es[1..])
  }

  /** The event of a member that a supervisor's event is, if it is one. */
  function EventOf(sup: Supervisor, e: SupervisorEvent): Option<(nat, Event)>
    requires Can(sup, e)
  {
    match e
    case Deliver(i) => Some((i, Handling(sup[i].inbox[0])))
    case Local(i, le) => Some((i, le))
    case _ => None
  }

  /** Every member's caretaker is in a state that some run of it alone reaches. */
  ghost predicate AllReachable(sup: Supervisor) {
    forall i :: 0 <= i < |sup| ==> Reachable(sup[i].config, sup[i].caretaker)
  }

  lemma {:induction false} ReachableStep(c: Config, s: Sys, e: Event)
    requires Reachable(c, s) && Enabled(c, s, e) && Step(c, s, e).Next?
    ensures Reachable(c, Step(c, s, e).s)
  {
    ConsRun(c, s, e, []);
    ReachableOn(c, s, [e]);
    assert [e] + [] == [e];
  }

  lemma {:induction false} DoKeepsReachable(sup: Supervisor, e: SupervisorEvent)
    requires AllReachable(sup) && Can(sup, e)
    ensures AllReachable(Do(sup, e))
  {
    match e
    case Deliver(i) => ReachableStep(sup[i].config, sup[i].caretaker, Handling(sup[i].inbox[0]));
    case Local(i, le) => ReachableStep(sup[i].config, sup[i].caretaker, le);
    case _ =>
  }

  /** Whatever the supervisor sends and however its members interleave, each of them behaves like a
  caretaker alone; so all that is proved of one caretaker holds of each. */
  lemma {:induction false} MembersBehave(sup: Supervisor, es: seq<SupervisorEvent>)
    requires AllReachable(sup) && Possible(sup, es)
    ensures AllReachable(After(sup, es))
    decreases |es|
  {
    if es != [] {
      DoKeepsReachable(sup, es[0]);
      MembersBehave(Do(sup, es[0]), es[1..]);
    }
  }

  /** A started supervisor has one caretaker for every program, fresh and with an empty inbox. */
  lemma {:induction false} StartIsReachable(programs: seq<(Config, int)>)
    ensures |Start(programs)| == |programs|
    ensures forall i :: 0 <= i < |programs| ==> Start(programs)[i] == Member(programs[i].0, [], Init(programs[i].1))
    ensures AllReachable(Start(programs))
  {
    forall i | 0 <= i < |programs| ensures Reachable(Start(programs)[i].config, Start(programs)[i].caretaker) {
      var c, s := programs[i].0, Init(programs[i].1);
      assert Legal(c, s, []) && Final(c, s, []) == s;
    }
  }

  /** `Join` has an answer from every member. */
  predicate JoinResolved(sup: Supervisor, w: nat) {
    forall i :: 0 <= i < |sup| ==> w in sup[i].caretaker.released
  }

  predicate AllEnded(sup: Supervisor) {
    forall i :: 0 <= i < |sup| ==> sup[i].caretaker.daemon.Ended?
  }

  /** In every state of every run of a started supervisor: `Join` resolves only when all daemons have
  ended, and, once every member has handled its `Wait`, exactly then. However many terminations were
  sent, each member was signalled at most once and has at most one child. */
  lemma {:induction false} JoinResolvesExactlyAtEnd(programs: seq<(Config, int)>, es: seq<SupervisorEvent>, w: nat)
    requires Possible(Start(programs), es)
    ensures var sup := After(Start(programs), es);
      && (JoinResolved(sup, w) ==> AllEnded(sup))
      && ((forall i :: 0 <= i < |sup| ==> Waited(sup[i].caretaker, w)) ==> (JoinResolved(sup, w) <==> AllEnded(sup)))
      && (forall i :: 0 <= i < |sup| ==> sup[i].caretaker.hist.stops <= 1 && |sup[i].caretaker.alive| <= 1)
  {
    var sup := After(Start(programs), es);
    StartIsReachable(programs);
    MembersBehave(Start(programs), es);
    forall i | 0 <= i < |sup|
      ensures sup[i].caretaker.hist.stops <= 1 && |sup[i].caretaker.alive| <= 1
      ensures Waited(sup[i].caretaker, w) ==> (w in sup[i].caretaker.released <==> sup[i].caretaker.daemon.Ended?)
    {
      AtMostOneChild(sup[i].config, sup[i].caretaker);
      ReachableInv(sup[i].config, sup[i].caretaker);
      if Waited(sup[i].caretaker, w) {
        WaitersReleasedExactlyAtEnd(sup[i].config, sup[i].caretaker, w);
      }
    }
    if JoinResolved(sup, w) {
      forall i | 0 <= i < |sup| ensures sup[i].caretaker.daemon.Ended? {
        assert w in sup[i].caretaker.released && Waited(sup[i].caretaker, w);
      }
    }
  }

  // ---------------------------------------------------------------------------------------------
  // What is sent
  // ---------------------------------------------------------------------------------------------

  /** The messages that every member is sent over a run: one for every `Join`, one for every
  `TerminateAll`, in their order. */
  function Sent(es: seq<SupervisorEvent>): seq<Message> {
    if es == [] then []
    else
      (match es[0]
       case Join(w) => [WaitMessage(w)]
       case TerminateAll => [TerminateMessage]
       case _ => []) + Sent(es[1..])
  }

  /** The messages that member `i` handles over a run. */
  function Handled(sup: Supervisor, es: seq<SupervisorEvent>, i: nat): seq<Message>
    requires Possible(sup, es)
    decreases |es|
  {
    if es == [] then []
    else (if es[0] == Deliver(i) then [sup[i].inbox[0]] else []) + Handled(Do(sup, es[0]), es[1..], i)
  }

  lemma {:induction false} SentStep(sup: Supervisor, e: SupervisorEvent, i: nat)
    requires Can(sup, e) && i < |sup|
    ensures (if e == Deliver(i) then [sup[i].inbox[0]] else []) + Do(sup, e)[i].inbox == sup[i].inbox + Sent([e])
  {
    assert [e][1..] == [];
    match e
    case Deliver(j) => assert [sup[j].inbox[0]] + sup[j].inbox[1..] == sup[j].inbox;
    case _ =>
  }

  /** No message is lost, made up, repeated or overtaken: what a member has handled and what waits in its
  inbox are, in this order, exactly what it had waiting and what was sent. */
  lemma {:induction false} MessagesAreConserved(sup: Supervisor, es: seq<SupervisorEvent>, i: nat)
    requires Possible(sup, es) && i < |sup|
    ensures Handled(sup, es, i) + After(sup, es)[i].inbox == sup[i].inbox + Sent(es)
    decreases |es|
  {
    if es != [] {
      var next := Do(sup, es[0]);
      MessagesAreConserved(next, es[1..], i);
      SentStep(sup, es[0], i);
      SentSplits(es);
      ConservedOn(sup[i].inbox, if es[0] == Deliver(i) then [sup[i].inbox[0]] else [], next[i].inbox,
                  Handled(next, es[1..], i), After(next, es[1..])[i].inbox, Sent([es[0]]), Sent(es[1..]));
    }
  }

  lemma {:induction false} SentSplits(es: seq<SupervisorEvent>)
    requires es != []
    ensures Sent(es) == Sent([es[0]]) + Sent(es[1..])
  {
    assert [es[0]][1..] == [];
  }

  lemma {:induction false} ConservedOn<T>(before: seq<T>, took: seq<T>, mid: seq<T>, later: seq<T>, left: seq<T>,
                                          first: seq<T>, rest: seq<T>)
    requires took + mid == before + first && later + left == mid + rest
    ensures (took + later) + left == before + (first + rest)
  {
    assert (took + later) + left == took + (later + left);
    assert took + (mid + rest) == (took + mid) + rest;
    assert (before + first) + rest == before + (first + rest);
  }

  /** No stop is sent and none is on its way. */
  ghost predicate Unstopped(m: Member) {
    m.caretaker.hist.stops == 0 && TerminateMessage !in m.inbox
  }

  ghost predicate NoneStopped(sup: Supervisor) {
    forall i :: 0 <= i < |sup| ==> Unstopped(sup[i])
  }

  predicate Stops(e: SupervisorEvent) {
    e.TerminateAll? || (e.Local? && e.event.Terminate?)
  }

  lemma {:induction false} OnlyTerminateStops(c: Config, s: Sys, e: Event)
    requires Inv(c, s) && Enabled(c, s, e) && Step(c, s, e).Next? && !e.Terminate?
    ensures Step(c, s, e).s.hist.stops == s.hist.stops
  {
    match e
    case PollDaemonTask => PollDaemonOutcome(s);
    case PollRun => PollRunOutcome(c, s);
    case _ =>
  }

  lemma {:induction false} UnstoppedStep(sup: Supervisor, e: SupervisorEvent)
    requires AllReachable(sup) && NoneStopped(sup) && Can(sup, e) && !Stops(e)
    ensures NoneStopped(Do(sup, e))
  {
    var of := EventOf(sup, e);
    if of.Some? {
      var (i, le) := of.value;
      assert Unstopped(sup[i]);
      ReachableInv(sup[i].config, sup[i].caretaker);
      OnlyTerminateStops(sup[i].config, sup[i].caretaker, le);
    }
  }

  /** Without a `TerminateAll` no program is stopped: `Join`, however often it is sent, only waits. */
  lemma {:induction false} JoinStopsNothing(sup: Supervisor, es: seq<SupervisorEvent>)
    requires AllReachable(sup) && NoneStopped(sup) && Possible(sup, es)
    requires forall e :: e in es ==> !Stops(e)
    ensures NoneStopped(After(sup, es))
    decreases |es|
  {
    if es != [] {
      UnstoppedStep(sup, es[0]);
      DoKeepsReachable(sup, es[0]);
      JoinStopsNothing(Do(sup, es[0]), es[1..]);
    }
  }

  lemma {:induction false} NothingStoppedFromStart(programs: seq<(Config, int)>, es: seq<SupervisorEvent>)
    requires Possible(Start(programs), es) && forall e :: e in es ==> !Stops(e)
    ensures NoneStopped(After(Start(programs), es))
  {
    StartIsReachable(programs);
    JoinStopsNothing(Start(programs), es);
  }

  // ---------------------------------------------------------------------------------------------
  // Terminating everything
  // ---------------------------------------------------------------------------------------------

  /** Handling a `Terminate` leaves a caretaker stopped or ended. */
  lemma {:induction false} TerminateStops(c: Config, s: Sys)
    requires Inv(c, s)
    ensures Step(c, s, Terminate).Next?
    ensures var t := Step(c, s, Terminate).s; (t.stopSent || t.daemon.Ended?) && t.actor.stopTx.None?
  {
  }

  function Locally(i: nat, es: seq<Event>): (r: seq<SupervisorEvent>)
    ensures |r| == |es|
  {
    if es == [] then [] else [Local(i, es[0])] + Locally(i, es[1..])
  }

  /** A run of one member is a run of the supervisor that touches nothing else. */
  lemma {:induction false} LiftRun(sup: Supervisor, i: nat, es: seq<Event>)
    requires i < |sup| && Legal(sup[i].config, sup[i].caretaker, es)
    ensures Possible(sup, Locally(i, es))
    ensures After(sup, Locally(i, es)) == sup[i := sup[i].(caretaker := Final(sup[i].config, sup[i].caretaker, es))]
    decreases |es|
  {
    if es == [] {
      assert sup[i := sup[i]] == sup;
    } else {
      var next := Do(sup, Local(i, es[0]));
      LiftRun(next, i, es[1..]);
      assert Locally(i, es)[1..] == Locally(i, es[1..]);
    }
  }

  lemma {:induction false} PossibleConcat(sup: Supervisor, a: seq<SupervisorEvent>, b: seq<SupervisorEvent>)
    requires Possible(sup, a) && Possible(After(sup, a), b)
    ensures Possible(sup, a + b) && After(sup, a + b) == After(After(sup, a), b)
    decreases |a|
  {
    if a == [] {
      assert a + b == b;
    } else {
      assert (a + b)[0] == a[0] && (a + b)[1..] == a[1..] + b;
      PossibleConcat(Do(sup, a[0]), a[1..], b);
    }
  }

  ghost predicate AllStopped(sup: Supervisor) {
    forall i :: 0 <= i < |sup| ==> sup[i].caretaker.daemon.Ended? || Stopped(sup[i].config, sup[i].caretaker)
  }

  /** When every member has been stopped and is waited for, the whole supervisor ends within 62 steps per
  member, if spawns succeed and killed children die. */
  lemma {:induction false} TerminationEndsEverything(sup: Supervisor, n: nat) returns (es: seq<SupervisorEvent>)
    requires n <= |sup| && AllStopped(sup)
    ensures |es| <= 62 * n && Possible(sup, es)
    ensures forall i :: 0 <= i < n ==> After(sup, es)[i].caretaker.daemon.Ended?
    ensures forall i :: n <= i < |sup| ==> After(sup, es)[i] == sup[i]
  {
    if n == 0 {
      es := [];
    } else {
      var before := TerminationEndsEverything(sup, n - 1);
      var mid := After(sup, before);
      if sup[n - 1].caretaker.daemon.Ended? {
        es := before;
      } else {
        var own := StopEndsTheDaemon(sup[n - 1].config, sup[n - 1].caretaker);
        LiftRun(mid, n - 1, own);
        PossibleConcat(sup, before, Locally(n - 1, own));
        es := before + Locally(n - 1, own);
      }
    }
  }

  // ---------------------------------------------------------------------------------------------
  // All runs of a terminated supervisor
  // ---------------------------------------------------------------------------------------------

  predicate Over(s: Sys) {
    s.stopSent || s.daemon.Ended?
  }

  /** How much work a caretaker may still do once it is stopped. */
  function Budget(s: Sys): (n: nat)
    ensures n <= 62
  {
    if s.daemon.Ended? then 0 else if s.stopSent then Rank(s) else 62
  }

  /** A spawn that fails although its caretaker is stopped. */
  predicate LateFailure(s: Sys, e: Event) {
    Over(s) && e == HandleRun(false)
  }

  predicate LateStep(s: Sys, e: Event) {
    Over(s) && Productive(s, e)
  }

  lemma {:induction false} BudgetStep(c: Config, s: Sys, e: Event)
    requires Inv(c, s) && Enabled(c, s, e) && Step(c, s, e).Next?
    ensures Over(s) ==> Over(Step(c, s, e).s)
    ensures Budget(Step(c, s, e).s) + (if LateStep(s, e) then 1 else 0)
         <= Budget(s) + if LateFailure(s, e) then 62 else 0
  {
    if s.daemon.Ended? {
      EndStep(c, s, e);
      StepKeepsInv(c, s, e);
    } else if s.stopSent {
      StoppedStep(c, s, e);
      if e != HandleRun(false) {
        RankStep(c, s, e);
      }
    }
  }

  /** Productive events of members that are stopped or ended when they come. */
  function LateWork(sup: Supervisor, es: seq<SupervisorEvent>): nat
    requires Possible(sup, es)
    decreases |es|
  {
    if es == [] then 0
    else
      var of := EventOf(sup, es[0]);
      (if of.Some? && LateStep(sup[of.value.0].caretaker, of.value.1) then 1 else 0)
      + LateWork(Do(sup, es[0]), es[1..])
  }

  /** Spawns that fail at members that are stopped. */
  function LateFailures(sup: Supervisor, es: seq<SupervisorEvent>): nat
    requires Possible(sup, es)
    decreases |es|
  {
    if es == [] then 0
    else
      var of := EventOf(sup, es[0]);
      (if of.Some? && LateFailure(sup[of.value.0].caretaker, of.value.1) then 1 else 0)
      + LateFailures(Do(sup, es[0]), es[1..])
  }

  function TotalBudget(sup: Supervisor, n: nat): (t: nat)
    requires n <= |sup|
    ensures t <= 62 * n
  {
    if n == 0 then 0 else TotalBudget(sup, n - 1) + Budget(sup[n - 1].caretaker)
  }

  /** Two supervisors that differ in member `i` at most differ in its budget at most. */
  lemma {:induction false} TotalBudgetDiffers(a: Supervisor, b: Supervisor, i: nat, n: nat)
    requires n <= |a| == |b| && i < |a|
    requires forall k :: 0 <= k < |a| && k != i ==> b[k].caretaker == a[k].caretaker
    ensures TotalBudget(b, n) + (if i < n then Budget(a[i].caretaker) else 0)
         == TotalBudget(a, n) + (if i < n then Budget(b[i].caretaker) else 0)
  {
    if n > 0 {
      TotalBudgetDiffers(a, b, i, n - 1);
    }
  }

  lemma {:induction false} TotalBudgetSame(a: Supervisor, b: Supervisor, n: nat)
    requires n <= |a| == |b| && forall k :: 0 <= k < |a| ==> b[k].caretaker == a[k].caretaker
    ensures TotalBudget(b, n) == TotalBudget(a, n)
  {
    if n > 0 {
      TotalBudgetSame(a, b, n - 1);
    }
  }

  lemma {:induction false} SupervisorBudgetStep(sup: Supervisor, e: SupervisorEvent)
    requires AllReachable(sup) && Can(sup, e)
    ensures TotalBudget(Do(sup, e), |sup|) + LateWork(sup, [e])
         <= TotalBudget(sup, |sup|) + 62 * LateFailures(sup, [e])
  {
    var of := EventOf(sup, e);
    if of.Some? {
      var (i, le) := of.value;
      ReachableInv(sup[i].config, sup[i].caretaker);
      BudgetStep(sup[i].config, sup[i].caretaker, le);
      TotalBudgetDiffers(sup, Do(sup, e), i, |sup|);
    } else {
      TotalBudgetSame(sup, Do(sup, e), |sup|);
    }
  }

  /** Over every run of a supervisor, whatever is sent and however its members interleave: once a member
  is stopped or ended it has at most 62 productive events left, and 62 more for every spawn that fails
  after that. */
  lemma {:induction false} LateWorkIsBounded(sup: Supervisor, es: seq<SupervisorEvent>)
    requires AllReachable(sup) && Possible(sup, es)
    ensures LateWork(sup, es) + TotalBudget(After(sup, es), |sup|)
         <= TotalBudget(sup, |sup|) + 62 * LateFailures(sup, es)
    ensures LateWork(sup, es) <= 62 * (|sup| + LateFailures(sup, es))
    decreases |es|
  {
    if es != [] {
      SupervisorBudgetStep(sup, es[0]);
      DoKeepsReachable(sup, es[0]);
      LateWorkIsBounded(Do(sup, es[0]), es[1..]);
    }
  }

  // ---------------------------------------------------------------------------------------------
  // Joining a terminated supervisor
  // ---------------------------------------------------------------------------------------------

  /** What a handled message has achieved. */
  predicate Achieved(s: Sys, m: Message) {
    match m
    case WaitMessage(w) => Waited(s, w)
    case TerminateMessage => s.stopSent || s.daemon.Ended?
  }

  lemma {:induction false} MessageAchieves(c: Config, s: Sys, m: Message)
    requires Inv(c, s)
    ensures Step(c, s, Handling(m)).Next? && Inv(c, Step(c, s, Handling(m)).s)
    ensures var t := Step(c, s, Handling(m)).s;
      Achieved(t, m) && forall earlier :: Achieved(s, earlier) ==> Achieved(t, earlier)
  {
    TerminateOutcome(s);
    StepKeepsInv(c, s, Handling(m));
  }

  function Events(inbox: seq<Message>): seq<Event> {
    if inbox == [] then [] else [Handling(inbox[0])] + Events(inbox[1..])
  }

  /** The messages of an inbox can always be handled, and then what they ask for is achieved. */
  lemma {:induction false} InboxHandled(c: Config, s: Sys, inbox: seq<Message>)
    requires Inv(c, s)
    ensures Legal(c, s, Events(inbox)) && Inv(c, Final(c, s, Events(inbox)))
    ensures forall m :: m in inbox || Achieved(s, m) ==> Achieved(Final(c, s, Events(inbox)), m)
    decreases |inbox|
  {
    if inbox != [] {
      MessageAchieves(c, s, inbox[0]);
      InboxHandled(c, Step(c, s, Handling(inbox[0])).s, inbox[1..]);
      assert Events(inbox)[1..] == Events(inbox[1..]);
      assert forall m :: m in inbox ==> m == inbox[0] || m in inbox[1..];
    }
  }

  function Deliveries(i: nat, n: nat): seq<SupervisorEvent> {
    if n == 0 then [] else [Deliver(i)] + Deliveries(i, n - 1)
  }

  /** Delivering a whole inbox is a run of its member. */
  lemma {:induction false} InboxDelivered(sup: Supervisor, i: nat)
    requires i < |sup| && Legal(sup[i].config, sup[i].caretaker, Events(sup[i].inbox))
    ensures var es := Deliveries(i, |sup[i].inbox|);
      && Possible(sup, es)
      && After(sup, es)
         == sup[i := Member(sup[i].config, [], Final(sup[i].config, sup[i].caretaker, Events(sup[i].inbox)))]
    decreases |sup[i].inbox|
  {
    var inbox := sup[i].inbox;
    if inbox == [] {
      assert sup[i := sup[i]] == sup;
    } else {
      assert Events(inbox)[1..] == Events(inbox[1..]);
      assert Deliveries(i, |inbox|)[1..] == Deliveries(i, |inbox| - 1);
      InboxDelivered(Do(sup, Deliver(i)), i);
    }
  }

  predicate Answered(m: Member, w: nat) {
    m.caretaker.daemon.Ended? && w in m.caretaker.released
  }

  ghost predicate Asked(m: Member, w: nat) {
    Reachable(m.config, m.caretaker) && WaitMessage(w) in m.inbox && TerminateMessage in m.inbox
  }

  /** A member that was sent a `Wait` and a `Terminate` can always be brought to its end. */
  lemma {:induction false} MemberEnds(sup: Supervisor, i: nat, w: nat) returns (es: seq<SupervisorEvent>, m: Member)
    requires i < |sup| && Asked(sup[i], w)
    ensures Possible(sup, es) && After(sup, es) == sup[i := m]
    ensures Answered(m, w)
  {
    var c, inbox := sup[i].config, sup[i].inbox;
    ReachableInv(c, sup[i].caretaker);
    InboxHandled(c, sup[i].caretaker, inbox);
    InboxDelivered(sup, i);
    var first, s := Deliveries(i, |inbox|), Final(c, sup[i].caretaker, Events(inbox));
    assert Achieved(s, WaitMessage(w)) && Achieved(s, TerminateMessage);
    var own := [];
    if !s.daemon.Ended? {
      own := StopEndsTheDaemon(c, s);
    }
    var mid := After(sup, first);
    LiftRun(mid, i, own);
    PossibleConcat(sup, first, Locally(i, own));
    RunsKeepInv(c, s, own);
    WaitersAreKept(c, s, own, w);
    es, m := first + Locally(i, own), Member(c, [], Final(c, s, own));
  }

  /** The first `n` members have ended and answered, the others are as they were. */
  ghost predicate EndedUpTo(sup: Supervisor, t: Supervisor, n: nat, w: nat) {
    && n <= |sup| == |t|
    && (forall i :: 0 <= i < n ==> Answered(t[i], w))
    && (forall i :: n <= i < |sup| ==> t[i] == sup[i])
  }

  lemma {:induction false} OneMoreEnded(sup: Supervisor, t: Supervisor, n: nat, w: nat, m: Member)
    requires EndedUpTo(sup, t, n, w) && n < |sup| && Answered(m, w)
    ensures EndedUpTo(sup, t[n := m], n + 1, w)
  {
  }

  lemma {:induction false} MembersEnd(sup: Supervisor, n: nat, w: nat) returns (es: seq<SupervisorEvent>)
    requires n <= |sup| && forall i :: 0 <= i < |sup| ==> Asked(sup[i], w)
    ensures Possible(sup, es) && EndedUpTo(sup, After(sup, es), n, w)
  {
    if n == 0 {
      es := [];
    } else {
      var before := MembersEnd(sup, n - 1, w);
      var mid := After(sup, before);
      var own, m := MemberEnds(mid, n - 1, w);
      PossibleConcat(sup, before, own);
      OneMoreEnded(sup, mid, n - 1, w, m);
      es := before + own;
    }
  }

  lemma {:induction false} BothSent(sup: Supervisor, w: nat)
    ensures Possible(sup, [Join(w), TerminateAll])
    ensures After(sup, [Join(w), TerminateAll]) == Send(Send(sup, WaitMessage(w)), TerminateMessage)
  {
    var mid := Do(sup, Join(w));
    assert [Join(w), TerminateAll][1..] == [TerminateAll];
    assert After(mid, [TerminateAll]) == Do(mid, TerminateAll);
  }

  /** From every state of every run of a started supervisor, whatever its members are doing: `Join` and
  `TerminateAll` leave it a way to the end, where all daemons have ended and that `Join` is resolved. No
  fault ever blocks it. */
  lemma {:induction false} TerminatedJoinResolves(programs: seq<(Config, int)>, past: seq<SupervisorEvent>, w: nat)
    returns (es: seq<SupervisorEvent>)
    requires Possible(Start(programs), past)
    ensures var sup := After(Start(programs), past);
      && Possible(sup, [Join(w), TerminateAll] + es)
      && AllEnded(After(sup, [Join(w), TerminateAll] + es))
      && JoinResolved(After(sup, [Join(w), TerminateAll] + es), w)
  {
    var sup := After(Start(programs), past);
    StartIsReachable(programs);
    MembersBehave(Start(programs), past);
    BothSent(sup, w);
    var sent := After(sup, [Join(w), TerminateAll]);
    assert forall i :: 0 <= i < |sent| ==> Asked(sent[i], w);
    es := MembersEnd(sent, |sent|, w);
    assert forall i :: 0 <= i < |sent| ==> Answered(After(sent, es)[i], w);
    PossibleConcat(sup, [Join(w), TerminateAll], es);
  }
}

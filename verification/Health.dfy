/** The health actor of one run (src/supervisor/health.rs): a counter of consecutive failures, and a
signal that it sends once. Checks complete in some order; each completion is one call below. */
module Health {
  import opened Basics
  import opened Caretaker

  const U32_MAX := 0xFFFF_FFFF

  /** `interval` and `grace` in the clock's units. */
  datatype HealthConfig = HealthConfig(interval: nat, grace: nat)

  /** What the actor did with a completed check. The last three are its `expect`s: the count that does
  not fit 32 bits, the sender that is gone, the race that no longer listens. */
  datatype Reaction = Counted | Fired | CountOverflow | ConsumedTwice | NobodyRaces

  predicate Failed(r: Reaction) {
    r.CountOverflow? || r.ConsumedTwice? || r.NobodyRaces?
  }

  datatype Monitor = Monitor(count: nat, armed: bool, running: bool)

  function NewMonitor(): Monitor {
    Monitor(0, true, true)
  }

  /** One completed check. */
  function OnCompleted(m: Monitor, c: HealthConfig, healthy: bool, raceListens: bool): (Monitor, Reaction) {
    if healthy then (m.(count := 0), Counted)
    else
      var failed := m.(count := m.count + 1);
      if failed.count > U32_MAX then (failed, CountOverflow)
      else if c.interval * failed.count < c.grace then (failed, Counted)
      else if !m.armed then (failed, ConsumedTwice)
      else if !raceListens then (failed.(armed := false), NobodyRaces)
      else (failed.(armed := false, running := false), Fired)
  }

  class HealthActor {
    const config: Option<HealthConfig>
    var unhealthyCount: nat
    var stopTx: bool
    var running: bool

    constructor (config: Option<HealthConfig>)
      ensures View() == NewMonitor() && this.config == config
    {
      this.config := config;
      unhealthyCount, stopTx, running := 0, true, true;
    }

    function View(): Monitor
      reads this
    {
      Monitor(unhealthyCount, stopTx, running)
    }

    /** Without a configured check the actor reports healthy once and never checks anything. */
    method Started() returns (report: Option<HealthState>)
      ensures report == if config.None? then Some(Healthy) else None
    {
      report := if config.None? then Some(Healthy) else None;
    }

    /** The completion of one check, and the report it sends to the caretaker. */
    method CheckCompleted(healthy: bool, raceListens: bool) returns (report: HealthState, r: Reaction)
      requires config.Some?
      modifies this
      ensures (View(), r) == OnCompleted(old(View()), config.value, healthy, raceListens)
      ensures report == if healthy then Healthy else Unhealthy
    {
      if healthy {
        unhealthyCount := 0;
        return Healthy, Counted;
      }
      unhealthyCount := unhealthyCount + 1;
      if unhealthyCount > U32_MAX {
        return Unhealthy, CountOverflow;
      }
      if config.value.interval * unhealthyCount < config.value.grace {
        return Unhealthy, Counted;
      }
      var taken := stopTx;
      stopTx := false;
      if !taken {
        return Unhealthy, ConsumedTwice;
      }
      if !raceListens {
        return Unhealthy, NobodyRaces;
      }
      running := false;
      return Unhealthy, Fired;
    }
  }

  // ---------------------------------------------------------------------------------------------
  // Over a whole history of completions
  // ---------------------------------------------------------------------------------------------

  /** How many failures the history ends in. */
  function Trailing(history: seq<bool>): (n: nat)
    ensures n <= |history|
  {
    if history == [] || history[|history| - 1] then 0 else 1 + Trailing(history[..|history| - 1])
  }

  /** The number of consecutive failures that ends the watch: max(1, ceil(grace / interval)), or the first
  count that does not fit 32 bits if that comes earlier, as it does for a zero interval. */
  function Limit(c: HealthConfig): (k: nat)
    ensures 1 <= k <= U32_MAX + 1
  {
    var k := if c.grace == 0 then 1
             else if c.interval == 0 then U32_MAX + 1
             else (c.grace + c.interval - 1) / c.interval;
    if k > U32_MAX then U32_MAX + 1 else k
  }

  lemma {:induction false} MulMonotone(a: nat, x: nat, y: nat)
    requires x <= y
    ensures a * x <= a * y
  {
    assert a * y - a * x == a * (y - x);
  }

  lemma {:induction false} LimitIsExact(c: HealthConfig, n: nat)
    requires 0 < n <= U32_MAX
    ensures c.grace <= c.interval * n <==> Limit(c) <= n
  {
    if c.grace > 0 && c.interval > 0 {
      var q := (c.grace + c.interval - 1) / c.interval;
      var rest := (c.grace + c.interval - 1) % c.interval;
      assert c.interval * q + rest == c.grace + c.interval - 1;
      if q <= n {
        MulMonotone(c.interval, q, n);
      } else {
        MulMonotone(c.interval, n + 1, q);
        assert c.interval * (n + 1) == c.interval * n + c.interval;
      }
    }
  }

  /** How the actor stands after some completions of a racing run: its last reaction, and how many
  signals it has sent. */
  datatype Watch = Watch(monitor: Monitor, last: Reaction, signals: nat)

  /** An actor that runs takes every completion; one that has stopped itself, or failed, takes none. */
  function Observe(c: HealthConfig, history: seq<bool>): Watch
    decreases |history|
  {
    if history == [] then Watch(NewMonitor(), Counted, 0)
    else
      var w := Observe(c, history[..|history| - 1]);
      if !w.monitor.running || Failed(w.last) then w
      else
        var (m, r) := OnCompleted(w.monitor, c, history[|history| - 1], true);
        Watch(m, r, w.signals + if r.Fired? then 1 else 0)
  }

  /** Some prefix of the history ends in at least `k` failures. */
  predicate Tripped(history: seq<bool>, k: nat) {
    history != [] && (k <= Trailing(history) || Tripped(history[..|history| - 1], k))
  }

  /** For every configuration and every history of completions: the watch goes on exactly until the
  completions, in their order, first end in the limit's number of consecutive failures. It then fires if
  that number fits 32 bits, and fails its conversion if not. However many completions follow, it has sent
  one signal and never a second, because it stopped itself; its sender is never found missing. */
  lemma {:induction false} FiresExactlyAtLimit(c: HealthConfig, history: seq<bool>)
    ensures var w := Observe(c, history);
      && (w.last == Counted <==> !Tripped(history, Limit(c)))
      && (w.last == Counted ==> w.monitor == Monitor(Trailing(history), true, true))
      && (Tripped(history, Limit(c)) ==> w.monitor.count == Limit(c))
      && (Tripped(history, Limit(c)) && Limit(c) <= U32_MAX ==>
            w.last == Fired && !w.monitor.armed && !w.monitor.running)
      && (Tripped(history, Limit(c)) && Limit(c) > U32_MAX ==> w.last == CountOverflow)
      && w.signals == (if Tripped(history, Limit(c)) && Limit(c) <= U32_MAX then 1 else 0)
    decreases |history|
  {
    if history != [] {
      var before := history[..|history| - 1];
      FiresExactlyAtLimit(c, before);
      if !Tripped(before, Limit(c)) && !history[|history| - 1] {
        if Trailing(history) <= U32_MAX {
          LimitIsExact(c, Trailing(history));
        }
      }
    }
  }

  /** While the count fits, every tested product is below grace + interval, except that a zero grace is
  tested against one interval. */
  lemma {:induction false} TestsAreBounded(c: HealthConfig, history: seq<bool>)
    requires history != [] && !history[|history| - 1]
    requires Observe(c, history[..|history| - 1]).last == Counted
    requires Observe(c, history).last != CountOverflow
    ensures var product := c.interval * Observe(c, history).monitor.count;
      && (c.grace > 0 && c.interval > 0 ==> product < c.grace + c.interval)
      && (c.grace == 0 ==> product == c.interval)
      && (c.interval == 0 ==> product == 0)
  {
    var before := history[..|history| - 1];
    FiresExactlyAtLimit(c, before);
    assert Observe(c, history).monitor.count == Trailing(before) + 1;
    NextProductIsBounded(c, Trailing(before));
  }

  lemma {:induction false} NextProductIsBounded(c: HealthConfig, n: nat)
    requires n < Limit(c) && n < U32_MAX
    ensures c.grace > 0 && c.interval > 0 ==> c.interval * (n + 1) < c.grace + c.interval
    ensures c.grace == 0 ==> c.interval * (n + 1) == c.interval
    ensures c.interval == 0 ==> c.interval * (n + 1) == 0
  {
    if 0 < n {
      LimitIsExact(c, n);
    }
    assert c.interval * (n + 1) == c.interval * n + c.interval;
  }

  /** The conversion of the count fails exactly when 2^32 failures come in a row before the grace period is
  used up, which the longest count that fits must leave unused. */
  lemma {:induction false} OverflowIff(c: HealthConfig, history: seq<bool>)
    ensures Observe(c, history).last == CountOverflow <==>
      c.interval * 0xFFFF_FFFF < c.grace && Tripped(history, 0x1_0000_0000)
  {
    FiresExactlyAtLimit(c, history);
    LimitIsExact(c, 0xFFFF_FFFF);
  }

  /** The failure that would fire the signal fails instead if the race no longer listens, and exactly
  then; any other completion is taken as if it did. */
  lemma {:induction false} UnheardSignalFails(c: HealthConfig, history: seq<bool>, healthy: bool)
    requires Observe(c, history).last == Counted
    ensures var m := Observe(c, history).monitor;
      var (heard, r) := OnCompleted(m, c, healthy, true);
      var (unheard, q) := OnCompleted(m, c, healthy, false);
      && (q == NobodyRaces <==> r == Fired)
      && (q == NobodyRaces ==> unheard == heard.(running := true))
      && (q != NobodyRaces ==> q == r && unheard == heard)
      && (q == NobodyRaces <==> !healthy && Trailing(history) + 1 == Limit(c) <= 0xFFFF_FFFF)
  {
    FiresExactlyAtLimit(c, history);
    NotTrippedYet(history, Limit(c));
    if Trailing(history) < 0xFFFF_FFFF {
      LimitIsExact(c, Trailing(history) + 1);
    }
  }

  lemma {:induction false} NotTrippedYet(history: seq<bool>, k: nat)
    requires 0 < k && !Tripped(history, k)
    ensures Trailing(history) < k
  {
  }
}

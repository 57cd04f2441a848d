/**
  The hang watchdog.  One cycle consults systemd and the maintenance flag, probes the service and
  may restart it.  What the cycle sees of the outside world is its input; clock readings are reals.
*/
module RestartWatchdog {
  import opened Wrappers
  import opened Finite

  const HOUR := 3600.0

  datatype Config = Config(threshold: int, maxRestarts: int)

  /** The environment may ask for less, but never gets less. */
  function FromEnv(threshold: int, maxRestarts: int): (c: Config)
    ensures Sound(c) && threshold <= c.threshold && maxRestarts <= c.maxRestarts
    ensures Sound(Config(threshold, maxRestarts)) ==> c == Config(threshold, maxRestarts)
  {
    Config(if threshold < 2 then 2 else threshold, if maxRestarts < 1 then 1 else maxRestarts)
  }

  predicate Sound(c: Config) { 2 <= c.threshold && 1 <= c.maxRestarts }

  datatype Probe = Answered | NoAnswer | ProbeRaised

  /** What one cycle meets: the reason to skip (empty for none, None if the check itself fails), the probe, the clock. */
  datatype Cycle = Cycle(check: Option<string>, probe: Probe, now: real)

  datatype Action = Skipped | Healthy | Failing | Limited | Restarted | Error

  datatype State = State(failures: int, restarts: seq<real>, paused: string)

  /** The restarts that still count at a given time. */
  function Recent(restarts: seq<real>, now: real): seq<real> {
    if restarts != [] && restarts[0] <= now - HOUR then Recent(restarts[1..], now) else restarts
  }

  /** A cycle that reaches a failed probe. */
  predicate Unanswered(e: Cycle) { e.check == Some("") && e.probe == NoAnswer }

  function ActionOf(c: Config, s: State, e: Cycle): Action {
    if e.check.None? then Error
    else if e.check.value != "" then Skipped
    else if e.probe == ProbeRaised then Error
    else if e.probe == Answered then Healthy
    else if s.failures + 1 < c.threshold then Failing
    else if |Recent(s.restarts, e.now)| >= c.maxRestarts then Limited
    else Restarted
  }

  function Next(c: Config, s: State, e: Cycle): State {
    if e.check.None? then s
    else
      match ActionOf(c, s, e)
      case Skipped => State(0, s.restarts, e.check.value)
      case Error => s.(paused := "")
      case Healthy => State(0, s.restarts, "")
      case Failing => State(s.failures + 1, s.restarts, "")
      case Limited => State(0, Recent(s.restarts, e.now), "")
      case Restarted => State(0, Recent(s.restarts, e.now) + [e.now], "")
  }

  class Watchdog {
    const config: Config
    var failures: int
    var restarts: seq<real>
    var paused: string

    constructor (config: Config)
      ensures this.config == config && Now() == State(0, [], "")
    {
      this.config := config;
      failures, restarts, paused := 0, [], "";
    }

    function Now(): State
      reads this
    {
      State(failures, restarts, paused)
    }

    method Step(e: Cycle) returns (action: Action)
      modifies this
      ensures action == ActionOf(config, old(Now()), e) && Now() == Next(config, old(Now()), e)
      ensures e.check.None? ==> action == Error && Now() == old(Now())
      ensures e.check.Some? && e.check.value != "" ==> action == Skipped && Now() == State(0, old(restarts), e.check.value)
      ensures e.check == Some("") && e.probe == ProbeRaised ==> action == Error && Now() == State(old(failures), old(restarts), "")
      ensures e.check == Some("") && e.probe == Answered ==> action == Healthy && Now() == State(0, old(restarts), "")
      ensures e.check == Some("") && e.probe == NoAnswer ==>
                && paused == "" && (action == Failing <==> old(failures) + 1 < config.threshold)
                && (action == Failing ==> failures == old(failures) + 1 && restarts == old(restarts))
                && (action != Failing ==> failures == 0)
                && (action == Restarted ==> restarts != [] && restarts[|restarts| - 1] == e.now)
    {
      if e.check.None? { return Error; }
      var reason := e.check.value;
      if reason != "" {
        paused := reason;
        failures := 0;
        return Skipped;
      }
      if paused != "" {
        paused := "";
      }
      if e.probe == ProbeRaised { return Error; }
      if e.probe == Answered {
        failures := 0;
        return Healthy;
      }
      failures := failures + 1;
      if failures < config.threshold { return Failing; }
      while restarts != [] && restarts[0] <= e.now - HOUR
        invariant Recent(restarts, e.now) == Recent(old(restarts), e.now)
        invariant paused == "" && failures == old(failures) + 1
        decreases |restarts|
      {
        restarts := restarts[1..];
      }
      if |restarts| >= config.maxRestarts {
        failures := 0;
        return Limited;
      }
      restarts := restarts + [e.now];
      failures := 0;
      return Restarted;
    }
  }

  // ---------------------------------------------------------------- runs

  /** The watchdog's state and the times of all restarts it ever made. */
  datatype World = World(state: State, log: seq<real>)

  function Extended(c: Config, w: World, e: Cycle): World {
    World(Next(c, w.state, e), if ActionOf(c, w.state, e) == Restarted then w.log + [e.now] else w.log)
  }

  function After(c: Config, es: seq<Cycle>): World {
    if es == [] then World(State(0, [], ""), [])
    else
      Extended(c, After(c, es[..|es| - 1]), es[|es| - 1])
  }

  /** What the watchdog did in its last cycle. */
  function LastAction(c: Config, es: seq<Cycle>): Action
    requires es != []
  {
    ActionOf(c, After(c, es[..|es| - 1]).state, es[|es| - 1])
  }

  /** The clock is monotonic. */
  predicate Timely(es: seq<Cycle>) { forall i, j :: 0 <= i < j < |es| ==> es[i].now <= es[j].now }

  /** How many probes in a row, up to now, got no answer; a cycle that failed by itself does not count. */
  function Streak(es: seq<Cycle>): nat {
    if es == [] then 0
    else
      var before, e := Streak(es[..|es| - 1]), es[|es| - 1];
      if e.check.None? then before
      else if e.check.value != "" then 0
      else match e.probe
           case Answered => 0
           case ProbeRaised => before
           case NoAnswer => before + 1
  }

  lemma {:induction false} NextModulo(n: nat, m: int)
    requires 2 <= m
    ensures (n + 1) % m == if n % m + 1 < m then n % m + 1 else 0
  {
    var q := n / m;
    assert n + 1 == q * m + (n % m + 1);
    if n % m + 1 < m {
      Remainder(q, m, n % m + 1);
    } else {
      assert q * m + m == (q + 1) * m;
      Remainder(q + 1, m, 0);
    }
  }

  lemma Remainder(q: int, m: int, r: int)
    requires 0 <= r < m
    ensures (q * m + r) % m == r
  {
    var n := q * m + r;
    var d := n / m - q;
    assert d * m == r - n % m;
    Multiples(d, m);
  }

  lemma Multiples(d: int, m: int)
    requires 0 < m
    ensures 1 <= d ==> m <= d * m
    ensures d <= -1 ==> d * m <= -m
  {
  }

  /**
    The stored count is the streak modulo the threshold, so it stays below it, and the watchdog goes
    for a restart exactly on every threshold-th unanswered probe of a streak.
  */
  lemma {:induction false} FailuresExactly(c: Config, es: seq<Cycle>)
    requires Sound(c)
    ensures After(c, es).state.failures == Streak(es) % c.threshold
    ensures es != [] ==>
              var due := Unanswered(es[|es| - 1]) && Streak(es) % c.threshold == 0;
              LastAction(c, es) in {Restarted, Limited} <==> due
  {
    if es != [] {
      var init, e := es[..|es| - 1], es[|es| - 1];
      FailuresExactly(c, init);
      NextModulo(Streak(init), c.threshold);
      FailuresStep(c, After(c, init).state, e, (Streak(init) + 1) % c.threshold);
    }
    Remainder(0, c.threshold, 0);
  }

  lemma FailuresStep(c: Config, s: State, e: Cycle, next: int)
    requires Sound(c) && next == if s.failures + 1 < c.threshold then s.failures + 1 else 0
    requires 0 <= s.failures < c.threshold
    ensures Next(c, s, e).failures ==
              if Unanswered(e) then next else if IsReset(e) then 0 else s.failures
    ensures ActionOf(c, s, e) in {Restarted, Limited} <==> Unanswered(e) && next == 0
  {
  }

  /** A cycle that starts the count again. */
  predicate IsReset(e: Cycle) { e.check.Some? && (e.check.value != "" || e.probe == Answered) }

  function UnansweredIn(es: seq<Cycle>): nat {
    if es == [] then 0 else UnansweredIn(es[..|es| - 1]) + if Unanswered(es[|es| - 1]) then 1 else 0
  }

  /** The streak is the number of unanswered probes after the last skipped or answered cycle. */
  lemma {:induction false} StreakMeans(es: seq<Cycle>) returns (k: nat)
    ensures k <= |es| && (k == 0 || IsReset(es[k - 1]))
    ensures forall i :: k <= i < |es| ==> !IsReset(es[i])
    ensures Streak(es) == UnansweredIn(es[k..])
  {
    if es == [] {
      k := 0;
    } else if IsReset(es[|es| - 1]) {
      k := |es|;
    } else {
      var init := es[..|es| - 1];
      k := StreakMeans(init);
      var tail := es[k..];
      assert tail[..|tail| - 1] == init[k..];
    }
  }

  // ---------------------------------------------------------------- the limit

  ghost predicate Sorted(log: seq<real>, clock: real) {
    (forall i, j :: 0 <= i < j < |log| ==> log[i] <= log[j]) && forall i :: 0 <= i < |log| ==> log[i] <= clock
  }

  ghost predicate ApartAt(log: seq<real>, i: int, n: int)
    requires 0 <= i && 0 <= n && i + n < |log|
  {
    log[i] + HOUR <= log[i + n]
  }

  /** Of n + 1 restarts in a row the last comes an hour or more after the first. */
  ghost predicate Spaced(log: seq<real>, n: int)
    requires 0 <= n
  {
    forall i :: 0 <= i && i + n < |log| ==> ApartAt(log, i, n)
  }

  /** The remembered restarts are the newest, and the forgotten ones are an hour old. */
  ghost predicate Remembers(restarts: seq<real>, log: seq<real>, clock: real) {
    && |restarts| <= |log| && restarts == log[|log| - |restarts|..]
    && forall i :: 0 <= i < |log| - |restarts| ==> log[i] <= clock - HOUR
  }

  ghost predicate LimitHolds(n: int, restarts: seq<real>, log: seq<real>, clock: real)
    requires 0 <= n
  {
    Sorted(log, clock) && Spaced(log, n) && Remembers(restarts, log, clock) && |restarts| <= n
  }

  /** Pruning forgets exactly what is an hour old. */
  lemma {:induction false} PruneRemembers(restarts: seq<real>, log: seq<real>, now: real)
    requires Remembers(restarts, log, now) && Sorted(log, now)
    ensures Remembers(Recent(restarts, now), log, now) && |Recent(restarts, now)| <= |restarts|
    ensures forall i :: |log| - |Recent(restarts, now)| <= i < |log| ==> now - HOUR < log[i]
    decreases |restarts|
  {
    if restarts != [] && restarts[0] <= now - HOUR {
      PruneRemembers(restarts[1..], log, now);
    } else if restarts != [] {
      assert restarts[0] == log[|log| - |restarts|];
    }
  }

  lemma TimePasses(n: int, restarts: seq<real>, log: seq<real>, clock: real, now: real)
    requires 0 <= n && LimitHolds(n, restarts, log, clock) && clock <= now
    ensures LimitHolds(n, restarts, log, now)
  {
  }

  lemma RestartKeepsSpaced(log: seq<real>, now: real, n: int, kept: seq<real>)
    requires 1 <= n && Spaced(log, n) && Remembers(kept, log, now) && |kept| < n
    ensures Spaced(log + [now], n)
  {
    forall i | 0 <= i && i + n < |log + [now]| ensures ApartAt(log + [now], i, n) {
      if i + n < |log| { assert ApartAt(log, i, n); }
    }
  }

  lemma RestartRemembered(kept: seq<real>, log: seq<real>, now: real)
    requires Remembers(kept, log, now) && Sorted(log, now)
    ensures Remembers(kept + [now], log + [now], now) && Sorted(log + [now], now)
  {
  }

  lemma RestartHolds(n: int, restarts: seq<real>, log: seq<real>, now: real)
    requires 1 <= n && LimitHolds(n, restarts, log, now)
    ensures LimitHolds(n, Recent(restarts, now), log, now)
    ensures |Recent(restarts, now)| < n ==> LimitHolds(n, Recent(restarts, now) + [now], log + [now], now)
  {
    PruneRemembers(restarts, log, now);
    var kept := Recent(restarts, now);
    if |kept| < n {
      RestartKeepsSpaced(log, now, n, kept);
      RestartRemembered(kept, log, now);
    }
  }

  /** The invariant of every run: restarts stay an hour per n apart, and enough of them are remembered. */
  lemma {:induction false} RunKeepsLimit(c: Config, es: seq<Cycle>, clock: real)
    requires Sound(c) && Timely(es) && forall i :: 0 <= i < |es| ==> es[i].now <= clock
    ensures LimitHolds(c.maxRestarts, After(c, es).state.restarts, After(c, es).log, clock)
  {
    if es != [] {
      var init, e := es[..|es| - 1], es[|es| - 1];
      var w := After(c, init);
      RunKeepsLimit(c, init, e.now);
      RestartHolds(c.maxRestarts, w.state.restarts, w.log, e.now);
      TimePasses(c.maxRestarts, After(c, es).state.restarts, After(c, es).log, e.now, clock);
    }
  }

  ghost function InWindow(log: seq<real>, from: real): set<int> {
    set i | 0 <= i < |log| && from <= log[i] < from + HOUR
  }

  ghost function First(s: set<int>): (m: int)
    requires s != {}
    ensures m in s && forall i :: i in s ==> m <= i
    decreases |s|
  {
    var x := Pick(s);
    var rest := s - {x};
    if rest == {} then (assert s == {x}; x)
    else
      var m := First(rest);
      assert forall i :: i in s ==> i == x || i in rest;
      if x < m then x else m
  }

  lemma SpacedApart(log: seq<real>, n: int, lo: int, i: int)
    requires 1 <= n && Spaced(log, n) && 0 <= lo <= i < |log| && log[i] < log[lo] + HOUR
    requires forall j, k :: 0 <= j < k < |log| ==> log[j] <= log[k]
    ensures i < lo + n
  {
    if lo + n < |log| { assert ApartAt(log, lo, n); }
  }

  /** However the cycles went, no half-open hour, wherever it begins, holds more restarts than configured. */
  lemma RestartLimit(c: Config, es: seq<Cycle>, from: real)
    requires Sound(c) && Timely(es)
    ensures |InWindow(After(c, es).log, from)| <= c.maxRestarts
  {
    var log, n := After(c, es).log, c.maxRestarts;
    RunKeepsLimit(c, es, if es == [] then 0.0 else es[|es| - 1].now);
    var inside := InWindow(log, from);
    if inside != {} {
      var lo := First(inside);
      forall i | i in inside ensures lo <= i < lo + n {
        SpacedApart(log, n, lo, i);
      }
      SpanSize(lo, lo + n);
      SubsetSize(inside, Span(lo, lo + n));
    }
  }

  ghost function LastHour(log: seq<real>, now: real): set<int> {
    set i | 0 <= i < |log| && now - HOUR < log[i]
  }

  /** The limit stops a restart only if the last hour really holds that many. */
  lemma LimitedExactly(c: Config, es: seq<Cycle>)
    requires Sound(c) && Timely(es) && es != [] && LastAction(c, es) in {Restarted, Limited}
    ensures LastAction(c, es) == Limited <==> |LastHour(After(c, es[..|es| - 1]).log, es[|es| - 1].now)| == c.maxRestarts
    ensures LastAction(c, es) == Restarted <==> |LastHour(After(c, es[..|es| - 1]).log, es[|es| - 1].now)| < c.maxRestarts
  {
    var init, e := es[..|es| - 1], es[|es| - 1];
    var w := After(c, init);
    RunKeepsLimit(c, init, e.now);
    LastHourSize(w.state.restarts, w.log, e.now);
  }

  lemma LastHourSize(restarts: seq<real>, log: seq<real>, now: real)
    requires Remembers(restarts, log, now) && Sorted(log, now)
    ensures |LastHour(log, now)| == |Recent(restarts, now)| <= |restarts|
  {
    PruneRemembers(restarts, log, now);
    var kept := Recent(restarts, now);
    var lo := |log| - |kept|;
    SpanSize(lo, |log|);
    assert LastHour(log, now) == Span(lo, |log|);
  }

  // ---------------------------------------------------------------- windows with both ends

  /** The restarts of the hour that begins at from, its end included. */
  ghost function InClosed(log: seq<real>, from: real): set<int> {
    set i | 0 <= i < |log| && from <= log[i] <= from + HOUR
  }

  /** The n-th restart after this one came on the tick an hour later. */
  ghost predicate HourApart(log: seq<real>, i: int, n: int, from: real)
    requires 0 <= i && 0 <= n && i + n < |log|
  {
    log[i] == from && log[i + n] == from + HOUR
  }

  lemma ClosedSplits(log: seq<real>, from: real)
    ensures InClosed(log, from) <= InWindow(log, from) + InWindow(log, from + HOUR)
  {
  }

  lemma UnionSize(a: set<int>, b: set<int>)
    ensures |a + b| <= |a| + |b|
  {
    assert a + b == a + (b - a);
    SubsetSize(b - a, b);
  }

  /** More than n restarts in a closed hour: the first of them and the n-th after it lie on its two ends. */
  lemma OverfullEnds(log: seq<real>, n: int, from: real)
    requires 1 <= n && Spaced(log, n) && (forall j, k :: 0 <= j < k < |log| ==> log[j] <= log[k])
    requires n < |InClosed(log, from)|
    ensures exists i :: 0 <= i && i + n < |log| && HourApart(log, i, n, from)
  {
    var inside := InClosed(log, from);
    var lo := First(inside);
    if forall i :: i in inside ==> i < lo + n {
      SpanSize(lo, lo + n);
      assert inside <= Span(lo, lo + n);
      SubsetSize(inside, Span(lo, lo + n));
    } else {
      var i :| i in inside && lo + n <= i;
      assert ApartAt(log, lo, n);
      assert log[lo + n] <= log[i];
      assert HourApart(log, lo, n, from);
    }
  }

  lemma EndsOverfull(log: seq<real>, n: int, from: real, i: int)
    requires 1 <= n && (forall j, k :: 0 <= j < k < |log| ==> log[j] <= log[k])
    requires 0 <= i && i + n < |log| && HourApart(log, i, n, from)
    ensures n < |InClosed(log, from)|
  {
    SpanSize(i, i + n + 1);
    assert Span(i, i + n + 1) <= InClosed(log, from);
    SubsetSize(Span(i, i + n + 1), InClosed(log, from));
  }

  /**
    An hour with both its ends holds at most twice the configured number, and more than that number
    exactly if some restart and the one that many later lie on its two ends.
  */
  lemma ClosedHourExactly(c: Config, es: seq<Cycle>, from: real)
    requires Sound(c) && Timely(es)
    ensures var log := After(c, es).log;
            && |InClosed(log, from)| <= 2 * c.maxRestarts
            && (c.maxRestarts < |InClosed(log, from)| <==>
                exists i :: 0 <= i && i + c.maxRestarts < |log| && HourApart(log, i, c.maxRestarts, from))
  {
    var log, n := After(c, es).log, c.maxRestarts;
    RunKeepsLimit(c, es, if es == [] then 0.0 else es[|es| - 1].now);
    RestartLimit(c, es, from);
    RestartLimit(c, es, from + HOUR);
    ClosedSplits(log, from);
    UnionSize(InWindow(log, from), InWindow(log, from + HOUR));
    SubsetSize(InClosed(log, from), InWindow(log, from) + InWindow(log, from + HOUR));
    if n < |InClosed(log, from)| {
      OverfullEnds(log, n, from);
    } else if i :| 0 <= i && i + n < |log| && HourApart(log, i, n, from) {
      EndsOverfull(log, n, from, i);
    }
  }

  // ---------------------------------------------------------------- twice the limit is reached

  function Hung(now: real): Cycle { Cycle(Some(""), NoAnswer, now) }

  /** k unanswered probes at one moment. */
  function Probes(now: real, k: nat): seq<Cycle> { seq(k, _ => Hung(now)) }

  function Probed(c: Config, w: World, now: real, k: nat): World {
    if k == 0 then w else Extended(c, Probed(c, w, now, k - 1), Hung(now))
  }

  lemma OneMoreProbe(c: Config, es: seq<Cycle>, now: real, k: nat)
    ensures After(c, es + Probes(now, k + 1)) == Extended(c, After(c, es + Probes(now, k)), Hung(now))
  {
    var all := es + Probes(now, k + 1);
    assert all[..|all| - 1] == es + Probes(now, k) && all[|all| - 1] == Hung(now);
  }

  lemma {:induction false} ProbesRun(c: Config, es: seq<Cycle>, now: real, k: nat)
    ensures After(c, es + Probes(now, k)) == Probed(c, After(c, es), now, k)
  {
    if k == 0 {
      assert es + Probes(now, 0) == es;
    } else {
      ProbesRun(c, es, now, k - 1);
      OneMoreProbe(c, es, now, k - 1);
    }
  }

  lemma {:induction false} ProbedAdds(c: Config, w: World, now: real, a: nat, b: nat)
    ensures Probed(c, w, now, a + b) == Probed(c, Probed(c, w, now, a), now, b)
  {
    if b > 0 { ProbedAdds(c, w, now, a, b - 1); }
  }

  /** Fewer probes than the threshold only raise the count. */
  lemma {:induction false} ProbedCounts(c: Config, w: World, now: real, k: nat)
    requires Sound(c) && w.state.failures == 0 && 0 < k < c.threshold
    ensures Probed(c, w, now, k) == World(State(k, w.state.restarts, ""), w.log)
  {
    if k > 1 { ProbedCounts(c, w, now, k - 1); } else { assert Probed(c, w, now, 0) == w; }
  }

  lemma LastProbe(c: Config, w: World, now: real)
    requires Sound(c) && w.state.failures == c.threshold - 1 && |Recent(w.state.restarts, now)| < c.maxRestarts
    ensures Extended(c, w, Hung(now)) == World(State(0, Recent(w.state.restarts, now) + [now], ""), w.log + [now])
  {
  }

  /** As many as the threshold restart, if the limit allows. */
  lemma ProbedRestarts(c: Config, w: World, now: real)
    requires Sound(c) && w.state.failures == 0 && |Recent(w.state.restarts, now)| < c.maxRestarts
    ensures Probed(c, w, now, c.threshold) == World(State(0, Recent(w.state.restarts, now) + [now], ""), w.log + [now])
  {
    ProbedCounts(c, w, now, c.threshold - 1);
    LastProbe(c, Probed(c, w, now, c.threshold - 1), now);
  }

  function Times(now: real, k: nat): seq<real> { seq(k, _ => now) }

  /** Restarts at this moment count, those an hour ago do not. */
  lemma {:induction false} RecentTimes(at: real, k: nat, now: real)
    requires at == now || at == now - HOUR
    ensures Recent(Times(at, k), now) == if at == now then Times(at, k) else []
  {
    if k > 0 && at == now - HOUR {
      RecentTimes(at, k - 1, now);
      assert Times(at, k)[1..] == Times(at, k - 1);
    }
  }

  function ProbesFor(c: Config, k: nat): nat
    requires Sound(c)
  {
    if k == 0 then 0 else ProbesFor(c, k - 1) + c.threshold
  }

  lemma RestartAgain(c: Config, log: seq<real>, now: real, k: nat)
    requires Sound(c) && k < c.maxRestarts
    ensures Probed(c, World(State(0, Times(now, k), ""), log + Times(now, k)), now, c.threshold)
              == World(State(0, Times(now, k + 1), ""), log + Times(now, k + 1))
  {
    RecentTimes(now, k, now);
    ProbedRestarts(c, World(State(0, Times(now, k), ""), log + Times(now, k)), now);
    assert Times(now, k + 1) == Times(now, k) + [now];
    assert log + Times(now, k + 1) == log + Times(now, k) + [now];
  }

  lemma FirstRestart(c: Config, w: World, now: real)
    requires Sound(c) && w.state.failures == 0 && Recent(w.state.restarts, now) == []
    ensures Probed(c, w, now, ProbesFor(c, 1)) == World(State(0, Times(now, 1), ""), w.log + Times(now, 1))
  {
    ProbedRestarts(c, w, now);
    assert [] + [now] == Times(now, 1) && [now] == Times(now, 1);
    assert ProbesFor(c, 1) == c.threshold;
  }

  lemma OneMoreRestart(c: Config, w: World, now: real, k: nat)
    requires Sound(c) && k < c.maxRestarts
    requires Probed(c, w, now, ProbesFor(c, k)) == World(State(0, Times(now, k), ""), w.log + Times(now, k))
    ensures Probed(c, w, now, ProbesFor(c, k + 1)) == World(State(0, Times(now, k + 1), ""), w.log + Times(now, k + 1))
  {
    ProbedAdds(c, w, now, ProbesFor(c, k), c.threshold);
    RestartAgain(c, w.log, now, k);
  }

  /** k restarts at one moment, where nothing older counts. */
  lemma {:induction false} ManyRestarts(c: Config, w: World, now: real, k: nat)
    requires Sound(c) && 0 < k <= c.maxRestarts && w.state.failures == 0 && Recent(w.state.restarts, now) == []
    ensures Probed(c, w, now, ProbesFor(c, k)) == World(State(0, Times(now, k), ""), w.log + Times(now, k))
  {
    if k == 1 {
      FirstRestart(c, w, now);
    } else {
      ManyRestarts(c, w, now, k - 1);
      OneMoreRestart(c, w, now, k - 1);
    }
  }

  lemma TwiceInside(n: nat)
    ensures |InClosed(Times(0.0, n) + Times(HOUR, n), 0.0)| == 2 * n
  {
    SpanSize(0, 2 * n);
    assert InClosed(Times(0.0, n) + Times(HOUR, n), 0.0) == Span(0, 2 * n);
  }

  function TwiceOver(c: Config): seq<Cycle>
    requires Sound(c)
  {
    Probes(0.0, ProbesFor(c, c.maxRestarts)) + Probes(HOUR, ProbesFor(c, c.maxRestarts))
  }

  lemma TwiceOverLog(c: Config)
    requires Sound(c)
    ensures After(c, TwiceOver(c)).log == Times(0.0, c.maxRestarts) + Times(HOUR, c.maxRestarts)
  {
    var n, k := c.maxRestarts, ProbesFor(c, c.maxRestarts);
    assert [] + Probes(0.0, k) == Probes(0.0, k) && [] + Times(0.0, n) == Times(0.0, n);
    ProbesRun(c, [], 0.0, k);
    ManyRestarts(c, After(c, []), 0.0, n);
    ProbesRun(c, Probes(0.0, k), HOUR, k);
    RecentTimes(0.0, n, HOUR);
    ManyRestarts(c, World(State(0, Times(0.0, n), ""), Times(0.0, n)), HOUR, n);
  }

  /** For every configuration some run puts twice the limit into an hour with both its ends. */
  lemma ClosedHourMayHoldTwice(c: Config)
    requires Sound(c)
    ensures exists es :: Timely(es) && |InClosed(After(c, es).log, 0.0)| == 2 * c.maxRestarts
  {
    TwiceOverLog(c);
    TwiceInside(c.maxRestarts);
    assert Timely(TwiceOver(c));
  }
}

/**
  Admission control of the prewarm watcher: worker slots, byte reservations that live until a
  worker is really reaped, and a rolling window of admissions.  The operating system is the
  environment: it forks fresh process ids, answers reads and waits, and its clock never goes back.
*/
module PrewarmWatcher {
  import opened Wrappers
  import opened Finite

  const MAX_CONCURRENT := 2
  const WINDOW_SECONDS := 600.0
  const WORKER_TIMEOUT := 60.0

  type Pid = nat

  datatype Proc = Proc(pid: Pid, since: real)
  datatype Charge = Charge(at: real, bytes: int)

  datatype Wait = Reaped | ReapedElsewhere | StillRunning
  datatype Read = NoData | Report(grew: Option<nat>)

  /** What the system answers during one pump. */
  datatype Answers = Answers(zombie: Pid -> Wait, read: Pid -> Read, killed: Pid -> Wait)

  // ---------------------------------------------------------------- the rolling window

  function Total(charges: seq<Charge>): int {
    if charges == [] then 0 else Total(charges[..|charges| - 1]) + charges[|charges| - 1].bytes
  }

  /** The charges that still count at a given time. */
  function Recent(charges: seq<Charge>, now: real): seq<Charge> {
    if charges == [] then []
    else
      var last := charges[|charges| - 1];
      var before := Recent(charges[..|charges| - 1], now);
      if now - last.at <= WINDOW_SECONDS then before + [last] else before
  }

  /** Bytes admitted in the closed window that begins at from. */
  function Admitted(history: seq<Charge>, from: real): int {
    if history == [] then 0
    else
      var last := history[|history| - 1];
      Admitted(history[..|history| - 1], from) + if from <= last.at <= from + WINDOW_SECONDS then last.bytes else 0
  }

  ghost predicate Timed(history: seq<Charge>, clock: real) {
    forall i :: 0 <= i < |history| ==> history[i].at <= clock && 0 <= history[i].bytes
  }

  lemma TotalAppend(charges: seq<Charge>, c: Charge)
    ensures Total(charges + [c]) == Total(charges) + c.bytes
  {
    assert (charges + [c])[..|charges|] == charges;
  }

  lemma RecentAppend(charges: seq<Charge>, c: Charge, now: real)
    ensures Recent(charges + [c], now) == if now - c.at <= WINDOW_SECONDS then Recent(charges, now) + [c] else Recent(charges, now)
  {
    assert (charges + [c])[..|charges|] == charges;
  }

  /** Pruning twice is pruning at the later time: no charge that still matters is ever dropped. */
  lemma {:induction false} PruneAgain(history: seq<Charge>, was: real, now: real)
    requires was <= now
    ensures Recent(Recent(history, was), now) == Recent(history, now)
  {
    if history != [] {
      var init, last := history[..|history| - 1], history[|history| - 1];
      PruneAgain(init, was, now);
      if was - last.at <= WINDOW_SECONDS { RecentAppend(Recent(init, was), last, now); }
    }
  }

  /** A window that ends no earlier than now only contains charges that count now. */
  lemma {:induction false} WindowWithinRecent(history: seq<Charge>, clock: real, now: real, from: real)
    requires Timed(history, clock) && now <= from + WINDOW_SECONDS
    ensures 0 <= Admitted(history, from) <= Total(Recent(history, now))
  {
    if history != [] {
      var init, last := history[..|history| - 1], history[|history| - 1];
      assert forall i :: 0 <= i < |init| ==> init[i] == history[i];
      WindowWithinRecent(init, clock, now, from);
      if now - last.at <= WINDOW_SECONDS { TotalAppend(Recent(init, now), last); }
    }
  }

  ghost predicate CapHolds(history: seq<Charge>, cap: int) {
    forall from: real :: Admitted(history, from) <= cap
  }

  /** An admission checked against the charges that counted at `checked` keeps every window within the cap. */
  lemma AdmissionKeepsCap(history: seq<Charge>, c: Charge, checked: real, cap: int)
    requires Timed(history, c.at) && CapHolds(history, cap) && checked <= c.at && 0 <= c.bytes
    requires Total(Recent(history, checked)) + c.bytes <= cap
    ensures CapHolds(history + [c], cap)
  {
    forall from: real ensures Admitted(history + [c], from) <= cap {
      assert (history + [c])[..|history|] == history;
      if from <= c.at <= from + WINDOW_SECONDS {
        WindowWithinRecent(history, c.at, checked, from);
      }
    }
  }

  /** Keeps the charges that still count, and adds them up. */
  method Prune(charges: seq<Charge>, now: real) returns (kept: seq<Charge>, used: int)
    ensures kept == Recent(charges, now) && used == Total(kept)
  {
    kept, used := [], 0;
    ghost var seen: seq<Charge> := [];
    for i := 0 to |charges|
      invariant seen == charges[..i] && kept == Recent(seen, now) && used == Total(kept)
    {
      RecentAppend(seen, charges[i], now);
      assert charges[..i + 1] == seen + [charges[i]];
      seen := seen + [charges[i]];
      if now - charges[i].at <= WINDOW_SECONDS {
        TotalAppend(kept, charges[i]);
        kept := kept + [charges[i]];
        used := used + charges[i].bytes;
      }
    }
    assert seen == charges;
  }

  lemma {:induction false} QuietIsEmpty(history: seq<Charge>, now: real)
    requires forall i :: 0 <= i < |history| ==> history[i].at < now - WINDOW_SECONDS
    ensures Recent(history, now) == []
  {
    if history != [] {
      QuietIsEmpty(history[..|history| - 1], now);
    }
  }

  // ---------------------------------------------------------------- the pump, as a function of the answers

  predicate TimedOut(p: Proc, now: real) { now - p.since > WORKER_TIMEOUT }

  predicate Stays(p: Proc, a: Answers, now: real) { a.read(p.pid) == NoData && !TimedOut(p, now) }

  predicate Leaks(p: Proc, a: Answers, now: real) {
    a.read(p.pid) == NoData && TimedOut(p, now) && a.killed(p.pid) == StillRunning
  }

  function Staying(procs: seq<Proc>, a: Answers, now: real): (s: seq<Proc>)
    ensures forall p :: p in s <==> p in procs && Stays(p, a, now)
  {
    if procs == [] then []
    else
      var init, last := procs[..|procs| - 1], procs[|procs| - 1];
      assert procs == init + [last];
      if Stays(last, a, now) then Staying(init, a, now) + [last] else Staying(init, a, now)
  }

  function Grown(procs: seq<Proc>, a: Answers): int {
    if procs == [] then 0
    else
      Grown(procs[..|procs| - 1], a) +
      match a.read(procs[|procs| - 1].pid) case Report(Some(n)) => n case _ => 0
  }

  function Pids(procs: seq<Proc>): set<Pid> { set p | p in procs :: p.pid }

  predicate Distinct(procs: seq<Proc>) { forall i, j :: 0 <= i < j < |procs| ==> procs[i].pid != procs[j].pid }

  /** Workers killed but not reaped. */
  function Leaking(procs: seq<Proc>, a: Answers, now: real): set<Pid> { set p | p in procs && Leaks(p, a, now) :: p.pid }

  /** Leaked workers that are still not reaped. */
  function Unreaped(leaked: map<Pid, real>, a: Answers): set<Pid> {
    set pid | pid in leaked && a.zombie(pid) == StillRunning
  }

  ghost predicate AnyReport(procs: seq<Proc>, a: Answers) { exists p :: p in procs && a.read(p.pid).Report? }

  lemma ProcsAppend(procs: seq<Proc>, p: Proc)
    ensures Pids(procs + [p]) == Pids(procs) + {p.pid}
    ensures Distinct(procs) && p.pid !in Pids(procs) ==> Distinct(procs + [p])
  {
  }

  predicate Frees(p: Proc, a: Answers, now: real) { !Stays(p, a, now) && !Leaks(p, a, now) }

  /** How many workers give their reservation back. */
  function Freed(procs: seq<Proc>, a: Answers, now: real): (n: nat)
    ensures n <= |procs|
  {
    if procs == [] then 0
    else Freed(procs[..|procs| - 1], a, now) + if Frees(procs[|procs| - 1], a, now) then 1 else 0
  }

  /** The leaked workers after the pump looked at all of these. */
  function LeakedBy(procs: seq<Proc>, was: map<Pid, real>, a: Answers, now: real): map<Pid, real> {
    if procs == [] then was
    else
      var p := procs[|procs| - 1];
      var before := LeakedBy(procs[..|procs| - 1], was, a, now);
      if Leaks(p, a, now) then before[p.pid := now] else before
  }

  lemma {:induction false} LeakedKeys(procs: seq<Proc>, was: map<Pid, real>, a: Answers, now: real)
    ensures LeakedBy(procs, was, a, now).Keys == was.Keys + Leaking(procs, a, now)
  {
    if procs == [] {
      assert Leaking(procs, a, now) == {};
    } else {
      var init, p := procs[..|procs| - 1], procs[|procs| - 1];
      assert procs == init + [p];
      LeakedKeys(init, was, a, now);
      AnswersAppend(init, p, a, now);
    }
  }

  /** Every worker stays, leaks or is freed, exactly one of the three. */
  lemma {:induction false} PumpPartitions(procs: seq<Proc>, was: map<Pid, real>, a: Answers, now: real)
    requires Distinct(procs) && Pids(procs) !! was.Keys
    ensures |LeakedBy(procs, was, a, now)| + |Staying(procs, a, now)| + Freed(procs, a, now) == |was| + |procs|
  {
    if procs != [] {
      var init, p := procs[..|procs| - 1], procs[|procs| - 1];
      assert procs == init + [p];
      ProcsAppend(init, p);
      PumpPartitions(init, was, a, now);
      PrefixIsFresh(procs, |procs| - 1, was, a, now);
      InsertSize(LeakedBy(init, was, a, now), p.pid, now);
    }
  }

  lemma InsertSize(m: map<Pid, real>, pid: Pid, now: real)
    requires pid !in m
    ensures |m[pid := now]| == |m| + 1
  {
    assert m[pid := now].Keys == m.Keys + {pid};
  }

  lemma PrefixIsFresh(procs: seq<Proc>, i: nat, was: map<Pid, real>, a: Answers, now: real)
    requires Distinct(procs) && i < |procs| && Pids(procs) !! was.Keys
    ensures procs[i].pid !in LeakedBy(procs[..i], was, a, now)
  {
    PrefixPids(procs, i);
    LeakingWithin(procs[..i], a, now);
    LeakedKeys(procs[..i], was, a, now);
  }

  lemma PrefixStep(procs: seq<Proc>, i: nat, before: seq<Proc>, was: map<Pid, real>, a: Answers, now: real)
    requires Distinct(procs) && i < |procs| && before == procs[..i] && Pids(procs) !! was.Keys
    ensures procs[..i + 1] == before + [procs[i]]
    ensures var p, after := procs[i], before + [procs[i]];
            && p.pid !in LeakedBy(before, was, a, now)
            && Staying(after, a, now) == (if Stays(p, a, now) then Staying(before, a, now) + [p] else Staying(before, a, now))
            && LeakedBy(after, was, a, now)
                 == (if Leaks(p, a, now) then LeakedBy(before, was, a, now)[p.pid := now] else LeakedBy(before, was, a, now))
            && Freed(after, a, now) == Freed(before, a, now) + (if Frees(p, a, now) then 1 else 0)
            && Grown(after, a) == Grown(before, a) + (match a.read(p.pid) case Report(Some(n)) => n case _ => 0)
            && (AnyReport(after, a) <==> AnyReport(before, a) || a.read(p.pid).Report?)
  {
    PrefixIsFresh(procs, i, was, a, now);
    assert (before + [procs[i]])[..i] == before;
    AnswersAppend(before, procs[i], a, now);
  }

  /** What is left tracked after a pump is again well accounted for. */
  lemma PumpOutcome(procs: seq<Proc>, was: map<Pid, real>, a: Answers, now: real)
    requires Distinct(procs) && Pids(procs) !! was.Keys
    ensures var still, leaked := Staying(procs, a, now), LeakedBy(procs, was, a, now);
            && Tracked(still, leaked.Keys, leaked) && leaked.Keys == was.Keys + Leaking(procs, a, now)
            && |still| + |leaked| == |procs| + |was| - Freed(procs, a, now)
  {
    StayingAreApart(procs, a, now);
    LeakedKeys(procs, was, a, now);
    PumpPartitions(procs, was, a, now);
  }

  /**
    What a pump does to a worker: one that is silent for at most a minute stays, an older one is killed
    and leaks exactly if it is not reaped at once, one that reported is gone.
  */
  lemma WorkerFate(procs: seq<Proc>, a: Answers, now: real, p: Proc)
    requires Distinct(procs) && p in procs
    ensures a.read(p.pid) == NoData && now - p.since <= 60.0 ==> p in Staying(procs, a, now) && p.pid !in Leaking(procs, a, now)
    ensures a.read(p.pid) == NoData && 60.0 < now - p.since ==>
              p !in Staying(procs, a, now) && (p.pid in Leaking(procs, a, now) <==> a.killed(p.pid) == StillRunning)
    ensures a.read(p.pid).Report? ==> p !in Staying(procs, a, now) && p.pid !in Leaking(procs, a, now)
  {
    assert p.pid in Leaking(procs, a, now) ==> Leaks(p, a, now);
    assert Leaks(p, a, now) ==> p.pid in Leaking(procs, a, now);
  }

  lemma AnswersAppend(procs: seq<Proc>, p: Proc, a: Answers, now: real)
    ensures Leaking(procs + [p], a, now) == Leaking(procs, a, now) + if Leaks(p, a, now) then {p.pid} else {}
    ensures Staying(procs + [p], a, now) == if Stays(p, a, now) then Staying(procs, a, now) + [p] else Staying(procs, a, now)
    ensures Grown(procs + [p], a) == Grown(procs, a) + match a.read(p.pid) case Report(Some(n)) => n case _ => 0
    ensures AnyReport(procs + [p], a) <==> AnyReport(procs, a) || a.read(p.pid).Report?
  {
  }

  lemma PrefixPids(procs: seq<Proc>, i: nat)
    requires Distinct(procs) && i < |procs|
    ensures procs[i].pid in Pids(procs) && procs[i].pid !in Pids(procs[..i])
  {
    assert procs[i] in procs;
  }

  lemma LeakingWithin(procs: seq<Proc>, a: Answers, now: real)
    ensures Leaking(procs, a, now) <= Pids(procs)
  {
  }

  lemma StayingAreApart(procs: seq<Proc>, a: Answers, now: real)
    requires Distinct(procs)
    ensures Distinct(Staying(procs, a, now)) && Pids(Staying(procs, a, now)) <= Pids(procs)
    ensures Pids(Staying(procs, a, now)) !! Leaking(procs, a, now)
  {
    StayingDistinct(procs, a, now);
    var still := Staying(procs, a, now);
    assert forall p, q :: p in procs && q in procs && p.pid == q.pid ==> p == q;
  }

  lemma {:induction false} StayingDistinct(procs: seq<Proc>, a: Answers, now: real)
    requires Distinct(procs)
    ensures Distinct(Staying(procs, a, now))
  {
    if procs != [] {
      var init, last := procs[..|procs| - 1], procs[|procs| - 1];
      StayingDistinct(init, a, now);
      var still := Staying(init, a, now);
      if Stays(last, a, now) {
        PrefixPids(procs, |procs| - 1);
        ProcsAppend(still, last);
      }
    }
  }

  // ---------------------------------------------------------------- the watcher

  /** Running and leaked workers are different processes; the leaked are those awaiting a reap. */
  ghost predicate Tracked(procs: seq<Proc>, zombies: set<Pid>, leaked: map<Pid, real>) {
    Distinct(procs) && Pids(procs) !! leaked.Keys && zombies == leaked.Keys
  }

  /** The stored charges are those of all history that still counted at the last pruning. */
  ghost predicate WindowKept(history: seq<Charge>, clock: real, prunedAt: real, charges: seq<Charge>, cap: int) {
    Timed(history, clock) && prunedAt <= clock && charges == Recent(history, prunedAt) && CapHolds(history, cap)
  }

  lemma WindowLater(history: seq<Charge>, clock: real, later: real, prunedAt: real, charges: seq<Charge>, cap: int)
    requires WindowKept(history, clock, prunedAt, charges, cap) && clock <= later
    ensures WindowKept(history, later, prunedAt, charges, cap)
  {
  }

  lemma TimedGrows(history: seq<Charge>, clock: real, c: Charge)
    requires Timed(history, clock) && clock <= c.at && 0 <= c.bytes
    ensures Timed(history, c.at) && Timed(history + [c], c.at)
  {
  }

  lemma WindowGrows(history: seq<Charge>, clock: real, c: Charge, prunedAt: real, charges: seq<Charge>, cap: int)
    requires WindowKept(history, clock, prunedAt, charges, cap) && clock <= c.at && 0 <= c.bytes
    requires Total(charges) + c.bytes <= cap
    ensures WindowKept(history + [c], c.at, prunedAt, charges + [c], cap)
  {
    TimedGrows(history, clock, c);
    AdmissionKeepsCap(history, c, prunedAt, cap);
    RecentAppend(history, c, prunedAt);
  }

  lemma RemoveSize(m: map<Pid, real>, pid: Pid)
    requires pid in m
    ensures (m - {pid}).Keys == m.Keys - {pid} && |m - {pid}| == |m| - 1
  {
  }

  datatype Block = ReservationLimit | WindowLimit

  /** The reservation of n live workers. */
  function Held(budget: int, n: nat): int { if n == 0 then 0 else Held(budget, n - 1) + budget }

  lemma {:induction false} HeldIsProduct(budget: int, n: nat)
    ensures Held(budget, n) == budget * n
  {
    if n > 0 { HeldIsProduct(budget, n - 1); }
  }

  lemma HeldNonnegative(budget: int, n: nat)
    requires 0 <= budget
    ensures 0 <= Held(budget, n)
  {
    HeldIsProduct(budget, n);
  }

  class Watcher {
    var procs: seq<Proc>
    var zombies: set<Pid>
    var leaked: map<Pid, real>
    var reserved: int
    var charges: seq<Charge>
    var expansionUsed: int
    const budget: int
    const windowBytes: int

    ghost var history: seq<Charge>   // every charge ever made
    ghost var prunedAt: real         // when charges was last pruned
    ghost var clock: real            // the latest clock reading
    ghost var live: nat              // workers that hold a reservation
    ghost var spawned: nat
    ghost var released: nat

    function Slots(): nat
      reads this`procs, this`leaked
    {
      |procs| + |leaked|
    }

    /** Every live worker holds one reservation and one slot, and only live workers do. */
    ghost predicate Accounted()
      reads this`procs, this`zombies, this`leaked, this`reserved, this`live, this`spawned, this`released
    {
      && 0 < budget && 0 < windowBytes
      && Tracked(procs, zombies, leaked)
      && live == Slots() && reserved == Held(budget, live)
      && spawned == released + live
    }

    ghost predicate Windowed()
      reads this`history, this`clock, this`prunedAt, this`charges
    {
      WindowKept(history, clock, prunedAt, charges, windowBytes)
    }

    ghost predicate Valid()
      reads this
    {
      Accounted() && Windowed() && Slots() <= MAX_CONCURRENT
    }

    constructor (budget: int, windowBytes: int, now: real)
      requires 0 < budget && 0 < windowBytes
      ensures Valid() && procs == [] && leaked == map[] && history == [] && spawned == 0
      ensures this.budget == budget && this.windowBytes == windowBytes && clock == now
    {
      this.budget, this.windowBytes := budget, windowBytes;
      procs, zombies, leaked, reserved, charges, expansionUsed := [], {}, map[], 0, [], 0;
      history, prunedAt, clock, live, spawned, released := [], now, now, 0, 0, 0;
    }

    method WindowUsed(now: real) returns (used: int)
      requires Windowed() && clock <= now
      modifies this`charges, this`prunedAt, this`clock
      ensures Windowed() && prunedAt == clock == now
      ensures used == Total(Recent(history, now))
    {
      PruneAgain(history, prunedAt, now);
      var kept;
      kept, used := Prune(charges, now);
      charges := kept;
      prunedAt, clock := now, now;
    }

    ghost method Advance(now: real)
      requires Windowed() && clock <= now
      modifies this`clock
      ensures Windowed() && clock == now
    {
      WindowLater(history, clock, now, prunedAt, charges, windowBytes);
      clock := now;
    }

    /** Why the next worker may not start now, if so. */
    method BudgetBlock(now: real) returns (block: Option<Block>)
      requires Valid() && clock <= now
      modifies this`charges, this`prunedAt, this`clock
      ensures Valid() && clock == now
      ensures block == BlockAt(budget, windowBytes, old(reserved), history, now)
      ensures block == None ==> prunedAt == now
    {
      if reserved + budget > MAX_CONCURRENT * budget {
        Advance(now);
        return Some(ReservationLimit);
      }
      var used := WindowUsed(now);
      return if used + budget > windowBytes then Some(WindowLimit) else None;
    }

    /** Starts a worker; the forked process id is not one that is still tracked. */
    method Spawn(pid: Pid, now: real, later: real)
      requires Valid() && Slots() < MAX_CONCURRENT && pid !in Pids(procs) && pid !in leaked
      requires clock <= now <= later
      requires Total(Recent(history, prunedAt)) + budget <= windowBytes
      modifies this
      ensures Valid() && clock == later
      ensures procs == old(procs) + [Proc(pid, now)] && leaked == old(leaked)
      ensures history == old(history) + [Charge(later, budget)]
      ensures spawned == old(spawned) + 1 && released == old(released)
    {
      var c := Charge(later, budget);
      WindowGrows(history, clock, c, prunedAt, charges, windowBytes);
      ProcsAppend(procs, Proc(pid, now));
      procs := procs + [Proc(pid, now)];
      reserved := reserved + budget;
      charges := charges + [c];
      history, clock, live, spawned := history + [c], later, live + 1, spawned + 1;
    }

    /**
      The admission loop: starts workers from the queue while every guard lets it.  Each round reads the
      clock three times: for the budget, for the worker's start and for its charge.
    */
    method Admit(queued: nat, diskOk: nat -> bool, fork: set<Pid> -> Pid, reading: nat -> real) returns (left: nat)
      requires Valid() && clock <= reading(0)
      requires forall i, j :: 0 <= i <= j ==> reading(i) <= reading(j)
      requires forall s :: fork(s) !in s
      modifies this
      ensures Valid() && left <= queued && spawned == old(spawned) + (queued - left)
      ensures old(history) <= history && leaked == old(leaked) && released == old(released)
      ensures left > 0 ==> Slots() == MAX_CONCURRENT || !diskOk(left)
                           || BlockAt(budget, windowBytes, reserved, history, clock).Some?
    {
      left := queued;
      var n := 0;
      while left > 0 && Slots() < MAX_CONCURRENT
        invariant Valid() && clock <= reading(n) && left <= queued && spawned == old(spawned) + (queued - left)
        invariant old(history) <= history && leaked == old(leaked) && released == old(released)
        decreases left
      {
        var block := BudgetBlock(reading(n));
        if block.Some? || !diskOk(left) { return; }
        Spawn(fork(Pids(procs) + leaked.Keys), reading(n + 1), reading(n + 2));
        left := left - 1;
        n := n + 3;
      }
    }

    /** Gives one reservation back; the clamp at zero never takes effect. */
    method Release(pid: Pid, grew: Option<nat>)
      requires 0 < budget && 0 < live && reserved == Held(budget, live)
      modifies this`leaked, this`reserved, this`expansionUsed, this`released, this`live
      ensures leaked == if pid in old(leaked) then old(leaked) - {pid} else old(leaked)
      ensures live == old(live) - 1 && reserved == Held(budget, live) == old(reserved) - budget
      ensures expansionUsed == old(expansionUsed) + (match grew case Some(n) => n case None => 0)
      ensures released == old(released) + 1
    {
      HeldNonnegative(budget, live - 1);
      if pid in leaked {
        leaked := leaked - {pid};
      }
      reserved := if 0 < reserved - budget then reserved - budget else 0;
      if grew.Some? {
        expansionUsed := expansionUsed + grew.value;
      }
      live, released := live - 1, released + 1;
    }

    method ReapZombies(a: Answers)
      requires Accounted()
      modifies this`zombies, this`leaked, this`reserved, this`expansionUsed, this`released, this`live
      ensures Accounted() && expansionUsed == old(expansionUsed)
      ensures leaked.Keys == Unreaped(old(leaked), a)
      ensures |leaked| <= |old(leaked)|
    {
      ghost var was := leaked;
      var todo := zombies;
      while todo != {}
        invariant Accounted() && todo <= zombies && expansionUsed == old(expansionUsed)
        invariant zombies == set pid | pid in was && (pid in todo || a.zombie(pid) == StillRunning)
        decreases todo
      {
        var pid :| pid in todo;
        todo := todo - {pid};
        if a.zombie(pid) != StillRunning {
          RemoveSize(leaked, pid);
          zombies := zombies - {pid};
          Release(pid, None);
        }
      }
      assert leaked.Keys == zombies;
      SubsetSize(leaked.Keys, was.Keys);
    }

    /** Looks at one worker; one that is neither still running nor leaked gives its reservation back. */
    method PumpOne(p: Proc, a: Answers, now: real) returns (stays: bool)
      requires 0 < budget && 0 < live && reserved == Held(budget, live)
      requires p.pid !in leaked && zombies == leaked.Keys
      modifies this`zombies, this`leaked, this`reserved, this`expansionUsed, this`released, this`live
      ensures stays == Stays(p, a, now) && zombies == leaked.Keys
      ensures leaked == if Leaks(p, a, now) then old(leaked)[p.pid := now] else old(leaked)
      ensures live == old(live) - (if Frees(p, a, now) then 1 else 0) && reserved == Held(budget, live)
      ensures released == old(released) + if Frees(p, a, now) then 1 else 0
      ensures expansionUsed == old(expansionUsed) + match a.read(p.pid) case Report(Some(n)) => n case _ => 0
    {
      stays := false;
      match a.read(p.pid) {
        case NoData =>
          if TimedOut(p, now) {
            if a.killed(p.pid) != StillRunning {
              Release(p.pid, None);
            } else {
              assert leaked[p.pid := now].Keys == leaked.Keys + {p.pid};
              zombies := zombies + {p.pid};
              leaked := leaked[p.pid := now];
            }
          } else {
            stays := true;
          }
        case Report(grew) =>
          Release(p.pid, grew);
      }
    }

    method Collect(a: Answers, now: real) returns (still: seq<Proc>, progressed: bool)
      requires Accounted()
      modifies this`zombies, this`leaked, this`reserved, this`expansionUsed, this`released, this`live
      ensures still == Staying(procs, a, now) && (progressed <==> AnyReport(procs, a))
      ensures leaked == LeakedBy(procs, old(leaked), a, now) && zombies == leaked.Keys
      ensures live == old(live) - Freed(procs, a, now) && reserved == Held(budget, live)
      ensures released == old(released) + Freed(procs, a, now)
      ensures expansionUsed == old(expansionUsed) + Grown(procs, a)
    {
      var all := procs;
      ghost var was := leaked;
      still, progressed := [], false;
      ghost var seen := [];
      for i := 0 to |all|
        invariant seen == all[..i]
        invariant still == Staying(seen, a, now) && (progressed <==> AnyReport(seen, a))
        invariant leaked == LeakedBy(seen, was, a, now) && zombies == leaked.Keys
        invariant live == old(live) - Freed(seen, a, now) && reserved == Held(budget, live)
        invariant released == old(released) + Freed(seen, a, now)
        invariant expansionUsed == old(expansionUsed) + Grown(seen, a)
      {
        PrefixStep(all, i, seen, was, a, now);
        seen := seen + [all[i]];
        var stays := PumpOne(all[i], a, now);
        if stays { still := still + [all[i]]; }
        if a.read(all[i].pid).Report? { progressed := true; }
      }
      assert all[..|all|] == all;
    }

    /** Replaces the worker list by those that stay. */
    method KeepStaying(a: Answers, now: real) returns (active: bool)
      requires Accounted() && Slots() <= MAX_CONCURRENT
      modifies this`procs, this`zombies, this`leaked, this`reserved, this`expansionUsed, this`released, this`live
      ensures Accounted() && Slots() <= MAX_CONCURRENT
      ensures procs == Staying(old(procs), a, now)
      ensures leaked.Keys == old(leaked.Keys) + Leaking(old(procs), a, now)
      ensures expansionUsed == old(expansionUsed) + Grown(old(procs), a)
      ensures active <==> procs != [] || AnyReport(old(procs), a)
    {
      PumpOutcome(procs, leaked, a, now);
      var still, progressed := Collect(a, now);
      procs := still;
      active := still != [] || progressed;
    }

    /**
      One pump: reaps, collects finished workers, kills the overdue.  A worker that was killed but
      not reaped keeps its slot and reservation; the admission window is not touched.
    */
    method Pump(a: Answers, now: real) returns (active: bool)
      requires Accounted() && Slots() <= MAX_CONCURRENT
      modifies this`procs, this`zombies, this`leaked, this`reserved, this`expansionUsed, this`released, this`live
      ensures Accounted() && Slots() <= MAX_CONCURRENT
      ensures procs == Staying(old(procs), a, now)
      ensures leaked.Keys == Unreaped(old(leaked), a) + Leaking(old(procs), a, now)
      ensures expansionUsed == old(expansionUsed) + Grown(old(procs), a)
      ensures active <==> procs != [] || AnyReport(old(procs), a)
      ensures forall p :: p in old(procs) && a.read(p.pid) == NoData && now - p.since <= 60.0 ==>
                p in procs && p.pid !in leaked
      ensures forall p :: p in old(procs) && a.read(p.pid) == NoData && 60.0 < now - p.since ==>
                p !in procs && (p.pid in leaked <==> a.killed(p.pid) == StillRunning)
      ensures forall p :: p in old(procs) && a.read(p.pid).Report? ==> p !in procs && p.pid !in leaked
      ensures forall pid :: pid in old(leaked) ==> (pid in leaked <==> a.zombie(pid) == StillRunning)
      ensures (forall p :: p in procs ==> p in old(procs)) && leaked.Keys <= old(leaked).Keys + Pids(old(procs))
    {
      ReapZombies(a);
      ghost var all, waiting := procs, leaked;
      active := KeepStaying(a, now);
      LeakingWithin(all, a, now);
      forall p | p in all ensures p.pid in Pids(all) {}
      forall p | p in all
        ensures a.read(p.pid) == NoData && now - p.since <= 60.0 ==> p in procs && p.pid !in leaked
        ensures a.read(p.pid) == NoData && 60.0 < now - p.since ==>
                  p !in procs && (p.pid in leaked <==> a.killed(p.pid) == StillRunning)
        ensures a.read(p.pid).Report? ==> p !in procs && p.pid !in leaked
      {
        WorkerFate(all, a, now, p);
        assert p.pid !in waiting;
      }
    }
  }

  /** The admission decision in terms of everything ever admitted. */
  function BlockAt(budget: int, windowBytes: int, reserved: int, history: seq<Charge>, now: real): Option<Block> {
    if reserved + budget > MAX_CONCURRENT * budget then Some(ReservationLimit)
    else if Total(Recent(history, now)) + budget > windowBytes then Some(WindowLimit)
    else None
  }

  lemma {:induction false} RecentIsLastTenMinutes(history: seq<Charge>, clock: real, now: real)
    requires Timed(history, clock) && clock <= now
    ensures Total(Recent(history, now)) == Admitted(history, now - 600.0)
  {
    if history != [] {
      var init, last := history[..|history| - 1], history[|history| - 1];
      assert forall i :: 0 <= i < |init| ==> init[i] == history[i];
      RecentIsLastTenMinutes(init, clock, now);
      TotalAppend(Recent(init, now), last);
    }
  }

  /** Admission is open exactly if a slot is free and the last ten minutes leave room for one more budget. */
  lemma OpenExactly(budget: int, windowBytes: int, slots: nat, history: seq<Charge>, now: real)
    requires 0 < budget && Timed(history, now)
    ensures BlockAt(budget, windowBytes, Held(budget, slots), history, now).None? <==>
              slots < 2 && Admitted(history, now - 600.0) + budget <= windowBytes
  {
    RecentIsLastTenMinutes(history, now, now);
    HeldIsProduct(budget, slots);
    if slots >= MAX_CONCURRENT { MoreSlots(budget, slots); }
  }

  /** With a free slot the reservation limit never blocks: it repeats the slot limit. */
  lemma FreeSlotFitsReservation(budget: int, windowBytes: int, slots: nat, history: seq<Charge>, now: real)
    requires 0 < budget && slots < MAX_CONCURRENT
    ensures BlockAt(budget, windowBytes, Held(budget, slots), history, now) != Some(ReservationLimit)
  {
  }

  /**
    Nothing but workers that are not reaped, and a budget that does not fit, keeps the watcher blocked:
    after a quiet window admission is open exactly if a slot is free and one file's budget fits the
    window.
  */
  lemma NeverFusedExactly(budget: int, windowBytes: int, slots: nat, history: seq<Charge>, now: real)
    requires 0 < budget
    requires forall i :: 0 <= i < |history| ==> history[i].at < now - WINDOW_SECONDS
    ensures BlockAt(budget, windowBytes, Held(budget, slots), history, now).None? <==>
              slots < MAX_CONCURRENT && budget <= windowBytes
  {
    QuietIsEmpty(history, now);
    HeldIsProduct(budget, slots);
    if slots >= MAX_CONCURRENT { MoreSlots(budget, slots); }
  }

  lemma MoreSlots(budget: int, slots: nat)
    requires 0 < budget && MAX_CONCURRENT <= slots
    ensures MAX_CONCURRENT * budget <= budget * slots
  {
  }

  /** A larger budget never admits anything, whenever it is asked. */
  lemma OversizedNeverAdmits(budget: int, windowBytes: int, reserved: int, history: seq<Charge>, now: real)
    requires windowBytes < budget && Timed(history, now)
    ensures BlockAt(budget, windowBytes, reserved, history, now).Some?
  {
    RecentNonnegative(history, now, now);
  }

  lemma {:induction false} RecentNonnegative(history: seq<Charge>, clock: real, now: real)
    requires Timed(history, clock)
    ensures 0 <= Total(Recent(history, now))
  {
    WindowWithinRecent(history, clock, now, now);
  }
}

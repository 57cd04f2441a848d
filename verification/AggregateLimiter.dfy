/**
  The aggregate pacing limiter of the streaming relay: all streams of one
  member share a single virtual departure clock, and the lowest rate that has
  joined governs.  Time is real; a rate is in bytes per second.

  The class is the limiter; `Member` is what one key of it looks like together
  with the history the throughput bound talks about.
*/
module AggregateLimiter {
  import opened Numbers
  import opened Wrappers

  const DEFAULT_RATE := 15_000_000
  const CHUNK := 16 * 1024

  type Key = string
  type Token = nat
  type Rates = map<Token, int>

  /** One key's bookkeeping: the rates that joined and the next departure time. */
  datatype Entry = Entry(rates: Rates, next: real)

  // ---------------------------------------------------------------- rates

  ghost predicate IsLowest(rates: Rates, r: int) {
    (exists t :: t in rates && rates[t] == r) && forall t :: t in rates ==> r <= rates[t]
  }

  /** The rate in force: the least that has joined. */
  ghost function LowestRate(rates: Rates): (r: int)
    requires rates != map[]
    ensures IsLowest(rates, r)
    decreases |rates|
  {
    var t :| t in rates;
    var rest := rates - {t};
    if rest == map[] then
      assert forall u :: u in rates && u != t ==> u in rest;
      rates[t]
    else
      assert |rest.Keys| < |rates.Keys| by { assert rest.Keys == rates.Keys - {t}; }
      var m := LowestRate(rest);
      assert forall u :: u in rates ==> u == t || u in rest;
      if m < rates[t] then m else rates[t]
  }

  lemma LowestIsUnique(rates: Rates, a: int, b: int)
    requires IsLowest(rates, a) && IsLowest(rates, b)
    ensures a == b
  {
  }

  predicate IsDigit(c: char) { '0' <= c <= '9' }

  function Decimal(s: string): nat
    requires forall c :: c in s ==> IsDigit(c)
  {
    if s == "" then 0
    else
      var last := s[|s| - 1];
      assert IsDigit(last);
      10 * Decimal(s[..|s| - 1]) + (last as int - '0' as int)
  }

  /** The rate header: one to nineteen digits; zero stands for the ordinary baseline. */
  function ParseRate(value: string): (r: Result<int, string>)
    ensures r.Ok? <==> 1 <= |value| <= 19 && forall c :: c in value ==> IsDigit(c)
    ensures r.Ok? ==> 1 <= r.value && (r.value == Decimal(value) || (Decimal(value) == 0 && r.value == DEFAULT_RATE))
  {
    if 1 <= |value| <= 19 && forall c :: c in value ==> IsDigit(c) then
      var amount := Decimal(value);
      Ok(if amount == 0 then DEFAULT_RATE else amount)
    else
      Err("invalid rate")
  }

  /** How a number is written, without leading zeros. */
  function Digits(n: nat): (s: string)
    ensures s != "" && forall c :: c in s ==> IsDigit(c)
  {
    var last := [('0' as int + n % 10) as char];
    if n < 10 then last else Digits(n / 10) + last
  }

  function PowerOfTen(k: nat): int { if k == 0 then 1 else 10 * PowerOfTen(k - 1) }

  lemma {:induction false} DigitsMean(n: nat, k: nat)
    requires 1 <= k && n < PowerOfTen(k)
    ensures Decimal(Digits(n)) == n && |Digits(n)| <= k
    decreases n
  {
    if n >= 10 {
      assert k > 1 && n / 10 < PowerOfTen(k - 1);
      DigitsMean(n / 10, k - 1);
      assert Digits(n)[..|Digits(n)| - 1] == Digits(n / 10);
    } else {
      assert Digits(n)[..0] == "";
    }
  }

  /** Every positive rate of up to nineteen digits is read back from how it is written, zero as the baseline. */
  lemma RateRoundTrip(n: nat)
    requires n < PowerOfTen(19)
    ensures ParseRate(Digits(n)) == Ok(if n == 0 then DEFAULT_RATE else n)
  {
    DigitsMean(n, 19);
  }

  // ---------------------------------------------------------------- transitions of one entry

  function Joined(entry: Option<Entry>, token: Token, rate: int, now: real): Entry {
    match entry
    case None => Entry(map[token := rate], now)
    case Some(e) => e.(rates := e.rates[token := rate])
  }

  function Departed(entry: Entry, token: Token): Option<Entry> {
    var rest := entry.rates - {token};
    if rest == map[] then None else Some(entry.(rates := rest))
  }

  ghost function Reserved(entry: Entry, size: int, now: real): Entry
    requires entry.rates != map[] && LowestRate(entry.rates) > 0
  {
    entry.(next := Later(now, entry.next) + size as real / LowestRate(entry.rates) as real)
  }

  ghost predicate ValidEntry(e: Entry) {
    e.rates != map[] && forall t :: t in e.rates ==> 1 <= e.rates[t]
  }

  /** A lower rate that joins and leaves again leaves no trace on the others' budget. */
  lemma JoinThenLeave(entry: Entry, token: Token, rate: int, now: real)
    requires ValidEntry(entry) && token !in entry.rates && 1 <= rate
    ensures Departed(Joined(Some(entry), token, rate, now), token) == Some(entry)
    ensures var e := Joined(Some(entry), token, rate, now);
            LowestRate(e.rates) == if rate < LowestRate(entry.rates) then rate else LowestRate(entry.rates)
  {
    var e := Joined(Some(entry), token, rate, now);
    assert e.rates - {token} == entry.rates;
    var low := LowestRate(entry.rates);
    var want := if rate < low then rate else low;
    assert IsLowest(e.rates, want) by {
      if want == rate {
        assert e.rates[token] == rate;
      } else {
        var t :| t in entry.rates && entry.rates[t] == low;
        assert e.rates[t] == low;
      }
    }
    LowestIsUnique(e.rates, want, LowestRate(e.rates));
  }

  // ---------------------------------------------------------------- the limiter itself

  class Limiter {
    var members: map<Key, Entry>

    ghost predicate Valid()
      reads this
    {
      forall k :: k in members ==> ValidEntry(members[k])
    }

    function View(key: Key): Option<Entry>
      reads this
    {
      if key in members then Some(members[key]) else None
    }

    constructor ()
      ensures Valid() && members == map[]
    {
      members := map[];
    }

    method Join(key: Key, rate: int, token: Token, now: real)
      requires Valid() && 1 <= rate
      requires key in members ==> token !in members[key].rates
      modifies this
      ensures Valid()
      ensures members == old(members)[key := Joined(old(View(key)), token, rate, now)]
    {
      if key !in members {
        var rates := map[token := rate];
        assert token in rates;
        members := members[key := Entry(rates, now)];
      } else {
        var e := members[key];
        members := members[key := e.(rates := e.rates[token := rate])];
      }
    }

    method Leave(key: Key, token: Token)
      requires Valid() && key in members && token in members[key].rates
      modifies this
      ensures Valid()
      ensures View(key) == Departed(old(members[key]), token)
      ensures members - {key} == old(members) - {key}
    {
      var e := members[key];
      var rest := e.rates - {token};
      members := members[key := e.(rates := rest)];
      if rest == map[] {
        members := members - {key};
      }
    }

    /** Assigns the next departure time; the caller sleeps until then. */
    method Reserve(key: Key, size: int, now: real) returns (departure: real)
      requires Valid() && key in members && 0 <= size
      modifies this
      ensures Valid()
      ensures departure == Later(now, old(members[key]).next)
      ensures members == old(members)[key := Reserved(old(members[key]), size, now)]
    {
      var e := members[key];
      var rate := Lowest(e.rates);
      departure := if now < e.next then e.next else now;
      members := members[key := e.(next := departure + size as real / rate as real)];
    }

    method Lowest(rates: Rates) returns (r: int)
      requires rates != map[]
      ensures r == LowestRate(rates)
    {
      var t :| t in rates;
      r := rates[t];
      var todo := rates.Keys - {t};
      while todo != {}
        invariant todo <= rates.Keys
        invariant exists u :: u in rates && rates[u] == r
        invariant forall u :: u in rates && u !in todo ==> r <= rates[u]
        decreases todo
      {
        var u :| u in todo;
        if rates[u] < r { r := rates[u]; }
        todo := todo - {u};
      }
      LowestIsUnique(rates, r, LowestRate(rates));
    }

    /** The largest read that the rate in force passes in ten milliseconds, at least a byte. */
    method Quantum(key: Key) returns (q: int)
      requires Valid() && key in members
      ensures 1 <= q <= CHUNK
      ensures q == 1 || 100 * q <= LowestRate(members[key].rates)
      ensures forall p :: q < p <= CHUNK ==> LowestRate(members[key].rates) < 100 * p
    {
      var low := Lowest(members[key].rates);
      q := low / 100;
      if q < 1 { q := 1; }
      if CHUNK < q { q := CHUNK; }
    }
  }

  // ---------------------------------------------------------------- one key over a whole run

  /**
    A reserved chunk: when it was asked for and when it departs, its size, the rate in force, its thread
    and the entry's lifetime.
  */
  datatype Slot = Slot(asked: real, departure: real, size: int, rate: int, token: Token, life: nat)

  datatype Member = Member(
    entry: Option<Entry>,
    clock: real,              // the latest clock reading
    awake: map<Token, real>,  // when the thread that holds the token last slept until
    log: seq<Slot>,           // every reservation so far, in order
    life: nat)                // how often the entry has been created

  datatype Event =
    | Join(token: Token, rate: int, now: real)
    | Reserve(token: Token, size: int, now: real)
    | Leave(token: Token, now: real)

  function Start(clock: real): Member { Member(None, clock, map[], [], 0) }

  ghost predicate Holds(m: Member, token: Token) {
    m.entry.Some? && token in m.entry.value.rates
  }

  /**
    What the relay loop lets happen next: tokens are fresh objects, rates and reads are positive, a
    thread reserves and leaves only under its own token and only after it slept until its last departure.
  */
  ghost predicate Enabled(m: Member, e: Event) {
    && m.clock <= e.now
    && match e
       case Join(token, rate, _) => !Holds(m, token) && 1 <= rate
       case Reserve(token, size, now) => Holds(m, token) && token in m.awake && m.awake[token] <= now && 1 <= size
       case Leave(token, now) => Holds(m, token) && token in m.awake && m.awake[token] <= now
  }

  ghost predicate Sound(m: Member) { m.entry.Some? ==> ValidEntry(m.entry.value) }

  ghost function Next(m: Member, e: Event): Member
    requires Sound(m) && (!e.Join? ==> Holds(m, e.token))
  {
    match e
    case Join(token, rate, now) =>
      m.(entry := Some(Joined(m.entry, token, rate, now)), clock := now, awake := m.awake[token := now],
         life := if m.entry.None? then m.life + 1 else m.life)
    case Reserve(token, size, now) =>
      var entry := m.entry.value;
      var departure := Later(now, entry.next);
      m.(entry := Some(Reserved(entry, size, now)), clock := now, awake := m.awake[token := departure],
         log := m.log + [Slot(now, departure, size, LowestRate(entry.rates), token, m.life)])
    case Leave(token, now) =>
      m.(entry := Departed(m.entry.value, token), clock := now)
  }

  ghost predicate IsRun(m: Member, es: seq<Event>)
    decreases |es|
  {
    es == [] || (Sound(m) && Enabled(m, es[0]) && IsRun(Next(m, es[0]), es[1..]))
  }

  ghost function After(m: Member, es: seq<Event>): Member
    requires IsRun(m, es)
    decreases |es|
  {
    if es == [] then m else After(Next(m, es[0]), es[1..])
  }

  // ---------------------------------------------------------------- the invariant of every run

  function Airtime(s: Slot): real
    requires s.rate != 0
  {
    s.size as real / s.rate as real
  }

  ghost predicate GoodAt(log: seq<Slot>, i: nat)
    requires i < |log|
  {
    1 <= log[i].rate && 1 <= log[i].size
  }

  /**
    When reservation i departs: an airtime after the one before it or, if that has passed or the entry
    is new, at once.
  */
  ghost predicate PacedAt(log: seq<Slot>, i: nat)
    requires i < |log| && (i > 0 ==> log[i - 1].rate != 0)
  {
    if i > 0 && log[i - 1].life == log[i].life
    then log[i].departure == Later(log[i].asked, log[i - 1].departure + Airtime(log[i - 1]))
    else log[i].departure == log[i].asked && (i > 0 ==> log[i - 1].departure <= log[i].departure)
  }

  ghost predicate Paced(log: seq<Slot>) {
    && (forall i {:trigger GoodAt(log, i)} :: 0 <= i < |log| ==> GoodAt(log, i))
    && (forall i {:trigger PacedAt(log, i)} :: 0 <= i < |log| ==> (i > 0 ==> GoodAt(log, i - 1)) && PacedAt(log, i))
  }

  /** The entry's clock is exactly one airtime past the last departure of its lifetime, or not ahead at all. */
  ghost predicate NextIsExact(next: real, log: seq<Slot>, life: nat, clock: real) {
    if log != [] && log[|log| - 1].life == life
    then GoodAt(log, |log| - 1) && next == log[|log| - 1].departure + Airtime(log[|log| - 1])
    else next <= clock && (log != [] ==> log[|log| - 1].departure <= next)
  }

  /** A chunk has departed, or the thread that sleeps until it departs has not left. */
  ghost predicate Past(m: Member, s: Slot) {
    s.departure <= m.clock || (Holds(m, s.token) && s.token in m.awake && s.departure <= m.awake[s.token])
  }

  ghost predicate Covered(m: Member) {
    forall i :: 0 <= i < |m.log| ==> m.log[i].life <= m.life && Past(m, m.log[i])
  }

  ghost predicate Inv(m: Member) {
    && Paced(m.log) && Covered(m)
    && (m.entry.Some? ==>
          && ValidEntry(m.entry.value)
          && (forall t :: t in m.entry.value.rates ==> t in m.awake)
          && NextIsExact(m.entry.value.next, m.log, m.life, m.clock))
  }

  lemma InvInitially(clock: real)
    ensures Inv(Start(clock))
  {
  }

  lemma JoinKeepsInv(m: Member, e: Event)
    requires Inv(m) && e.Join? && Enabled(m, e)
    ensures Inv(Next(m, e))
  {
    var n := Next(m, e);
    assert e.token in n.entry.value.rates;
    forall i | 0 <= i < |m.log| ensures Past(n, m.log[i]) {
      assert Past(m, m.log[i]);
    }
    if m.log != [] {
      var last := m.log[|m.log| - 1];
      assert last.life <= m.life && Past(m, last);
      if m.entry.None? { assert last.departure <= e.now; }
    }
  }

  lemma ReserveKeepsInv(m: Member, e: Event)
    requires Inv(m) && e.Reserve? && Enabled(m, e)
    ensures Inv(Next(m, e))
  {
    var n := Next(m, e);
    var entry := m.entry.value;
    assert IsLowest(entry.rates, LowestRate(entry.rates));
    forall i | 0 <= i < |n.log|
      ensures n.log[i].life <= n.life && Past(n, n.log[i])
      ensures GoodAt(n.log, i)
    {
      if i < |m.log| { assert GoodAt(m.log, i) && n.log[i] == m.log[i] && Past(m, m.log[i]); }
    }
    forall i | 0 <= i < |n.log| ensures (i > 0 ==> GoodAt(n.log, i - 1)) && PacedAt(n.log, i) {
      if i > 0 { assert GoodAt(m.log, i - 1) && n.log[i - 1] == m.log[i - 1]; }
      if i < |m.log| { assert PacedAt(m.log, i) && n.log[i] == m.log[i]; }
    }
  }

  lemma LeaveKeepsInv(m: Member, e: Event)
    requires Inv(m) && e.Leave? && Enabled(m, e)
    ensures Inv(Next(m, e))
  {
    var n := Next(m, e);
    forall i | 0 <= i < |m.log| ensures Past(n, m.log[i]) {
      assert Past(m, m.log[i]);
      if m.log[i].token != e.token {
        assert Holds(m, m.log[i].token) ==> m.log[i].token in m.entry.value.rates - {e.token};
      }
    }
  }

  lemma StepKeepsInv(m: Member, e: Event)
    requires Inv(m) && Enabled(m, e)
    ensures Inv(Next(m, e))
  {
    match e
    case Join(_, _, _) => JoinKeepsInv(m, e);
    case Reserve(_, _, _) => ReserveKeepsInv(m, e);
    case Leave(_, _) => LeaveKeepsInv(m, e);
  }

  lemma {:induction false} RunKeepsInv(m: Member, es: seq<Event>)
    requires Inv(m) && IsRun(m, es)
    ensures Inv(After(m, es))
    decreases |es|
  {
    if es != [] {
      StepKeepsInv(m, es[0]);
      RunKeepsInv(Next(m, es[0]), es[1..]);
    }
  }

  // ---------------------------------------------------------------- departures are exact

  /**
    No idle credit, no waste: over any run, whatever joins and leaves in between, a reservation departs
    exactly one airtime after the one before it in the entry's lifetime or, if that has passed or there
    is none, at the moment it is asked for.
  */
  lemma DeparturesAreExact(clock: real, es: seq<Event>, i: nat)
    requires IsRun(Start(clock), es) && i < |After(Start(clock), es).log|
    ensures var log := After(Start(clock), es).log;
            && (i > 0 ==> 1 <= log[i - 1].rate)
            && log[i].departure ==
                 if i > 0 && log[i - 1].life == log[i].life
                 then Later(log[i].asked, log[i - 1].departure + Airtime(log[i - 1])) else log[i].asked
  {
    InvInitially(clock);
    RunKeepsInv(Start(clock), es);
    var log := After(Start(clock), es).log;
    if i > 0 { assert GoodAt(log, i - 1); }
    assert PacedAt(log, i);
  }

  /** Reservation k was asked for while the entry's clock was not behind, in the lifetime of the one before. */
  ghost predicate BacklogAt(log: seq<Slot>, k: nat)
    requires 0 < k < |log|
  {
    && log[k - 1].rate != 0 && log[k - 1].life == log[k].life
    && log[k].asked <= log[k - 1].departure + Airtime(log[k - 1])
  }

  ghost predicate Backlogged(log: seq<Slot>, i: nat, j: nat)
    requires i <= j < |log|
  {
    forall k :: i < k <= j ==> BacklogAt(log, k)
  }

  ghost predicate RateAt(log: seq<Slot>, k: nat, rate: int)
    requires k < |log|
  {
    log[k].rate == rate
  }

  ghost predicate AtRate(log: seq<Slot>, i: nat, j: nat, rate: int)
    requires i <= j < |log|
  {
    forall k :: i <= k < j ==> RateAt(log, k, rate)
  }

  function Bytes(log: seq<Slot>, i: nat, j: nat): int
    requires i <= j < |log|
    decreases j
  {
    log[j].size + if i == j then 0 else Bytes(log, i, j - 1)
  }

  lemma RateTimesAirtime(s: Slot)
    requires 1 <= s.rate
    ensures s.rate as real * Airtime(s) == s.size as real
  {
  }

  lemma Distribute(r: real, a: real, b: real)
    ensures r * (a + b) == r * a + r * b
  {
  }

  lemma {:induction false} BackloggedSpan(log: seq<Slot>, i: nat, j: nat, rate: int)
    requires Paced(log) && i <= j < |log| && Backlogged(log, i, j) && AtRate(log, i, j, rate)
    ensures (Bytes(log, i, j) - log[j].size) as real == rate as real * (log[j].departure - log[i].departure)
    decreases j
  {
    if i == j {
      assert rate as real * 0.0 == 0.0;
    } else {
      assert GoodAt(log, j - 1) && PacedAt(log, j) && BacklogAt(log, j) && RateAt(log, j - 1, rate);
      BackloggedSpan(log, i, j - 1, rate);
      var a := log[j - 1];
      RateTimesAirtime(a);
      Distribute(rate as real, a.departure - log[i].departure, Airtime(a));
    }
  }

  /** While the key stays backlogged at one rate, exactly that rate departs: the bytes before the last chunk fill the span. */
  lemma BackloggedIsExact(clock: real, es: seq<Event>, i: nat, j: nat, rate: int)
    requires IsRun(Start(clock), es) && i <= j < |After(Start(clock), es).log|
    requires Backlogged(After(Start(clock), es).log, i, j) && AtRate(After(Start(clock), es).log, i, j, rate)
    ensures var log := After(Start(clock), es).log;
            (Bytes(log, i, j) - log[j].size) as real == rate as real * (log[j].departure - log[i].departure)
  {
    InvInitially(clock);
    RunKeepsInv(Start(clock), es);
    BackloggedSpan(After(Start(clock), es).log, i, j, rate);
  }

  ghost predicate SameLifeAt(log: seq<Slot>, k: nat)
    requires 0 < k < |log|
  {
    log[k - 1].life == log[k].life
  }

  ghost predicate OneLife(log: seq<Slot>, i: nat, j: nat)
    requires i <= j < |log|
  {
    forall k :: i < k <= j ==> SameLifeAt(log, k)
  }

  /** What departs before the last chunk fits the span at this rate, and fills it exactly if there is always a backlog. */
  ghost predicate FilledIfBacklogged(log: seq<Slot>, i: nat, j: nat, rate: int)
    requires i <= j < |log|
  {
    var sent, room := (Bytes(log, i, j) - log[j].size) as real, rate as real * (log[j].departure - log[i].departure);
    sent <= room && (sent == room <==> Backlogged(log, i, j))
  }

  lemma SpanGrows(rate: real, before: real, span: real, airtime: real, gap: real)
    requires 1.0 <= rate && airtime <= gap && before <= rate * span
    ensures before + rate * airtime <= rate * (span + gap)
    ensures before + rate * airtime == rate * (span + gap) <==> before == rate * span && gap == airtime
  {
    Distribute(rate, span, gap);
    Distribute(rate, airtime, gap - airtime);
    if airtime < gap { assert 0.0 < rate * (gap - airtime); }
  }

  lemma BacklogGrows(log: seq<Slot>, i: nat, j: nat)
    requires i < j < |log|
    ensures Backlogged(log, i, j) <==> Backlogged(log, i, j - 1) && BacklogAt(log, j)
  {
  }

  lemma {:induction false} SpanExactly(log: seq<Slot>, i: nat, j: nat, rate: int)
    requires Paced(log) && i <= j < |log| && OneLife(log, i, j) && AtRate(log, i, j, rate)
    ensures FilledIfBacklogged(log, i, j, rate)
    decreases j
  {
    if i == j {
      assert rate as real * 0.0 == 0.0;
    } else {
      assert GoodAt(log, j - 1) && PacedAt(log, j) && SameLifeAt(log, j) && RateAt(log, j - 1, rate);
      SpanExactly(log, i, j - 1, rate);
      BacklogGrows(log, i, j);
      var a := log[j - 1];
      RateTimesAirtime(a);
      SpanGrows(rate as real, (Bytes(log, i, j - 1) - a.size) as real, a.departure - log[i].departure,
                Airtime(a), log[j].departure - a.departure);
    }
  }

  /** Within one lifetime of the entry, at one rate, the bytes fill the span exactly if the key stays backlogged, and never overfill it. */
  lemma RateFilledExactly(clock: real, es: seq<Event>, i: nat, j: nat, rate: int)
    requires IsRun(Start(clock), es) && i <= j < |After(Start(clock), es).log|
    requires OneLife(After(Start(clock), es).log, i, j) && AtRate(After(Start(clock), es).log, i, j, rate)
    ensures FilledIfBacklogged(After(Start(clock), es).log, i, j, rate)
  {
    InvInitially(clock);
    RunKeepsInv(Start(clock), es);
    SpanExactly(After(Start(clock), es).log, i, j, rate);
  }

  // ---------------------------------------------------------------- the throughput bound

  /** How often the entry was deleted and created again between two reservations. */
  function Recreated(log: seq<Slot>, i: nat, j: nat): nat
    requires i <= j < |log|
    decreases j
  {
    if i == j then 0
    else Recreated(log, i, j - 1) + if log[j - 1].life == log[j].life then 0 else 1
  }

  lemma AirtimeAtTop(s: Slot, top: int)
    requires 1 <= s.rate <= top && 1 <= s.size
    ensures s.size as real <= top as real * Airtime(s)
  {
    var a := Airtime(s);
    assert s.rate as real * a == s.size as real;
    assert a >= 0.0;
    assert (top as real - s.rate as real) * a >= 0.0;
  }

  /** One more chunk: what it and the gap before it add to both sides. */
  lemma BoundStep(top: real, from: real, a: real, b: real, airtime: real, before: real, size: real, extra: real)
    requires 0.0 <= top && 0.0 <= airtime <= b - a
    requires before <= top * (a - from) + size + extra
    requires size <= top * airtime
    ensures before <= top * (b - from) + extra
  {
    assert top * airtime <= top * (b - a);
    assert top * (b - from) == top * (a - from) + top * (b - a);
  }

  lemma BoundAcross(top: real, from: real, a: real, b: real, before: real, size: real, extra: real)
    requires 0.0 <= top && a <= b
    requires before <= top * (a - from) + size + extra
    ensures before <= top * (b - from) + size + extra
  {
    assert 0.0 <= top * (b - a);
    assert top * (b - from) == top * (a - from) + top * (b - a);
  }

  /** What may depart from reservation i to j: the top rate over the span and one chunk a lifetime. */
  function Allowance(log: seq<Slot>, i: nat, j: nat, top: int, chunk: int): real
    requires i <= j < |log|
  {
    top as real * (log[j].departure - log[i].departure) + Chunks(chunk, 1 + Recreated(log, i, j))
  }

  function Chunks(chunk: int, n: nat): real { chunk as real * n as real }

  lemma OneMoreChunk(chunk: int, n: nat)
    ensures Chunks(chunk, n + 1) == Chunks(chunk, n) + chunk as real
  {
  }

  /** From reservation i to j no rate in force is above top and no chunk larger than chunk. */
  ghost predicate Within(log: seq<Slot>, i: nat, j: nat, top: int, chunk: int)
    requires i <= j < |log|
  {
    forall k :: i <= k <= j ==> WithinAt(log, k, top, chunk)
  }

  ghost predicate WithinAt(log: seq<Slot>, k: nat, top: int, chunk: int)
    requires k < |log|
  {
    log[k].rate <= top && log[k].size <= chunk
  }

  lemma {:induction false} PacedBound(log: seq<Slot>, i: nat, j: nat, top: int, chunk: int)
    requires Paced(log) && i <= j < |log| && Within(log, i, j, top, chunk)
    ensures (Bytes(log, i, j) - log[j].size + chunk) as real <= Allowance(log, i, j, top, chunk)
    decreases j
  {
    assert WithinAt(log, j, top, chunk);
    if i == j {
      assert top as real * (log[j].departure - log[i].departure) == 0.0;
      OneMoreChunk(chunk, 0);
    } else {
      assert WithinAt(log, j - 1, top, chunk);
      PacedBound(log, i, j - 1, top, chunk);
      var a, b := log[j - 1], log[j];
      var before := Bytes(log, i, j - 1) as real;
      var extra := Chunks(chunk, 1 + Recreated(log, i, j - 1)) - chunk as real;
      assert GoodAt(log, j - 1) && PacedAt(log, j);
      if a.life == b.life {
        AirtimeAtTop(a, top);
        BoundStep(top as real, log[i].departure, a.departure, b.departure, Airtime(a), before, a.size as real, extra);
      } else {
        BoundAcross(top as real, log[i].departure, a.departure, b.departure, before, a.size as real, extra);
        OneMoreChunk(chunk, 1 + Recreated(log, i, j - 1));
      }
    }
  }

  /**
    Over any run, the bytes that depart from one reservation to a later one are at most the highest
    rate that was in force times the time between, plus one chunk, plus one chunk for every time the
    entry was deleted and created in between.  Rates that joined without governing do not matter.
  */
  lemma ThroughputBound(clock: real, es: seq<Event>, top: int, chunk: int, i: nat, j: nat)
    requires IsRun(Start(clock), es) && i <= j < |After(Start(clock), es).log|
    requires Within(After(Start(clock), es).log, i, j, top, chunk)
    ensures var log := After(Start(clock), es).log; Bytes(log, i, j) as real <= Allowance(log, i, j, top, chunk)
  {
    InvInitially(clock);
    RunKeepsInv(Start(clock), es);
    var log := After(Start(clock), es).log;
    PacedBound(log, i, j, top, chunk);
    assert WithinAt(log, j, top, chunk);
  }

  /** The token stays joined. */
  ghost predicate Stays(es: seq<Event>, token: Token) {
    forall e :: e in es ==> !(e.Leave? && e.token == token)
  }

  ghost predicate Governed(log: seq<Slot>, from: nat, rate: int, life: nat) {
    from <= |log| && forall k :: from <= k < |log| ==> GovernedAt(log, k, rate, life)
  }

  ghost predicate GovernedAt(log: seq<Slot>, k: nat, rate: int, life: nat)
    requires k < |log|
  {
    log[k].rate <= rate && log[k].life == life
  }

  lemma StepGoverned(m: Member, e: Event, token: Token, from: nat)
    requires Inv(m) && Enabled(m, e) && Holds(m, token) && !(e.Leave? && e.token == token)
    requires Governed(m.log, from, m.entry.value.rates[token], m.life)
    ensures Holds(Next(m, e), token) && Next(m, e).entry.value.rates[token] == m.entry.value.rates[token]
    ensures Governed(Next(m, e).log, from, m.entry.value.rates[token], m.life) && Next(m, e).life == m.life
  {
    var rates, n := m.entry.value.rates, Next(m, e);
    match e
    case Join(_, _, _) =>
    case Leave(_, _) => assert token in m.entry.value.rates - {e.token};
    case Reserve(_, _, _) =>
      assert IsLowest(rates, LowestRate(rates));
      forall k | from <= k < |n.log| ensures GovernedAt(n.log, k, rates[token], m.life) {
        if k < |m.log| { assert GovernedAt(m.log, k, rates[token], m.life); }
      }
  }

  /** While a token stays joined its rate bounds the rate in force, and the entry lives on. */
  lemma {:induction false} JoinedGoverns(m: Member, es: seq<Event>, token: Token, from: nat)
    requires Inv(m) && IsRun(m, es) && Holds(m, token) && Stays(es, token)
    requires Governed(m.log, from, m.entry.value.rates[token], m.life)
    ensures Governed(After(m, es).log, from, m.entry.value.rates[token], m.life)
    decreases |es|
  {
    if es != [] {
      assert es[0] in es;
      StepGoverned(m, es[0], token, from);
      StepKeepsInv(m, es[0]);
      JoinedGoverns(Next(m, es[0]), es[1..], token, from);
    }
  }

  lemma {:induction false} NotRecreated(log: seq<Slot>, from: nat, rate: int, life: nat, i: nat, j: nat)
    requires Governed(log, from, rate, life) && from <= i <= j < |log|
    ensures Recreated(log, i, j) == 0
    decreases j
  {
    if i < j {
      assert GovernedAt(log, j - 1, rate, life) && GovernedAt(log, j, rate, life);
      NotRecreated(log, from, rate, life, i, j - 1);
    }
  }

  ghost predicate SizesAt(log: seq<Slot>, k: nat, chunk: int)
    requires k < |log|
  {
    log[k].size <= chunk
  }

  ghost predicate Sizes(log: seq<Slot>, i: nat, j: nat, chunk: int)
    requires i <= j < |log|
  {
    forall k :: i <= k <= j ==> SizesAt(log, k, chunk)
  }

  /** One rate over the time between two reservations, and one chunk. */
  function Share(log: seq<Slot>, i: nat, j: nat, rate: int, chunk: int): real
    requires i <= j < |log|
  {
    rate as real * (log[j].departure - log[i].departure) + chunk as real
  }

  lemma GovernedBound(log: seq<Slot>, from: nat, rate: int, life: nat, chunk: int, i: nat, j: nat)
    requires Paced(log) && Governed(log, from, rate, life) && from <= i <= j < |log| && Sizes(log, i, j, chunk)
    ensures Bytes(log, i, j) as real <= Share(log, i, j, rate, chunk)
  {
    forall k | i <= k <= j ensures WithinAt(log, k, rate, chunk) {
      assert GovernedAt(log, k, rate, life) && SizesAt(log, k, chunk);
    }
    PacedBound(log, i, j, rate, chunk);
    assert SizesAt(log, j, chunk);
    NotRecreated(log, from, rate, life, i, j);
    OneMoreChunk(chunk, 0);
  }

  lemma JoinedBoundFrom(m: Member, es: seq<Event>, token: Token, chunk: int, i: nat, j: nat)
    requires Inv(m) && IsRun(m, es) && Holds(m, token) && Stays(es, token)
    requires |m.log| <= i <= j < |After(m, es).log| && Sizes(After(m, es).log, i, j, chunk)
    ensures Bytes(After(m, es).log, i, j) as real <= Share(After(m, es).log, i, j, m.entry.value.rates[token], chunk)
  {
    JoinedGoverns(m, es, token, |m.log|);
    RunKeepsInv(m, es);
    GovernedBound(After(m, es).log, |m.log|, m.entry.value.rates[token], m.life, chunk, i, j);
  }

  /**
    The lowest rate governs: as long as one stream of rate r stays joined, whatever else joins, all
    streams together send at most r times the time between two reservations, plus one chunk.
  */
  lemma JoinedBound(clock: real, before: seq<Event>, es: seq<Event>, token: Token, chunk: int, i: nat, j: nat)
    requires IsRun(Start(clock), before) && IsRun(After(Start(clock), before), es)
    requires Holds(After(Start(clock), before), token) && Stays(es, token)
    requires |After(Start(clock), before).log| <= i <= j < |After(After(Start(clock), before), es).log|
    requires Sizes(After(After(Start(clock), before), es).log, i, j, chunk)
    ensures var m := After(Start(clock), before);
            Bytes(After(m, es).log, i, j) as real <= Share(After(m, es).log, i, j, m.entry.value.rates[token], chunk)
  {
    InvInitially(clock);
    RunKeepsInv(Start(clock), before);
    JoinedBoundFrom(After(Start(clock), before), es, token, chunk, i, j);
  }

  lemma RunCons(m: Member, e: Event, es: seq<Event>)
    requires Sound(m) && Enabled(m, e) && IsRun(Next(m, e), es)
    ensures IsRun(m, [e] + es)
    ensures After(m, [e] + es) == After(Next(m, e), es)
  {
    assert ([e] + es)[1..] == es;
  }

  /** The extra chunk is really spent: leaving and joining again lets two chunks go at one instant. */
  lemma RecreateTermNeeded(rate: int, chunk: int)
    requires 1 <= rate && 1 <= chunk
    ensures exists es :: IsRun(Start(0.0), es) &&
              var log := After(Start(0.0), es).log;
              |log| == 2 && log[0].departure == log[1].departure && log[0].rate == log[1].rate == rate && Bytes(log, 0, 1) == 2 * chunk
  {
    var join, send, leave := Join(0, rate, 0.0), Reserve(0, chunk, 0.0), Leave(0, 0.0);
    var rates: Rates := map[0 := rate];
    var first, second := Slot(0.0, 0.0, chunk, rate, 0, 1), Slot(0.0, 0.0, chunk, rate, 0, 2);
    var next := 0.0 + chunk as real / rate as real;
    assert rates[0] == rate && rates - {0} == map[];
    assert LowestRate(rates) == rate;
    var m1 := Member(Some(Entry(rates, 0.0)), 0.0, map[0 := 0.0], [], 1);
    var m2 := Member(Some(Entry(rates, next)), 0.0, map[0 := 0.0], [first], 1);
    var m3 := Member(None, 0.0, map[0 := 0.0], [first], 1);
    var m4 := Member(Some(Entry(rates, 0.0)), 0.0, map[0 := 0.0], [first], 2);
    var m5 := Member(Some(Entry(rates, next)), 0.0, map[0 := 0.0], [first, second], 2);
    assert Next(Start(0.0), join) == m1;
    assert Next(m1, send) == m2;
    assert Next(m2, leave) == m3;
    assert Next(m3, join) == m4;
    assert Next(m4, send) == m5;
    RunCons(m4, send, []);
    RunCons(m3, join, [send]);
    RunCons(m2, leave, [join] + ([send] + []));
    RunCons(m1, send, [leave] + ([join] + ([send] + [])));
    RunCons(Start(0.0), join, [send] + ([leave] + ([join] + ([send] + []))));
    assert Bytes(m5.log, 0, 1) == 2 * chunk;
  }
}

/**
  The persisted outbox of a dice round: rows are claimed under a lease, sent outside the
  transaction and settled by whoever reports back, while buttons and the operator may settle
  them too.  Each transaction is one atomic step; a process may die between any two.
*/
module DiceOutbox {
  import opened Numbers
  import opened Wrappers

  const LEASE := 90.0

  datatype State = Pending | Sending | Sent | Unknown | Failed | Obsolete

  datatype Purpose = Open | ArtOpen | ArtResult | Report | Detail | Session

  datatype Row = Row(purpose: Purpose, state: State, mid: Option<int>, lease: real, due: real, attempts: nat)

  /** How a send that returned no message id is classified. */
  datatype Problem = Retry | Refused | NoReceipt

  // ---------------------------------------------------------------- updates of one row

  function Queued(purpose: Purpose): Row { Row(purpose, Pending, None, 0.0, 0.0, 0) }

  function Swept(r: Row, clock: real): Row { if r.state == Sending && r.lease <= clock then r.(state := Unknown) else r }

  predicate IsDue(r: Row, clock: real) { r.state == Pending && r.due <= clock }

  function Claimed(r: Row, clock: real): Row { r.(state := Sending, lease := clock + LEASE, attempts := r.attempts + 1) }

  function Confirmed(r: Row, lease: real, mid: int): Row {
    if r.state == Sending && r.lease == lease then r.(state := Sent, mid := Some(mid), lease := 0.0) else r
  }

  function StateOf(p: Problem): State { match p case Retry => Pending case Refused => Failed case NoReceipt => Unknown }

  /** The failure report is keyed by the lease alone, whatever the state. */
  function Rejected(r: Row, lease: real, p: Problem, due: real): Row {
    if r.lease == lease then r.(state := StateOf(p), due := due, lease := 0.0) else r
  }

  predicate Uncertain(r: Row) { r.state == Sending || r.state == Unknown }

  function Bound(r: Row, mid: int): Row { r.(state := Sent, mid := Some(mid), lease := 0.0) }

  /** The operator's two recoveries keep whatever lease the row still carries. */
  function Acknowledged(r: Row, mid: int): Row { r.(state := Sent, mid := Some(mid)) }
  function Reopened(r: Row): Row { r.(state := Pending, due := 0.0) }

  // ---------------------------------------------------------------- the table of one round

  type Rows = map<nat, Row>

  datatype Claim = Nothing | Dropped(id: nat) | Job(id: nat, lease: real)

  function SweptAll(rows: Rows, clock: real): Rows { map id | id in rows :: Swept(rows[id], clock) }

  ghost predicate IsFirstDue(rows: Rows, clock: real, id: nat) {
    id in rows && IsDue(rows[id], clock) && forall k :: k in rows && IsDue(rows[k], clock) ==> id <= k
  }

  /** What taking the first due row does to the table. */
  ghost predicate Takes(rows: Rows, after: Rows, clock: real, roundOpen: bool, stillBound: bool, claim: Claim) {
    match claim
    case Nothing => after == rows && forall id :: id in rows ==> !IsDue(rows[id], clock)
    case Dropped(id) =>
      IsFirstDue(rows, clock, id) &&
      (((rows[id].purpose == Open || rows[id].purpose == ArtOpen) && !roundOpen
        && after == rows[id := rows[id].(state := Obsolete)]) ||
       (rows[id].purpose == Detail && !stillBound && after == rows[id := rows[id].(state := Failed)]))
    case Job(id, lease) =>
      IsFirstDue(rows, clock, id) && lease == clock + LEASE && after == rows[id := Claimed(rows[id], clock)]
      && (rows[id].purpose == Open || rows[id].purpose == ArtOpen ==> roundOpen)
      && (rows[id].purpose == Detail ==> stillBound)
  }

  /**
    The pending row with the least id whose time has come is claimed, for ninety seconds if it is sent;
    of the others only those being sent change, to unknown once their lease has run out.
  */
  ghost predicate Claims(was: Rows, now: Rows, clock: real, roundOpen: bool, stillBound: bool, claim: Claim) {
    && now.Keys == was.Keys
    && (forall id :: id in was && (claim.Nothing? || id != claim.id) ==>
          now[id] == if was[id].state == Sending && was[id].lease <= clock then was[id].(state := Unknown) else was[id])
    && (forall id :: id in was && was[id].state == Pending && was[id].due <= clock ==> !claim.Nothing? && claim.id <= id)
    && (!claim.Nothing? ==> claim.id in was && was[claim.id].state == Pending && was[claim.id].due <= clock)
    && (claim.Dropped? ==>
          if was[claim.id].purpose == Detail then !stillBound && now[claim.id] == was[claim.id].(state := Failed)
          else was[claim.id].purpose in {Open, ArtOpen} && !roundOpen && now[claim.id] == was[claim.id].(state := Obsolete))
    && (claim.Job? ==>
          (was[claim.id].purpose in {Open, ArtOpen} ==> roundOpen) && (was[claim.id].purpose == Detail ==> stillBound)
          && claim.lease == clock + 90.0 &&
          now[claim.id] == was[claim.id].(state := Sending, lease := clock + 90.0, attempts := was[claim.id].attempts + 1))
  }

  lemma ClaimsWhatItSays(was: Rows, now: Rows, clock: real, roundOpen: bool, stillBound: bool, claim: Claim)
    requires Takes(SweptAll(was, clock), now, clock, roundOpen, stillBound, claim)
    ensures Claims(was, now, clock, roundOpen, stillBound, claim)
  {
    var swept := SweptAll(was, clock);
    assert forall id :: id in was ==> (IsDue(swept[id], clock) <==> was[id].state == Pending && was[id].due <= clock);
  }

  class Outbox {
    var rows: Rows
    var nextId: nat

    ghost predicate Valid()
      reads this
    {
      forall id :: id in rows ==> id < nextId
    }

    constructor ()
      ensures Valid() && rows == map[]
    {
      rows, nextId := map[], 0;
    }

    /** INSERT OR IGNORE under the unique purpose and recipient. */
    method Queue(purpose: Purpose, known: bool)
      requires Valid()
      modifies this
      ensures Valid()
      ensures rows == if known then old(rows) else old(rows)[old(nextId) := Queued(purpose)]
    {
      if !known {
        rows := rows[nextId := Row(purpose, Pending, None, 0.0, 0.0, 0)];
        nextId := nextId + 1;
      }
    }

    /** The due row with the least id. */
    method FirstDue(clock: real) returns (found: Option<nat>)
      requires Valid()
      ensures found.None? ==> forall id :: id in rows ==> !IsDue(rows[id], clock)
      ensures found.Some? ==> IsFirstDue(rows, clock, found.value)
    {
      for id := 0 to nextId
        invariant forall k :: k in rows && k < id ==> !IsDue(rows[k], clock)
      {
        if id in rows && rows[id].state == Pending && rows[id].due <= clock {
          return Some(id);
        }
      }
      return None;
    }

    /** Sends whose lease has run out become unknown. */
    method SweepExpired(clock: real)
      modifies this`rows
      ensures rows == SweptAll(old(rows), clock) && rows.Keys == old(rows).Keys
    {
      rows := map id | id in rows ::
        if rows[id].state == Sending && rows[id].lease <= clock then rows[id].(state := Unknown) else rows[id];
    }

    /** The first due row is taken, or dropped when its round has closed or its addressee is no longer bound. */
    method TakeFirst(clock: real, roundOpen: bool, stillBound: bool) returns (claim: Claim)
      requires Valid()
      modifies this`rows
      ensures Valid() && Takes(old(rows), rows, clock, roundOpen, stillBound, claim)
    {
      var found := FirstDue(clock);
      if found.None? { return Nothing; }
      var id := found.value;
      var job := rows[id];
      if (job.purpose == Open || job.purpose == ArtOpen) && !roundOpen {
        rows := rows[id := job.(state := Obsolete)];
        return Dropped(id);
      }
      if job.purpose == Detail && !stillBound {
        rows := rows[id := job.(state := Failed)];
        return Dropped(id);
      }
      var lease := clock + LEASE;
      rows := rows[id := job.(state := Sending, lease := lease, attempts := job.attempts + 1)];
      return Job(id, lease);
    }

    /** One claiming transaction. */
    method ClaimNext(clock: real, roundOpen: bool, stillBound: bool) returns (claim: Claim)
      requires Valid()
      modifies this
      ensures Valid() && nextId == old(nextId)
      ensures Takes(SweptAll(old(rows), clock), rows, clock, roundOpen, stillBound, claim)
      ensures Claims(old(rows), rows, clock, roundOpen, stillBound, claim)
    {
      SweepExpired(clock);
      claim := TakeFirst(clock, roundOpen, stillBound);
      ClaimsWhatItSays(old(rows), rows, clock, roundOpen, stillBound, claim);
    }

    /** A send came back with a message id; false means that message is a duplicate to be removed. */
    method FinishGood(id: nat, lease: real, mid: int) returns (bound: bool)
      requires Valid() && id in rows
      modifies this
      ensures Valid() && nextId == old(nextId)
      ensures rows == old(rows)[id := Confirmed(old(rows[id]), lease, mid)]
      ensures bound <==> rows[id].mid == Some(mid)
      ensures old(rows[id]).state == Sending && old(rows[id]).lease == lease ==>
                rows[id] == old(rows[id]).(state := Sent, mid := Some(mid), lease := 0.0)
      ensures old(rows[id]).state != Sending || old(rows[id]).lease != lease ==> rows == old(rows)
    {
      var changed := rows[id].state == Sending && rows[id].lease == lease;
      if changed {
        rows := rows[id := rows[id].(state := Sent, mid := Some(mid), lease := 0.0)];
      }
      assert rows == old(rows)[id := Confirmed(old(rows[id]), lease, mid)];
      bound := changed || rows[id].mid == Some(mid);
    }

    method FinishBad(id: nat, lease: real, p: Problem, claimedAt: real, retryAfter: real)
      requires Valid() && id in rows
      modifies this
      ensures Valid() && nextId == old(nextId)
      ensures rows == old(rows)[id := Rejected(old(rows[id]), lease, p, claimedAt + Later(10.0, retryAfter))]
      ensures old(rows[id]).lease != lease ==> rows == old(rows)
      ensures old(rows[id]).lease == lease ==>
                && rows[id].due == claimedAt + (if 10.0 <= retryAfter then retryAfter else 10.0) && rows[id].lease == 0.0
                && (p == Retry ==> rows[id].state == Pending) && (p == Refused ==> rows[id].state == Failed)
                && (p == NoReceipt ==> rows[id].state == Unknown)
                && rows[id].mid == old(rows[id]).mid && rows[id].attempts == old(rows[id]).attempts
    {
      var state := if p == Retry then Pending else if p == Refused then Failed else Unknown;
      if rows[id].lease == lease {
        rows := rows[id := rows[id].(state := state, due := claimedAt + (if 10.0 < retryAfter then retryAfter else 10.0), lease := 0.0)];
      }
      assert rows == old(rows)[id := Rejected(old(rows[id]), lease, p, claimedAt + Later(10.0, retryAfter))];
    }

    /** A button of the message itself was pressed: exact proof of delivery. */
    method BindReceipt(id: nat, mid: int) returns (ok: bool)
      requires Valid() && id in rows
      modifies this
      ensures Valid() && nextId == old(nextId)
      ensures ok == Uncertain(old(rows[id]))
      ensures rows == if ok then old(rows)[id := Bound(old(rows[id]), mid)] else old(rows)
      ensures ok <==> old(rows[id]).state == Sending || old(rows[id]).state == Unknown
      ensures ok ==> rows[id] == old(rows[id]).(state := Sent, mid := Some(mid), lease := 0.0)
    {
      ok := rows[id].state == Sending || rows[id].state == Unknown;
      if ok {
        rows := rows[id := rows[id].(state := Sent, mid := Some(mid), lease := 0.0)];
      }
    }

    /** The explicit operator action on an unknown or failed row. */
    method Recover(id: nat, confirmedMid: Option<int>, retry: bool) returns (ok: bool)
      requires Valid() && id in rows
      modifies this
      ensures Valid() && nextId == old(nextId)
      ensures ok <==> (old(rows[id]).state == Unknown || old(rows[id]).state == Failed) &&
                      (if confirmedMid.Some? then old(rows[id]).purpose == Report else retry)
      ensures rows == if !ok then old(rows)
                      else if confirmedMid.Some? then old(rows)[id := Acknowledged(old(rows[id]), confirmedMid.value)]
                      else old(rows)[id := Reopened(old(rows[id]))]
      ensures ok && confirmedMid.Some? ==> rows[id] == old(rows[id]).(state := Sent, mid := confirmedMid)
      ensures ok && confirmedMid.None? ==> rows[id] == old(rows[id]).(state := Pending, due := 0.0)
    {
      var job := rows[id];
      if job.state != Unknown && job.state != Failed { return false; }
      if confirmedMid.Some? {
        if job.purpose != Report { return false; }
        rows := rows[id := job.(state := Sent, mid := confirmedMid)];
      } else if retry {
        rows := rows[id := job.(state := Pending, due := 0.0)];
      } else {
        return false;
      }
      return true;
    }
  }

  // ---------------------------------------------------------------- one row among interleaved workers

  /**
    A row with its environment: the sends in flight, by lease, and whether the transport has
    accepted each; how many messages it has accepted in all; how often the operator asked for a resend.
  */
  datatype Cell = Cell(row: Row, clock: real, out: map<real, bool>, accepted: nat, resends: nat)

  datatype Event =
    | Sweep(clock: real)
    | Take(clock: real)
    | Drop(state: State)
    | Accept(lease: real)
    | Good(lease: real, mid: int)
    | Bad(lease: real, problem: Problem, due: real)
    | Crash(lease: real)
    | Press(mid: int)
    | Ack(mid: int)
    | Resend

  /** What can happen.  A refused or retryable send was not accepted; a confirmed one was. */
  ghost predicate Enabled(c: Cell, e: Event) {
    match e
    case Sweep(clock) => c.clock <= clock
    case Take(clock) => c.clock <= clock && IsDue(Swept(c.row, clock), clock)
    case Drop(state) => c.row.state == Pending && (state == Obsolete || state == Failed)
    case Accept(lease) => lease in c.out && !c.out[lease]
    case Good(lease, _) => lease in c.out && c.out[lease]
    case Bad(lease, p, _) => lease in c.out && (c.out[lease] ==> p == NoReceipt)
    case Crash(lease) => lease in c.out
    case Press(_) => Uncertain(c.row)
    case Ack(_) => (c.row.state == Unknown || c.row.state == Failed) && c.row.purpose == Report
    case Resend => c.row.state == Unknown || c.row.state == Failed
  }

  function Next(c: Cell, e: Event): Cell {
    match e
    case Sweep(clock) => c.(row := Swept(c.row, clock), clock := clock)
    case Take(clock) => c.(row := Claimed(Swept(c.row, clock), clock), clock := clock, out := c.out[clock + LEASE := false])
    case Drop(state) => c.(row := c.row.(state := state))
    case Accept(lease) => c.(out := c.out[lease := true], accepted := c.accepted + 1)
    case Good(lease, mid) => c.(row := Confirmed(c.row, lease, mid), out := c.out - {lease})
    case Bad(lease, p, due) => c.(row := Rejected(c.row, lease, p, due), out := c.out - {lease})
    case Crash(lease) => c.(out := c.out - {lease})
    case Press(mid) => c.(row := Bound(c.row, mid))
    case Ack(mid) => c.(row := Acknowledged(c.row, mid))
    case Resend => c.(row := Reopened(c.row), resends := c.resends + 1)
  }

  function Start(purpose: Purpose, clock: real): Cell { Cell(Queued(purpose), clock, map[], 0, 0) }

  ghost predicate IsRun(c: Cell, es: seq<Event>)
    decreases |es|
  {
    es == [] || (Enabled(c, es[0]) && IsRun(Next(c, es[0]), es[1..]))
  }

  function After(c: Cell, es: seq<Event>): Cell
    decreases |es|
  {
    if es == [] then c else After(Next(c, es[0]), es[1..])
  }

  function InDoubt(c: Cell): set<real> { set l | l in c.out && !c.out[l] }

  function One(b: bool): nat { if b then 1 else 0 }

  /**
    Every claim was paid for by the row's creation, by an operator's resend, or by a report of the
    same lease that its send was not accepted.
  */
  ghost predicate Inv(c: Cell) {
    && 0.0 <= c.clock
    && (forall l :: l in c.out ==> 0.0 < l <= c.clock + LEASE)
    && (forall l :: l in c.out ==>
          (c.row.state == Sent && c.row.lease == 0.0) || (c.row.state == Sending && c.row.lease == l) || l <= c.clock)
    && (c.row.state == Sending ==> 0.0 < c.row.lease)
    && |c.out| + One(c.row.state == Pending) <= 1 + c.resends
    && c.accepted + |InDoubt(c)| + One(c.row.state == Pending) <= 1 + c.resends
  }

  lemma RemoveKey(out: map<real, bool>, l: real)
    requires l in out
    ensures |out - {l}| == |out| - 1
  {
    assert (out - {l}).Keys == out.Keys - {l};
  }

  lemma AddKey(out: map<real, bool>, l: real, b: bool)
    requires l !in out
    ensures |out[l := b]| == |out| + 1
  {
    assert out[l := b].Keys == out.Keys + {l};
  }

  lemma TakeKeepsInv(c: Cell, e: Event)
    requires Inv(c) && Enabled(c, e) && e.Take?
    ensures Inv(Next(c, e))
  {
    var lease := e.clock + LEASE;
    assert lease !in c.out;
    AddKey(c.out, lease, false);
    assert InDoubt(Next(c, e)) == InDoubt(c) + {lease};
  }

  lemma ReportKeepsInv(c: Cell, e: Event)
    requires Inv(c) && Enabled(c, e) && (e.Good? || e.Bad? || e.Crash?)
    ensures Inv(Next(c, e))
  {
    RemoveKey(c.out, e.lease);
    assert InDoubt(Next(c, e)) == InDoubt(c) - {e.lease};
  }

  lemma StepKeepsInv(c: Cell, e: Event)
    requires Inv(c) && Enabled(c, e)
    ensures Inv(Next(c, e))
  {
    match e
    case Take(_) => TakeKeepsInv(c, e);
    case Good(_, _) => ReportKeepsInv(c, e);
    case Bad(_, _, _) => ReportKeepsInv(c, e);
    case Crash(_) => ReportKeepsInv(c, e);
    case Accept(lease) =>
      assert c.out[lease := true].Keys == c.out.Keys;
      assert InDoubt(Next(c, e)) == InDoubt(c) - {lease};
    case _ =>
      assert InDoubt(Next(c, e)) == InDoubt(c);
  }

  lemma {:induction false} RunKeepsInv(c: Cell, es: seq<Event>)
    requires Inv(c) && IsRun(c, es)
    ensures Inv(After(c, es))
    ensures c.accepted <= After(c, es).accepted && c.resends <= After(c, es).resends
    decreases |es|
  {
    if es != [] {
      StepKeepsInv(c, es[0]);
      RunKeepsInv(Next(c, es[0]), es[1..]);
    }
  }

  /**
    However workers, crashes, buttons and expiring leases interleave, the transport accepts at most
    one message per row, and at most one send is in flight, plus one for each explicit resend.
  */
  lemma AtMostOnce(purpose: Purpose, clock: real, es: seq<Event>)
    requires 0.0 <= clock && IsRun(Start(purpose, clock), es)
    ensures var c := After(Start(purpose, clock), es);
            c.accepted <= 1 + c.resends && |c.out| <= 1 + c.resends
  {
    assert InDoubt(Start(purpose, clock)) == {};
    RunKeepsInv(Start(purpose, clock), es);
  }

  /** Settled or uncertain, and carrying this lease at most. */
  predicate Parked(r: Row, lease: real) {
    (r.state == Unknown || r.state == Failed || r.state == Sent) && (r.lease == lease || r.lease == 0.0)
  }

  /** The operator asks again, or the holder of the lease reports that the send can be retried: it was not accepted. */
  ghost predicate AllowsRepeat(c: Cell, e: Event, lease: real) {
    e.Resend? || (e.Bad? && e.problem == Retry && e.lease == lease && lease in c.out && !c.out[lease])
  }

  ghost predicate RepeatAllowedAt(c: Cell, es: seq<Event>, n: nat, lease: real)
    requires n < |es|
  {
    AllowsRepeat(After(c, es[..n]), es[n], lease)
  }

  lemma ParkedStep(c: Cell, e: Event, lease: real)
    requires Inv(c) && Enabled(c, e) && Parked(c.row, lease) && !AllowsRepeat(c, e, lease)
    ensures Parked(Next(c, e).row, lease)
  {
  }

  lemma {:induction false} ParkedUntilAllowed(c: Cell, es: seq<Event>, lease: real) returns (n: nat)
    requires Inv(c) && IsRun(c, es) && Parked(c.row, lease) && !Parked(After(c, es).row, lease)
    ensures n < |es| && RepeatAllowedAt(c, es, n, lease)
    decreases |es|
  {
    if AllowsRepeat(c, es[0], lease) {
      n := 0;
      assert es[..0] == [];
    } else {
      ParkedStep(c, es[0], lease);
      StepKeepsInv(c, es[0]);
      var k := ParkedUntilAllowed(Next(c, es[0]), es[1..], lease);
      n := k + 1;
      assert es[..n][1..] == es[1..][..k] && es[..n][0] == es[0];
    }
  }

  /**
    An uncertain send is repeated only on its own lease holder's word that it was not accepted, or on the
    operator's: in every run from an unknown row to a new attempt one of the two happens in between.
  */
  lemma UnknownStays(c: Cell, es: seq<Event>)
    requires Inv(c) && IsRun(c, es) && c.row.state == Unknown
    requires After(c, es).row.state == Pending || After(c, es).row.state == Sending
    ensures exists n: nat :: n < |es| && RepeatAllowedAt(c, es, n, c.row.lease)
  {
    var n := ParkedUntilAllowed(c, es, c.row.lease);
  }

  // ---------------------------------------------------------------- what is sent again, and when

  /** The row's own send is under way and has not been accepted. */
  ghost predicate UnderWay(c: Cell, lease: real) {
    Inv(c) && c.row.state == Sending && c.row.lease == lease && lease in c.out && !c.out[lease]
  }

  /** A retryable failure is sent again: the row can be claimed at every moment from its due time on, and at none before. */
  lemma RetryIsSentAgain(c: Cell, lease: real, due: real, clock: real)
    requires UnderWay(c, lease) && c.clock <= clock
    ensures Enabled(c, Bad(lease, Retry, due))
    ensures Enabled(Next(c, Bad(lease, Retry, due)), Take(clock)) <==> due <= clock
  {
  }

  /** Neither a refusal nor a lost receipt is: whatever follows, the row is not claimed before the operator asks for it. */
  lemma RefusalNeedsOperator(c: Cell, lease: real, p: Problem, due: real, es: seq<Event>, clock: real)
    requires UnderWay(c, lease) && (p == Refused || p == NoReceipt)
    requires IsRun(Next(c, Bad(lease, p, due)), es) && forall e :: e in es ==> !e.Resend?
    ensures Next(c, Bad(lease, p, due)).row.state == if p == Refused then Failed else Unknown
    ensures !Enabled(After(Next(c, Bad(lease, p, due)), es), Take(clock))
  {
    var n := Next(c, Bad(lease, p, due));
    StepKeepsInv(c, Bad(lease, p, due));
    if !Parked(After(n, es).row, 0.0) {
      var k := ParkedUntilAllowed(n, es, 0.0);
      assert es[k] in es;
      PrefixKeepsInv(n, es, k);
    }
  }

  lemma {:induction false} PrefixKeepsInv(c: Cell, es: seq<Event>, n: nat)
    requires Inv(c) && IsRun(c, es) && n <= |es|
    ensures Inv(After(c, es[..n]))
    decreases |es|
  {
    if n == 0 {
      assert es[..0] == [];
    } else {
      StepKeepsInv(c, es[0]);
      PrefixKeepsInv(Next(c, es[0]), es[1..], n - 1);
      assert es[..n][1..] == es[1..][..n - 1] && es[..n][0] == es[0];
    }
  }

  /** A send whose worker reports nothing becomes unknown exactly when its lease has run out, and is not sent again by itself. */
  lemma SilenceIsUnknown(c: Cell, lease: real, clock: real)
    requires UnderWay(c, lease) && c.clock <= clock
    ensures Next(c, Sweep(clock)).row.state == Unknown <==> lease <= clock
    ensures !Enabled(c, Take(clock))
  {
  }

  /** A confirmed send is recorded with its message, if its lease is still the row's; and a fresh row is claimed at once. */
  lemma ConfirmedIsSent(c: Cell, lease: real, mid: int)
    requires Inv(c) && c.row.state == Sending && c.row.lease == lease && lease in c.out && c.out[lease]
    ensures Enabled(c, Good(lease, mid)) && Next(c, Good(lease, mid)).row.state == Sent
    ensures Next(c, Good(lease, mid)).row.mid == Some(mid)
  {
  }

  /** A claim, at the moment it is made, holds the row for ninety seconds. */
  lemma ClaimHoldsLease(purpose: Purpose, clock: real)
    requires 0.0 <= clock
    ensures Enabled(Start(purpose, clock), Take(clock))
    ensures UnderWay(Next(Start(purpose, clock), Take(clock)), clock + 90.0)
  {
    assert InDoubt(Start(purpose, clock)) == {};
    TakeKeepsInv(Start(purpose, clock), Take(clock));
  }

  // ---------------------------------------------------------------- is `sent` final?

  /**
    A sent row can still be taken out of `sent` exactly while a send is in flight under the lease the
    row carries.
  */
  lemma SentIsFinalExactly(c: Cell)
    requires Inv(c) && c.row.state == Sent
    ensures (exists e :: Enabled(c, e) && Next(c, e).row.state != Sent) <==> c.row.lease in c.out
    ensures forall e :: Enabled(c, e) && Next(c, e).row != c.row ==> e.Bad? && e.lease == c.row.lease
  {
    if c.row.lease in c.out {
      var e := Bad(c.row.lease, NoReceipt, 0.0);
      assert Enabled(c, e) && Next(c, e).row.state == Unknown;
    }
    forall e | Enabled(c, e) && Next(c, e).row != c.row ensures e.Bad? && e.lease == c.row.lease {
    }
  }

  /** The operator only acknowledges rows under whose lease no send is in flight any more. */
  ghost predicate CleanRun(c: Cell, es: seq<Event>)
    decreases |es|
  {
    es == [] || ((es[0].Ack? ==> c.row.lease !in c.out) && CleanRun(Next(c, es[0]), es[1..]))
  }

  ghost predicate SentIsSettled(c: Cell) {
    (c.row.state == Sent ==> c.row.lease !in c.out) && (c.row.mid.Some? <==> c.row.state == Sent)
  }

  /**
    If no row was acknowledged while a send was in flight under its lease, `sent` is never left and a
    message id, once written, never changes.
  */
  lemma {:induction false} SentAbsorbs(c: Cell, es: seq<Event>)
    requires Inv(c) && SentIsSettled(c) && IsRun(c, es) && CleanRun(c, es)
    ensures c.row.state == Sent ==> After(c, es).row == c.row
    ensures c.row.mid.Some? ==> After(c, es).row.mid == c.row.mid
    ensures SentIsSettled(After(c, es))
    decreases |es|
  {
    if es != [] {
      StepKeepsInv(c, es[0]);
      SentAbsorbs(Next(c, es[0]), es[1..]);
    }
  }

  /**
    Without that check it fails: a send outlives its lease, the operator acknowledges the row, the late
    report puts it back in the queue, and another message id overwrites the first.
  */
  lemma SentCanBeUndone()
    ensures exists es :: IsRun(Start(Report, 0.0), es) && 3 <= |es| &&
              After(Start(Report, 0.0), es[..3]).row.mid == Some(1) &&
              After(Start(Report, 0.0), es).row.mid == Some(2)
  {
    var c0 := Start(Report, 0.0);
    var es := [Take(0.0), Sweep(90.0), Ack(1), Bad(90.0, Retry, 10.0), Take(90.0), Accept(180.0), Good(180.0, 2)];
    var c1 := Next(c0, es[0]);
    var c2 := Next(c1, es[1]);
    var c3 := Next(c2, es[2]);
    var c4 := Next(c3, es[3]);
    var c5 := Next(c4, es[4]);
    var c6 := Next(c5, es[5]);
    var c7 := Next(c6, es[6]);
    assert c4.row == Row(Report, Pending, Some(1), 0.0, 10.0, 1);
    assert c7.row == Row(Report, Sent, Some(2), 0.0, 10.0, 2);
    Unroll(c6, es, 6); Unroll(c5, es, 5); Unroll(c4, es, 4); Unroll(c3, es, 3);
    Unroll(c2, es, 2); Unroll(c1, es, 1); Unroll(c0, es, 0);
    assert es[0..] == es;
    assert es[..3] == [es[0], es[1], es[2]];
    assert es[..3][1..] == [es[1], es[2]] && es[..3][1..][1..] == [es[2]] && es[..3][1..][1..][1..] == [];
    assert After(c2, [es[2]]) == c3 && After(c1, [es[1], es[2]]) == c3;
  }

  lemma Unroll(c: Cell, es: seq<Event>, n: nat)
    requires n < |es| && Enabled(c, es[n]) && IsRun(Next(c, es[n]), es[n + 1..])
    ensures IsRun(c, es[n..]) && After(c, es[n..]) == After(Next(c, es[n]), es[n + 1..])
  {
    assert es[n..][1..] == es[n + 1..];
  }
}

/**
  The shared group card of a dice round.  Bets and buttons raise a revision; a refresh takes a
  lease and a newer token, edits the message outside the transaction and records what it rendered
  only if its token is still the current one.
*/
module CardRefresh {
  import opened Finite
  import opened Numbers
  import opened Wrappers

  const LEASE := 90.0

  type Token = nat

  /** The columns of the round that the refresh protocol uses. */
  datatype Row = Row(
    revision: int, rendered: int, renderMid: Option<int>, due: real, retry: real, lease: real, token: Option<Token>)

  // ---------------------------------------------------------------- transactions

  predicate Dirty(r: Row, mid: int) { r.rendered < r.revision || r.renderMid != Some(mid) }

  /** May a refresh of message mid begin?  A ticking countdown is refreshed even when clean. */
  predicate MayBegin(r: Row, clock: real, mid: int, ticking: bool) {
    r.lease <= clock && r.due <= clock && r.retry <= clock && (ticking || Dirty(r, mid))
  }

  function Begun(r: Row, clock: real, token: Token): Row { r.(token := Some(token), lease := clock + LEASE) }

  function Rendered(r: Row, token: Token, snap: int, mid: int, clock: real): Row {
    if r.token == Some(token)
    then r.(rendered := snap, renderMid := Some(mid), lease := 0.0, retry := 0.0, due := clock + 2.0) else r
  }

  function Missed(r: Row, token: Token, clock: real, retryAfter: real): Row {
    if r.token == Some(token) then r.(lease := 0.0, retry := clock + Later(3.0, retryAfter)) else r
  }

  /** Every business change raises the revision; some also bring the next refresh forward. */
  function Bumped(r: Row, due: real): Row { r.(revision := r.revision + 1, due := due) }

  class Card {
    var revision: int
    var rendered: int
    var renderMid: Option<int>
    var due: real
    var retry: real
    var lease: real
    var token: Option<Token>

    function Now(): Row
      reads this
    {
      Row(revision, rendered, renderMid, due, retry, lease, token)
    }

    constructor ()
      ensures Now() == Row(0, -1, None, 0.0, 0.0, 0.0, None)
    {
      revision, rendered, renderMid, due, retry, lease, token := 0, -1, None, 0.0, 0.0, 0.0, None;
    }

    /** Takes the lease, and the revision the edit is going to show. */
    method Begin(clock: real, mid: Option<int>, ticking: bool, newToken: Token) returns (snapshot: Option<int>)
      modifies this
      ensures snapshot == if mid.Some? && MayBegin(old(Now()), clock, mid.value, ticking) then Some(old(revision)) else None
      ensures Now() == if snapshot.Some? then Begun(old(Now()), clock, newToken) else old(Now())
      ensures snapshot.Some? <==>
                && mid.Some? && old(lease) <= clock && old(due) <= clock && old(retry) <= clock
                && (ticking || old(rendered) < old(revision) || old(renderMid) != mid)
      ensures snapshot.Some? ==>
                snapshot.value == old(revision) && Now() == old(Now()).(token := Some(newToken), lease := clock + 90.0)
      ensures snapshot.None? ==> Now() == old(Now())
    {
      if mid.None? || lease > clock || due > clock || retry > clock
         || (!ticking && rendered >= revision && renderMid == mid) {
        return None;
      }
      token, lease := Some(newToken), clock + LEASE;
      return Some(revision);
    }

    method Finish(mine: Token, snapshot: int, mid: int, good: bool, clock: real, retryAfter: real)
      modifies this
      ensures Now() == if good then Rendered(old(Now()), mine, snapshot, mid, clock)
                       else Missed(old(Now()), mine, clock, retryAfter)
      ensures old(token) != Some(mine) ==> Now() == old(Now())
      ensures old(token) == Some(mine) && good ==>
                Now() == old(Now()).(rendered := snapshot, renderMid := Some(mid), lease := 0.0, retry := 0.0, due := clock + 2.0)
      ensures old(token) == Some(mine) && !good ==>
                Now() == old(Now()).(lease := 0.0, retry := clock + if 3.0 <= retryAfter then retryAfter else 3.0)
    {
      if token == Some(mine) {
        lease := 0.0;
        if good {
          rendered, renderMid, retry, due := snapshot, Some(mid), 0.0, clock + 2.0;
        } else {
          retry := clock + (if 3.0 < retryAfter then retryAfter else 3.0);
        }
      }
    }

    /** Buttons refresh at once; a bet only sets a due time where none is set. */
    method Bump(clock: real, bet: bool)
      modifies this
      ensures Now() == Bumped(old(Now()), if bet then if old(due) == 0.0 then clock + 2.0 else old(due) else 0.0)
      ensures !bet ==> Now() == old(Now()).(revision := old(revision) + 1, due := 0.0)
      ensures bet ==> Now() == old(Now()).(revision := old(revision) + 1, due := if old(due) == 0.0 then clock + 2.0 else old(due))
    {
      revision := revision + 1;
      due := if bet then if due == 0.0 then clock + 2.0 else due else 0.0;
    }
  }

  // ---------------------------------------------------------------- the row among interleaved refreshes

  /** A refresh between its two transactions; landed says the edit has taken effect. */
  datatype Flight = Flight(snap: int, mid: int, lease: real, landed: bool)

  /** shown is the revision the message displays, best the newest revision any edit has displayed. */
  datatype World = World(row: Row, clock: real, out: map<Token, Flight>, shown: int, best: int)

  datatype Event =
    | Bump(due: real)
    | Begin(clock: real, mid: int, ticking: bool, token: Token)
    | Land(clock: real, token: Token)
    | Finish(clock: real, token: Token, good: bool, retryAfter: real)
    | Crash(token: Token)

  ghost predicate Enabled(w: World, e: Event) {
    match e
    case Bump(_) => true
    case Begin(clock, mid, ticking, token) =>
      w.clock <= clock && token !in w.out && w.row.token != Some(token) && MayBegin(w.row, clock, mid, ticking)
    case Land(clock, token) => w.clock <= clock && token in w.out && !w.out[token].landed
    case Finish(clock, token, good, _) => w.clock <= clock && token in w.out && (good ==> w.out[token].landed)
    case Crash(token) => token in w.out
  }

  function Next(w: World, e: Event): World
    requires (e.Land? || e.Finish?) ==> e.token in w.out
  {
    match e
    case Bump(due) => w.(row := Bumped(w.row, due))
    case Begin(clock, mid, _, token) =>
      w.(row := Begun(w.row, clock, token), clock := clock,
         out := w.out[token := Flight(w.row.revision, mid, clock + LEASE, false)])
    case Land(clock, token) =>
      var f := w.out[token];
      w.(clock := clock, out := w.out[token := f.(landed := true)], shown := f.snap,
         best := if w.best < f.snap then f.snap else w.best)
    case Finish(clock, token, good, retryAfter) =>
      var f := w.out[token];
      w.(row := if good then Rendered(w.row, token, f.snap, f.mid, clock) else Missed(w.row, token, clock, retryAfter),
         clock := clock, out := w.out - {token})
    case Crash(token) => w.(out := w.out - {token})
  }

  function Start(clock: real): World { World(Row(0, -1, None, 0.0, 0.0, 0.0, None), clock, map[], -1, -1) }

  ghost predicate IsRun(w: World, es: seq<Event>)
    decreases |es|
  {
    es == [] || (Enabled(w, es[0]) && IsRun(Next(w, es[0]), es[1..]))
  }

  function After(w: World, es: seq<Event>): World
    requires IsRun(w, es)
    decreases |es|
  {
    if es == [] then w else After(Next(w, es[0]), es[1..])
  }

  ghost predicate Inv(w: World) {
    && 0.0 <= w.clock && w.row.lease <= w.clock + LEASE
    && w.row.rendered <= w.best <= w.row.revision
    && (forall t :: t in w.out ==> FlightOk(w, t))
  }

  /** A flight either holds the current token and lease, or outlived its own lease. */
  ghost predicate FlightOk(w: World, t: Token)
    requires t in w.out
  {
    var f := w.out[t];
    && f.snap <= w.row.revision
    && (f.landed ==> f.snap <= w.best)
    && if w.row.token == Some(t) then w.row.rendered <= f.snap && w.row.lease == f.lease else f.lease <= w.clock
  }

  lemma StepKeepsInv(w: World, e: Event)
    requires Inv(w) && Enabled(w, e)
    ensures Inv(Next(w, e))
    ensures w.row.rendered <= Next(w, e).row.rendered && w.best <= Next(w, e).best
  {
  }

  /**
    Whatever interleaves, late finishers included, what counts as rendered never goes back, never
    exceeds the revision, and was really displayed by some edit.
  */
  lemma {:induction false} RenderedIsFenced(w: World, es: seq<Event>)
    requires Inv(w) && IsRun(w, es)
    ensures Inv(After(w, es))
    ensures w.row.rendered <= After(w, es).row.rendered <= After(w, es).best <= After(w, es).row.revision
    decreases |es|
  {
    if es != [] {
      StepKeepsInv(w, es[0]);
      RenderedIsFenced(Next(w, es[0]), es[1..]);
    }
  }

  lemma StartHoldsInv(clock: real)
    requires 0.0 <= clock
    ensures Inv(Start(clock))
  {
  }

  function Bumps(es: seq<Event>): nat {
    if es == [] then 0 else (if es[0].Bump? then 1 else 0) + Bumps(es[1..])
  }

  /** Nothing ends the flight of this token. */
  ghost predicate KeepsFlying(es: seq<Event>, t: Token) {
    forall e :: e in es ==> !((e.Finish? || e.Crash?) && e.token == t)
  }

  /** What a refresh is going to record is fixed when it begins; the revision counts every bump. */
  lemma {:induction false} FlightIsFixed(w: World, es: seq<Event>, t: Token)
    requires Inv(w) && IsRun(w, es) && t in w.out && KeepsFlying(es, t)
    ensures var n := After(w, es);
            t in n.out && n.out[t].snap == w.out[t].snap && n.out[t].mid == w.out[t].mid
            && n.row.revision == w.row.revision + Bumps(es)
    decreases |es|
  {
    if es != [] {
      assert es[0] in es;
      StepKeepsInv(w, es[0]);
      FlightIsFixed(Next(w, es[0]), es[1..], t);
    }
  }

  /**
    Whatever happens between the two transactions of a refresh that is still the current one: when it
    records its edit, the row is dirty exactly if a revision was raised in between, and is behind by
    exactly the number of bumps.  No update is lost and none is invented.
  */
  lemma NoUpdateLost(w: World, begin: Event, es: seq<Event>, finish: Event)
    requires Inv(w) && begin.Begin? && Enabled(w, begin)
    requires IsRun(Next(w, begin), es) && KeepsFlying(es, begin.token)
    requires finish.Finish? && finish.token == begin.token && finish.good
    requires Enabled(After(Next(w, begin), es), finish)
    requires After(Next(w, begin), es).row.token == Some(begin.token)
    ensures var row := Next(After(Next(w, begin), es), finish).row;
            && row.revision - row.rendered == Bumps(es)
            && (Dirty(row, begin.mid) <==> 0 < Bumps(es))
  {
    StepKeepsInv(w, begin);
    FlightIsFixed(Next(w, begin), es, begin.token);
  }

  ghost predicate AllOlder(w: World, revision: int) {
    w.row.rendered < revision && forall t :: t in w.out ==> w.out[t].snap < revision
  }

  lemma {:induction false} OlderStay(w: World, es: seq<Event>, revision: int)
    requires IsRun(w, es) && AllOlder(w, revision) && revision <= w.row.revision
    requires forall e :: e in es ==> !e.Begin?
    ensures AllOlder(After(w, es), revision) && revision <= After(w, es).row.revision
    decreases |es|
  {
    if es != [] {
      assert es[0] in es;
      OlderStay(Next(w, es[0]), es[1..], revision);
    }
  }

  /**
    A bump at any moment, with any number of edits in flight: however all of them end, the row stays
    dirty until another refresh begins.
  */
  lemma BumpNeedsNewRefresh(w: World, due: real, es: seq<Event>, mid: int)
    requires Inv(w) && IsRun(Next(w, Bump(due)), es) && forall e :: e in es ==> !e.Begin?
    ensures Dirty(After(Next(w, Bump(due)), es).row, mid)
  {
    forall t | t in w.out ensures w.out[t].snap <= w.row.revision { assert FlightOk(w, t); }
    OlderStay(Next(w, Bump(due)), es, w.row.revision + 1);
  }

  /** A dirty row can be refreshed once its own due and retry times have come and a lease at most has passed. */
  lemma DirtyIsRefreshed(w: World, mid: int, clock: real, token: Token)
    requires Inv(w) && Dirty(w.row, mid)
    requires w.clock + LEASE <= clock && w.row.due <= clock && w.row.retry <= clock
    requires token !in w.out && w.row.token != Some(token)
    ensures Enabled(w, Begin(clock, mid, false, token))
  {
  }

  // ---------------------------------------------------------------- when the next refresh begins

  ghost predicate CanBegin(w: World, clock: real, mid: int, ticking: bool) {
    exists token :: Enabled(w, Begin(clock, mid, ticking, token))
  }

  lemma BeginsExactly(w: World, clock: real, mid: int, ticking: bool)
    requires w.clock <= clock
    ensures CanBegin(w, clock, mid, ticking) <==>
              && w.row.lease <= clock && w.row.due <= clock && w.row.retry <= clock
              && (ticking || w.row.rendered < w.row.revision || w.row.renderMid != Some(mid))
  {
    if MayBegin(w.row, clock, mid, ticking) {
      var token := NewToken(w);
      assert Enabled(w, Begin(clock, mid, ticking, token));
    }
  }

  /** The current refresh, still on its way. */
  ghost predicate OnItsWay(w: World, t: Token) { Inv(w) && t in w.out && w.row.token == Some(t) }

  /** After a failed edit a dirty row waits for the server's retry time, three seconds at least, and no longer. */
  lemma FailureWaits(w: World, t: Token, clock: real, retryAfter: real, at: real, mid: int)
    requires OnItsWay(w, t) && w.clock <= clock <= at && w.row.due <= clock && Dirty(w.row, mid)
    ensures Enabled(w, Finish(clock, t, false, retryAfter))
    ensures CanBegin(Next(w, Finish(clock, t, false, retryAfter)), at, mid, false) <==>
              clock + 3.0 <= at && clock + retryAfter <= at
  {
    BeginsExactly(Next(w, Finish(clock, t, false, retryAfter)), at, mid, false);
  }

  /** After a recorded edit the next one waits two seconds, and is only needed if the revision was raised meanwhile. */
  lemma SuccessWaits(w: World, t: Token, clock: real, at: real)
    requires OnItsWay(w, t) && w.out[t].landed && w.clock <= clock <= at
    ensures Enabled(w, Finish(clock, t, true, 0.0))
    ensures CanBegin(Next(w, Finish(clock, t, true, 0.0)), at, w.out[t].mid, false) <==>
              clock + 2.0 <= at && w.out[t].snap < w.row.revision
  {
    BeginsExactly(Next(w, Finish(clock, t, true, 0.0)), at, w.out[t].mid, false);
  }

  /** A refresh whose worker is lost holds the row for ninety seconds. */
  lemma LostRefreshWaits(w: World, begin: Event, at: real)
    requires Inv(w) && begin.Begin? && Enabled(w, begin) && begin.clock <= at && Dirty(w.row, begin.mid)
    ensures CanBegin(Next(Next(w, begin), Crash(begin.token)), at, begin.mid, false) <==> begin.clock + 90.0 <= at
  {
    BeginsExactly(Next(Next(w, begin), Crash(begin.token)), at, begin.mid, false);
  }

  /** A retry time only a finishing refresh can change: no bump hurries the row, whatever happens in between. */
  lemma {:induction false} RetryIsKept(w: World, es: seq<Event>)
    requires Inv(w) && IsRun(w, es) && w.clock < w.row.retry && w.row.token.Some? && w.row.token.value !in w.out
    requires After(w, es).clock < w.row.retry
    ensures After(w, es).row.retry == w.row.retry && forall e :: e in es ==> !e.Begin?
    decreases |es|
  {
    if es != [] {
      StepKeepsInv(w, es[0]);
      ClockRises(Next(w, es[0]), es[1..]);
      RetryIsKept(Next(w, es[0]), es[1..]);
    }
  }

  lemma {:induction false} ClockRises(w: World, es: seq<Event>)
    requires IsRun(w, es)
    ensures w.clock <= After(w, es).clock
    decreases |es|
  {
    if es != [] { ClockRises(Next(w, es[0]), es[1..]); }
  }

  /** However the run goes on after a failed edit, no refresh begins before the retry time. */
  lemma FailureHolds(w: World, t: Token, clock: real, retryAfter: real, es: seq<Event>)
    requires OnItsWay(w, t) && w.clock <= clock
    requires IsRun(Next(w, Finish(clock, t, false, retryAfter)), es)
    requires var end := After(Next(w, Finish(clock, t, false, retryAfter)), es).clock; end < clock + 3.0 || end < clock + retryAfter
    ensures forall e :: e in es ==> !e.Begin?
  {
    var n := Next(w, Finish(clock, t, false, retryAfter));
    StepKeepsInv(w, Finish(clock, t, false, retryAfter));
    ClockRises(n, es);
    RetryIsKept(n, es);
  }

  // ---------------------------------------------------------------- what the message displays

  /** The edit takes effect while its lease lasts. */
  ghost predicate Prompt(w: World, e: Event)
    requires Enabled(w, e)
  {
    e.Land? ==> e.clock < w.out[e.token].lease
  }

  ghost predicate ShownOk(w: World) {
    && w.row.rendered <= w.shown == w.best
    && forall t :: t in w.out && w.row.token == Some(t) ==>
         w.shown <= w.out[t].snap && (w.out[t].landed ==> w.shown == w.out[t].snap)
  }

  lemma PromptStep(w: World, e: Event)
    requires Inv(w) && ShownOk(w) && Enabled(w, e) && Prompt(w, e)
    ensures ShownOk(Next(w, e))
  {
  }

  ghost predicate IsPromptRun(w: World, es: seq<Event>)
    decreases |es|
  {
    es == [] || (Enabled(w, es[0]) && Prompt(w, es[0]) && IsPromptRun(Next(w, es[0]), es[1..]))
  }

  /** If every edit takes effect within its lease, the message always displays the newest edit there was. */
  lemma {:induction false} PromptRunsShowNewest(w: World, es: seq<Event>)
    requires Inv(w) && ShownOk(w) && IsPromptRun(w, es)
    ensures IsRun(w, es)
    ensures After(w, es).row.rendered <= After(w, es).shown == After(w, es).best
    decreases |es|
  {
    if es != [] {
      StepKeepsInv(w, es[0]);
      PromptStep(w, es[0]);
      PromptRunsShowNewest(Next(w, es[0]), es[1..]);
    }
  }

  lemma PromptCons(w: World, e: Event, es: seq<Event>)
    requires Enabled(w, e) && Prompt(w, e) && IsRun(Next(w, e), es) && IsPromptRun(Next(w, e), es)
    ensures IsRun(w, [e] + es) && IsPromptRun(w, [e] + es) && After(w, [e] + es) == After(Next(w, e), es)
  {
    assert ([e] + es)[1..] == es;
  }

  /** After a run in which every edit was prompt, edit t lands at this time over something newer that is recorded. */
  ghost predicate GoesStale(w: World, es: seq<Event>, t: Token, at: real) {
    && IsRun(w, es) && IsPromptRun(w, es) && Enabled(After(w, es), Land(at, t))
    && Next(After(w, es), Land(at, t)).shown < After(w, es).row.rendered
  }

  lemma {:induction false} Above(tokens: set<Token>) returns (bound: Token)
    ensures forall t :: t in tokens ==> t < bound
    decreases |tokens|
  {
    if tokens == {} { return 0; }
    var t := Pick(tokens);
    var rest := tokens - {t};
    bound := Above(rest);
    assert tokens == rest + {t};
    if bound <= t { bound := t + 1; }
    assert forall u :: u in tokens ==> u == t || u in rest;
  }

  /** A token that no refresh in flight and not the row uses. */
  lemma NewToken(w: World) returns (t: Token)
    ensures t !in w.out && w.row.token != Some(t)
  {
    t := Above(w.out.Keys + (if w.row.token.Some? then {w.row.token.value} else {}));
  }

  /** What a later refresh does while edit t is still on its way. */
  function Overtaking(at: real, mid: int, newer: Token): seq<Event> {
    [Bump(0.0), Begin(at, mid, false, newer), Land(at, newer), Finish(at, newer, true, 0.0)]
  }

  /** Any edit on its way can be overtaken once leases and retry times lie behind, and then displays an older revision. */
  lemma OvertakenGoesStale(w: World, t: Token, at: real, mid: int, newer: Token)
    requires Inv(w) && t in w.out && !w.out[t].landed
    requires w.clock <= at && w.row.lease <= at && w.row.retry <= at && w.out[t].lease <= at
    requires newer !in w.out && w.row.token != Some(newer)
    ensures GoesStale(w, Overtaking(at, mid, newer), t, at)
    ensures !Dirty(After(w, Overtaking(at, mid, newer)).row, mid)
  {
    assert FlightOk(w, t);
    var es := Overtaking(at, mid, newer);
    var w1 := Next(w, es[0]);
    var w2 := Next(w1, es[1]);
    var w3 := Next(w2, es[2]);
    PromptCons(w3, es[3], []);
    PromptCons(w2, es[2], [es[3]] + []);
    PromptCons(w1, es[1], [es[2]] + ([es[3]] + []));
    PromptCons(w, es[0], [es[1]] + ([es[2]] + ([es[3]] + [])));
    assert es == [es[0]] + ([es[1]] + ([es[2]] + ([es[3]] + [])));
  }

  /**
    The token fences the row, not the message.  Take any refresh, however the world got there, with all
    edits before it prompt: its edit can land at a given time over a newer one that is already recorded
    exactly if its lease has run out by then.
  */
  lemma StaleExactly(w: World, begin: Event, at: real)
    requires Inv(w) && ShownOk(w) && begin.Begin? && Enabled(w, begin) && begin.clock <= at
    ensures (exists es :: GoesStale(Next(w, begin), es, begin.token, at)) <==> begin.clock + LEASE <= at
  {
    var v, t := Next(w, begin), begin.token;
    StepKeepsInv(w, begin);
    PromptStep(w, begin);
    if begin.clock + LEASE <= at {
      var newer := NewToken(v);
      OvertakenGoesStale(v, t, at, begin.mid, newer);
    } else if es :| GoesStale(v, es, t, at) {
      InLeaseIsNewest(v, es, t, at);
    }
  }

  lemma {:induction false} LeaseLasts(w: World, es: seq<Event>, t: Token, lease: real)
    requires IsRun(w, es) && lease <= w.clock + LEASE && (t in w.out ==> lease <= w.out[t].lease)
    ensures t in After(w, es).out ==> lease <= After(w, es).out[t].lease
    decreases |es|
  {
    if es != [] { LeaseLasts(Next(w, es[0]), es[1..], t, lease); }
  }

  /** Within its lease an edit never lands over a newer one that is recorded. */
  lemma InLeaseIsNewest(w: World, es: seq<Event>, t: Token, at: real)
    requires Inv(w) && ShownOk(w) && IsPromptRun(w, es) && IsRun(w, es) && Enabled(After(w, es), Land(at, t))
    requires t in w.out && !w.out[t].landed && at < w.out[t].lease
    ensures After(w, es).row.rendered <= Next(After(w, es), Land(at, t)).shown
  {
    assert FlightOk(w, t);
    LeaseLasts(w, es, t, w.out[t].lease);
    RenderedIsFenced(w, es);
    assert FlightOk(After(w, es), t);
  }

  /** Such an edit leaves a clean row over an outdated message, which nothing refreshes. */
  lemma StaleEditStays(mid: int)
    ensures var w := Next(Start(0.0), Begin(0.0, mid, false, 0));
            exists es :: GoesStale(w, es, 0, LEASE) && !Dirty(After(w, es).row, mid)
  {
    var w := Next(Start(0.0), Begin(0.0, mid, false, 0));
    StepKeepsInv(Start(0.0), Begin(0.0, mid, false, 0));
    OvertakenGoesStale(w, 0, LEASE, mid, 1);
  }
}

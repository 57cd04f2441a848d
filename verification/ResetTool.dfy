/**
  The maintenance tool around the reset: a read-only preview and a confirmed, once-only
  apply in a single transaction.  The two SHA-256 digests are arbitrary functions.
*/
module ResetTool {
  import opened Numbers
  import opened Wrappers
  import opened Finite
  import opened LegacyReset
  import opened Text

  datatype Receipt = Receipt(cutoff: int, report: Report)

  datatype Digests = Digests(ledger: seq<Row> -> Hash, body: Body -> Hash)

  /** What the database holds that the tool reads or writes. */
  datatype View = View(members: set<User>, ledger: seq<Row>, receipts: map<string, Receipt>, unsettled: bool)

  // ---------------------------------------------------------------- what a preview reports

  predicate ValidRequest(cutoff: int, batch: string) { 0 < cutoff && 1 <= |batch| <= 100 }

  /** The recorded result of this batch, or why no other batch may run. */
  function Prior(receipts: map<string, Receipt>, cutoff: int, batch: string): Result<Option<Report>, Refused> {
    if !ValidRequest(cutoff, batch) then Err(InvalidRequest)
    else if batch in receipts then
      if receipts[batch].cutoff != cutoff then Err(CutoffDiffers) else Ok(Some(receipts[batch].report))
    else if receipts != map[] then Err(OtherBatchExists)
    else Ok(None)
  }

  ghost function Users(rows: seq<Row>, members: set<User>): set<User> { members + set r | r in rows :: r.user }

  ghost function Opening(rows: seq<Row>, members: set<User>, cutoff: int): (m: map<User, Bucket>)
    ensures forall r :: r in rows ==> r.user in m
  {
    map u | u in Users(rows, members) ::
      Bucket(u in members, OldFunds(rows, u, cutoff), 0, 0, 0, Balance(rows, u), OldFunds(rows, u, cutoff), 0)
  }

  ghost predicate Negative(buckets: map<User, Bucket>) {
    exists u :: u in buckets && (buckets[u].oldAtCutoff < 0 || buckets[u].current < 0)
  }

  function Clear(users: map<User, Bucket>): User -> int { (u: User) => if u in users then users[u].clear else 0 }
  function Retain(users: map<User, Bucket>): User -> int { (u: User) => if u in users then users[u].retain else 0 }
  function Current(users: map<User, Bucket>): User -> int { (u: User) => if u in users then users[u].current else 0 }
  function Cleared(users: map<User, Bucket>): User -> int { (u: User) => if u in users && users[u].clear > 0 then 1 else 0 }
  function Retained(users: map<User, Bucket>): User -> int { (u: User) => if u in users && users[u].retain > 0 then 1 else 0 }

  ghost function SummaryOf(users: map<User, Bucket>): Summary {
    Summary(|users|, Sum(users.Keys, Cleared(users)), Sum(users.Keys, Retained(users)),
            Sum(users.Keys, Current(users)), Sum(users.Keys, Clear(users)), Sum(users.Keys, Retain(users)))
  }

  function MaxId(rows: seq<Row>): int {
    if rows == [] then 0
    else if |rows| == 1 then rows[0].id
    else Max(MaxId(rows[..|rows| - 1]), rows[|rows| - 1].id)
  }

  ghost function ReportOf(rows: seq<Row>, users: map<User, Bucket>, cutoff: int, batch: string, d: Digests): Report {
    var body := Body(batch, cutoff, users, SummaryOf(users), |rows|, MaxId(rows), d.ledger(rows));
    Report(body, d.body(body))
  }

  /** The outcome of a preview, refusals included. */
  ghost function Outlook(v: View, cutoff: int, batch: string, d: Digests): Result<Report, Refused> {
    match Prior(v.receipts, cutoff, batch)
    case Err(e) => Err(e)
    case Ok(Some(report)) => Ok(report)
    case Ok(None) =>
      var rows := Ordered(v.ledger);
      var opening := Opening(rows, v.members, cutoff);
      if v.unsettled then Err(Unsettled)
      else if Negative(opening) then Err(NegativeBalance)
      else
        match Replay(rows, cutoff, opening)
        case Err(e) => Err(e)
        case Ok(users) => Ok(ReportOf(rows, users, cutoff, batch, d))
  }

  // ---------------------------------------------------------------- the loops of the preview

  ghost predicate FirstPass(buckets: map<User, Bucket>, rows: seq<Row>, users: set<User>, members: set<User>, cutoff: int) {
    && buckets.Keys == users
    && forall u :: u in buckets ==>
         buckets[u] == Bucket(u in members, OldFunds(rows, u, cutoff), 0, 0, 0, Balance(rows, u), 0, 0)
  }

  function Counted(b: Bucket, r: Row, cutoff: int): Bucket {
    b.(oldAtCutoff := b.oldAtCutoff + (if r.at < cutoff then r.delta else 0), current := b.current + r.delta)
  }

  lemma FirstPassStep(buckets: map<User, Bucket>, rows: seq<Row>, r: Row, users: set<User>, members: set<User>, cutoff: int)
    requires FirstPass(buckets, rows, users, members, cutoff) && r.user in users
    ensures FirstPass(buckets[r.user := Counted(buckets[r.user], r, cutoff)], rows + [r], users, members, cutoff)
  {
  }

  /** First pass over the ledger: what every user held at the cutoff and holds now. */
  method Tally(rows: seq<Row>, members: set<User>, cutoff: int) returns (buckets: map<User, Bucket>)
    ensures FirstPass(buckets, rows, Users(rows, members), members, cutoff)
  {
    var users := members + set x | x in rows :: x.user;
    buckets := map u | u in users :: Bucket(u in members, 0, 0, 0, 0, 0, 0, 0);
    ghost var seen := [];
    for n := 0 to |rows|
      invariant seen == rows[..n] && FirstPass(buckets, seen, users, members, cutoff)
    {
      var row := rows[n];
      assert rows[..n + 1] == seen + [row] && row.user in users;
      FirstPassStep(buckets, seen, row, users, members, cutoff);
      seen := seen + [row];
      var b := buckets[row.user];
      if row.at < cutoff {
        b := b.(oldAtCutoff := b.oldAtCutoff + row.delta);
      }
      b := b.(current := b.current + row.delta);
      assert b == Counted(buckets[row.user], row, cutoff);
      buckets := buckets[row.user := b];
    }
    assert rows[..|rows|] == rows;
  }

  function PutUp(b: Bucket): Bucket { b.(clear := b.oldAtCutoff, retain := 0) }

  /** The balance guard; then all old funds are put up for clearing. */
  method Guard(first: map<User, Bucket>) returns (r: Result<map<User, Bucket>, Refused>)
    ensures r == if Negative(first) then Err(NegativeBalance) else Ok(map u | u in first :: PutUp(first[u]))
  {
    var buckets := first;
    var todo := first.Keys;
    while todo != {}
      invariant todo <= first.Keys && buckets.Keys == first.Keys
      invariant forall u :: u in first ==> buckets[u] == if u in todo then first[u] else PutUp(first[u])
      invariant forall u :: u in first && u !in todo ==> 0 <= first[u].oldAtCutoff && 0 <= first[u].current
      decreases todo
    {
      var u :| u in todo;
      var b := buckets[u];
      if b.oldAtCutoff < 0 || b.current < 0 {
        return Err(NegativeBalance);
      }
      buckets := buckets[u := b.(clear := b.oldAtCutoff, retain := 0)];
      todo := todo - {u};
    }
    assert buckets == map u | u in first :: PutUp(first[u]);
    return Ok(buckets);
  }

  method Open(rows: seq<Row>, members: set<User>, cutoff: int) returns (r: Result<map<User, Bucket>, Refused>)
    ensures r == if Negative(Opening(rows, members, cutoff)) then Err(NegativeBalance) else Ok(Opening(rows, members, cutoff))
  {
    var first := Tally(rows, members, cutoff);
    ghost var opening := Opening(rows, members, cutoff);
    assert opening == map u | u in first :: PutUp(first[u]);
    assert Negative(first) <==> Negative(opening) by {
      assert forall u :: u in first ==> opening[u].oldAtCutoff == first[u].oldAtCutoff && opening[u].current == first[u].current;
    }
    r := Guard(first);
  }

  lemma ReplayAppend(rows: seq<Row>, r: Row, cutoff: int, start: map<User, Bucket>, buckets: map<User, Bucket>)
    requires forall x :: x in rows + [r] ==> x.user in start
    requires (forall x :: x in rows ==> x.user in start) && Replay(rows, cutoff, start) == Ok(buckets)
    ensures Replay(rows + [r], cutoff, start) ==
              if r.at < cutoff then Ok(buckets)
              else match Charge(buckets[r.user], r)
                   case Err(e) => Err(e)
                   case Ok(b) => Ok(buckets[r.user := b])
  {
    assert (rows + [r])[..|rows|] == rows;
  }

  lemma {:induction false} ReplayErrorStays(rows: seq<Row>, n: nat, cutoff: int, start: map<User, Bucket>)
    requires n <= |rows| && (forall x :: x in rows ==> x.user in start)
    requires forall x :: x in rows[..n] ==> x.user in start
    requires Replay(rows[..n], cutoff, start).Err?
    ensures Replay(rows, cutoff, start) == Replay(rows[..n], cutoff, start)
    decreases |rows|
  {
    if n == |rows| {
      assert rows[..n] == rows;
    } else {
      var init := rows[..|rows| - 1];
      assert init[..n] == rows[..n] && forall x :: x in init ==> x in rows;
      ReplayErrorStays(init, n, cutoff, start);
    }
  }

  /** Charges one row since the cutoff: credits are kept, debits go to the old funds first. */
  method ChargeRow(bucket: Bucket, row: Row) returns (r: Result<Bucket, Refused>)
    ensures r == Charge(bucket, row)
  {
    var b := bucket;
    if row.delta > 0 && row.reason in CREDITS {
      b := b.(retain := b.retain + row.delta, earned := b.earned + row.delta);
    } else if row.delta < 0 && row.reason in DEBITS {
      var spend := -row.delta;
      var oldSpend := Min(b.clear, spend);
      var todaySpend := spend - oldSpend;
      if todaySpend > b.retain { return Err(Deficit(row.id)); }
      b := b.(clear := b.clear - oldSpend, retain := b.retain - todaySpend,
              oldSpent := b.oldSpent + oldSpend, todaySpent := b.todaySpent + todaySpend);
    } else {
      return Err(Ambiguous(row.id));
    }
    return Ok(b);
  }

  /** Second pass: every row since the cutoff is charged in ledger order. */
  method Spend(rows: seq<Row>, cutoff: int, start: map<User, Bucket>) returns (r: Result<map<User, Bucket>, Refused>)
    requires forall x :: x in rows ==> x.user in start
    ensures r == Replay(rows, cutoff, start)
  {
    var buckets := start;
    ghost var seen := [];
    for n := 0 to |rows|
      invariant seen == rows[..n] && (forall x :: x in seen ==> x in rows)
      invariant Replay(seen, cutoff, start) == Ok(buckets)
    {
      var row := rows[n];
      assert row in rows && rows[..n + 1] == seen + [row];
      ReplayAppend(seen, row, cutoff, start, buckets);
      seen := seen + [row];
      if row.at < cutoff { continue; }
      var charged := ChargeRow(buckets[row.user], row);
      if charged.Err? {
        ReplayErrorStays(rows, n + 1, cutoff, start);
        return Err(charged.error);
      }
      buckets := buckets[row.user := charged.value];
    }
    assert rows[..|rows|] == rows;
    return Ok(buckets);
  }

  ghost predicate BucketHolds(b: Bucket) { 0 <= b.retain <= b.current && b.clear + b.retain == b.current }

  /** The last guard of the preview can never fire. */
  lemma BucketsHold(rows: seq<Row>, members: set<User>, cutoff: int)
    requires var opening := Opening(rows, members, cutoff);
             !Negative(opening) && Replay(rows, cutoff, opening).Ok?
    ensures var users := Replay(rows, cutoff, Opening(rows, members, cutoff)).value;
            forall u :: u in users ==> BucketHolds(users[u]) && 0 <= users[u].clear
  {
    var opening := Opening(rows, members, cutoff);
    assert Fresh(opening);
    ReplayExactly(rows, cutoff, opening);
    forall u | u in opening ensures BucketHolds(Settled(opening[u], rows, u, cutoff)) {
      BalanceSplits(rows, u, cutoff);
    }
  }

  method Summarise(users: map<User, Bucket>) returns (s: Summary)
    ensures s == SummaryOf(users)
  {
    s := Summary(|users|, 0, 0, 0, 0, 0);
    ghost var all := users.Keys;
    var todo := users.Keys;
    while todo != {}
      invariant todo <= all && s.allUsers == |users|
      invariant s.clearUsers + Sum(todo, Cleared(users)) == Sum(all, Cleared(users))
      invariant s.retainUsers + Sum(todo, Retained(users)) == Sum(all, Retained(users))
      invariant s.current + Sum(todo, Current(users)) == Sum(all, Current(users))
      invariant s.clear + Sum(todo, Clear(users)) == Sum(all, Clear(users))
      invariant s.retain + Sum(todo, Retain(users)) == Sum(all, Retain(users))
      decreases todo
    {
      var u :| u in todo;
      SumRemove(todo, Cleared(users), u);
      SumRemove(todo, Retained(users), u);
      SumRemove(todo, Current(users), u);
      SumRemove(todo, Clear(users), u);
      SumRemove(todo, Retain(users), u);
      var b := users[u];
      s := Summary(s.allUsers, s.clearUsers + (if b.clear > 0 then 1 else 0), s.retainUsers + (if b.retain > 0 then 1 else 0),
                   s.current + b.current, s.clear + b.clear, s.retain + b.retain);
      todo := todo - {u};
    }
  }

  // ---------------------------------------------------------------- what a preview accepts

  function Held(ledger: seq<Row>, u: User, cutoff: int): int {
    SumBy(ledger, (r: Row) => if r.user == u && r.at < cutoff then r.delta else 0)
  }

  function Holds(ledger: seq<Row>, u: User): int {
    SumBy(ledger, (r: Row) => if r.user == u then r.delta else 0)
  }

  /** What the user of a row holds once it is booked, whatever order the ledger is stored in. */
  function HeldAfter(ledger: seq<Row>, row: Row): int {
    SumBy(ledger, (r: Row) =>
      if r.user == row.user && (r.at < row.at || (r.at == row.at && r.id <= row.id)) then r.delta else 0)
  }

  /** Earned or spent in one of the four ways that can be attributed. */
  predicate FromKnownSource(r: Row) {
    (r.delta > 0 && (r.reason == "checkin" || r.reason == "watch.reward"))
    || (r.delta < 0 && (r.reason == "shop.redeem" || r.reason == "activity.renew"))
  }

  predicate Solvent(ledger: seq<Row>, u: User, cutoff: int) { 0 <= Held(ledger, u, cutoff) && 0 <= Holds(ledger, u) }

  predicate Booked(ledger: seq<Row>, r: Row, cutoff: int) {
    r.at >= cutoff ==> FromKnownSource(r) && 0 <= HeldAfter(ledger, r)
  }

  ghost predicate Acceptable(ledger: seq<Row>, cutoff: int) {
    (forall u :: Solvent(ledger, u, cutoff)) && forall r :: r in ledger ==> Booked(ledger, r, cutoff)
  }

  /** The plain sums over the ledger as stored are those the replay works with. */
  lemma SumsAgree(ledger: seq<Row>, u: User, cutoff: int)
    ensures Held(ledger, u, cutoff) == OldFunds(Ordered(ledger), u, cutoff)
    ensures Holds(ledger, u) == Balance(Ordered(ledger), u)
  {
    OrderedRows(ledger, Before(u, cutoff));
    OrderedRows(ledger, OfUser(u));
    SumByAgrees(ledger, (r: Row) => if r.user == u && r.at < cutoff then r.delta else 0, Before(u, cutoff));
    SumByAgrees(ledger, (r: Row) => if r.user == u then r.delta else 0, OfUser(u));
  }

  lemma RunningAgrees(ledger: seq<Row>, i: nat, cutoff: int)
    requires DistinctIds(ledger) && i < |Ordered(ledger)| && Ordered(ledger)[i].at >= cutoff
    ensures var rows := Ordered(ledger); var u := rows[i].user;
            HeldAfter(ledger, rows[i]) == Running(rows, i + 1, u, cutoff, OldFunds(rows, u, cutoff))
  {
    var rows := Ordered(ledger);
    var row := rows[i];
    var f := UpTo(row.user, row.at, row.id);
    OrderedRows(ledger, f);
    OrderedDistinct(ledger);
    PrefixIsUpTo(rows, i, row.user);
    OldFundsCome(rows, i, row.user, cutoff);
    BalanceSplits(rows[..i + 1], row.user, cutoff);
    SumByAgrees(ledger, (r: Row) =>
      if r.user == row.user && (r.at < row.at || (r.at == row.at && r.id <= row.id)) then r.delta else 0, f);
  }

  lemma {:induction false} StrangerHoldsNothing(rows: seq<Row>, u: User, cutoff: int)
    requires forall r :: r in rows ==> r.user != u
    ensures OldFunds(rows, u, cutoff) == 0 && Balance(rows, u) == 0
  {
    if rows != [] {
      var init, last := rows[..|rows| - 1], rows[|rows| - 1];
      assert last in rows && forall r :: r in init ==> r in rows;
      StrangerHoldsNothing(init, u, cutoff);
    }
  }

  lemma SolventExactly(ledger: seq<Row>, members: set<User>, cutoff: int, u: User)
    ensures var opening := Opening(Ordered(ledger), members, cutoff);
            Solvent(ledger, u, cutoff) <==> u !in opening || (0 <= opening[u].oldAtCutoff && 0 <= opening[u].current)
  {
    SumsAgree(ledger, u, cutoff);
    if u !in Opening(Ordered(ledger), members, cutoff) { StrangerHoldsNothing(Ordered(ledger), u, cutoff); }
  }

  lemma NotNegativeExactly(ledger: seq<Row>, members: set<User>, cutoff: int)
    ensures !Negative(Opening(Ordered(ledger), members, cutoff)) <==> forall u :: Solvent(ledger, u, cutoff)
  {
    forall u { SolventExactly(ledger, members, cutoff, u); }
  }

  lemma KnownSources(r: Row)
    ensures FromKnownSource(r) <==> Allowed(r)
  {
  }

  lemma FundedMeans(rows: seq<Row>, i: nat, cutoff: int, opening: map<User, Bucket>, held: int)
    requires i < |rows| && rows[i].user in opening
    requires rows[i].at >= cutoff ==> held == Running(rows, i + 1, rows[i].user, cutoff, opening[rows[i].user].clear)
    ensures Funded(rows, i, cutoff, opening) <==> (rows[i].at >= cutoff ==> FromKnownSource(rows[i]) && 0 <= held)
  {
    KnownSources(rows[i]);
  }

  lemma FundedAt(ledger: seq<Row>, opening: map<User, Bucket>, cutoff: int, i: nat)
    requires DistinctIds(ledger) && i < |Ordered(ledger)| && Ordered(ledger)[i].user in opening
    requires opening[Ordered(ledger)[i].user].clear == OldFunds(Ordered(ledger), Ordered(ledger)[i].user, cutoff)
    ensures Funded(Ordered(ledger), i, cutoff, opening) <==> Booked(ledger, Ordered(ledger)[i], cutoff)
  {
    var rows := Ordered(ledger);
    if rows[i].at >= cutoff { RunningAgrees(ledger, i, cutoff); }
    FundedMeans(rows, i, cutoff, opening, HeldAfter(ledger, rows[i]));
  }

  lemma FundedExactly(ledger: seq<Row>, members: set<User>, cutoff: int)
    requires DistinctIds(ledger)
    ensures AllFunded(Ordered(ledger), cutoff, Opening(Ordered(ledger), members, cutoff)) <==>
              forall r :: r in ledger ==> Booked(ledger, r, cutoff)
  {
    var rows := Ordered(ledger);
    var opening := Opening(rows, members, cutoff);
    forall i | 0 <= i < |rows| ensures Funded(rows, i, cutoff, opening) <==> Booked(ledger, rows[i], cutoff) {
      assert rows[i] in rows;
      FundedAt(ledger, opening, cutoff, i);
    }
    EachRow(rows, ledger, cutoff, opening);
  }

  lemma EachRow(rows: seq<Row>, ledger: seq<Row>, cutoff: int, opening: map<User, Bucket>)
    requires (forall x :: x in rows <==> x in ledger) && forall x :: x in rows ==> x.user in opening
    requires forall i :: 0 <= i < |rows| ==> (Funded(rows, i, cutoff, opening) <==> Booked(ledger, rows[i], cutoff))
    ensures AllFunded(rows, cutoff, opening) <==> forall r :: r in ledger ==> Booked(ledger, r, cutoff)
  {
    if AllFunded(rows, cutoff, opening) {
      forall r | r in ledger ensures Booked(ledger, r, cutoff) {
        assert r in rows;
        var i :| 0 <= i < |rows| && rows[i] == r;
        assert Funded(rows, i, cutoff, opening);
      }
    } else {
      var i :| 0 <= i < |rows| && !Funded(rows, i, cutoff, opening);
      assert rows[i] in rows;
    }
  }

  lemma FirstPreview(v: View, cutoff: int, batch: string, d: Digests)
    requires v.receipts == map[] && !v.unsettled && 0 < cutoff && 1 <= |batch| <= 100
    ensures var opening := Opening(Ordered(v.ledger), v.members, cutoff);
            Outlook(v, cutoff, batch, d).Ok? <==> !Negative(opening) && Replay(Ordered(v.ledger), cutoff, opening).Ok?
  {
    assert Prior(v.receipts, cutoff, batch) == Ok(None);
  }

  /**
    A first preview succeeds exactly if no user's funds at the cutoff or now are negative, every row since
    the cutoff has a known source, and none of them leaves its user below zero at its place in time.
  */
  lemma AcceptsExactly(v: View, cutoff: int, batch: string, d: Digests)
    requires v.receipts == map[] && !v.unsettled && 0 < cutoff && 1 <= |batch| <= 100 && DistinctIds(v.ledger)
    ensures Outlook(v, cutoff, batch, d).Ok? <==> Acceptable(v.ledger, cutoff)
  {
    FirstPreview(v, cutoff, batch, d);
    NotNegativeExactly(v.ledger, v.members, cutoff);
    FundedExactly(v.ledger, v.members, cutoff);
    if !Negative(Opening(Ordered(v.ledger), v.members, cutoff)) { ReplayAfterGuard(Ordered(v.ledger), v.members, cutoff); }
  }

  lemma ReplayAfterGuard(rows: seq<Row>, members: set<User>, cutoff: int)
    requires !Negative(Opening(rows, members, cutoff))
    ensures var opening := Opening(rows, members, cutoff);
            Replay(rows, cutoff, opening).Ok? <==> AllFunded(rows, cutoff, opening)
  {
    assert Fresh(Opening(rows, members, cutoff));
    ReplayExactly(rows, cutoff, Opening(rows, members, cutoff));
  }

  // ---------------------------------------------------------------- what applying does

  function Delta(): Row -> int { (r: Row) => r.delta }

  ghost predicate IsClearing(r: Row, body: Body, now: int) {
    && r.user in body.users && r.delta == -body.users[r.user].clear < 0 && r.balanceAfter == body.users[r.user].retain
    && r.reason == REASON && r.ref == body.batch && r.at == now
  }

  /** The appended rows come in the order of their users, one for each. */
  ghost predicate UsersAscend(before: seq<Row>, after: seq<Row>) {
    forall i, j :: |before| <= i < j < |after| ==> Less(after[i].user, after[j].user)
  }

  /** The rows a reset appends clear exactly the reported old funds and nothing else. */
  ghost predicate Clears(before: seq<Row>, after: seq<Row>, body: Body, now: int) {
    && before <= after
    && (forall i :: |before| <= i < |after| ==> IsClearing(after[i], body, now))
    && UsersAscend(before, after)
    && (forall u :: Balance(after, u) == Balance(before, u) - Clear(body.users)(u))
    && SumBy(after, Delta()) == SumBy(before, Delta()) - Sum(body.users.Keys, Clear(body.users))
  }

  function Taken(users: map<User, Bucket>, todo: set<User>, u: User): int { if u in todo then 0 else Clear(users)(u) }

  lemma BalancesAfter(rows: seq<Row>, r: Row)
    ensures forall u :: Balance(rows + [r], u) == Balance(rows, u) + if r.user == u then r.delta else 0
  {
  }

  /** As Clears, with the users in todo still to come. */
  ghost predicate ClearsSome(before: seq<Row>, after: seq<Row>, body: Body, todo: set<User>, now: int) {
    && before <= after
    && (forall i :: |before| <= i < |after| ==> IsClearing(after[i], body, now))
    && (forall u :: Balance(after, u) == Balance(before, u) - Taken(body.users, todo, u))
    && SumBy(after, Delta()) == SumBy(before, Delta()) - Sum(body.users.Keys, Clear(body.users)) + Sum(todo, Clear(body.users))
  }

  /** The row for a user's old funds, if any are left. */
  function WithClearing(rows: seq<Row>, body: Body, u: User, id: int, now: int): seq<Row>
    requires u in body.users
  {
    var b := body.users[u];
    if b.clear != 0 then rows + [Row(id, u, -b.clear, b.retain, REASON, body.batch, "maintenance", now)] else rows
  }

  lemma ClearsOne(before: seq<Row>, after: seq<Row>, body: Body, todo: set<User>, u: User, id: int, now: int)
    requires ClearsSome(before, after, body, todo, now) && u in todo && u in body.users && 0 <= body.users[u].clear
    ensures ClearsSome(before, WithClearing(after, body, u, id, now), body, todo - {u}, now)
  {
    var b := body.users[u];
    SumRemove(todo, Clear(body.users), u);
    if b.clear != 0 {
      var row := Row(id, u, -b.clear, b.retain, REASON, body.batch, "maintenance", now);
      SumByAppend(after, row, Delta());
      BalancesAfter(after, row);
    }
  }

  /** sorted() of the users. */
  method SortedUsers(users: set<User>) returns (order: seq<User>)
    ensures Ascending(order) && forall u :: u in order <==> u in users
  {
    order := [];
    var todo := users;
    while todo != {}
      invariant todo <= users && Ascending(order)
      invariant forall u :: u in order <==> u in users - todo
      decreases todo
    {
      var u :| u in todo;
      InsertAscending(order, u);
      order := Text.Insert(order, u);
      todo := todo - {u};
    }
  }

  ghost predicate UsersWithin(before: seq<Row>, after: seq<Row>, users: seq<User>) {
    forall i :: |before| <= i < |after| ==> after[i].user in users
  }

  ghost function From(order: seq<User>, n: nat): set<User>
    requires n <= |order|
  {
    set u | u in order[n..]
  }

  lemma OneFewer(order: seq<User>, n: nat)
    requires Ascending(order) && n < |order|
    ensures order[n] in From(order, n) && From(order, n + 1) == From(order, n) - {order[n]}
  {
    assert order[n..] == [order[n]] + order[n + 1..];
    if order[n] in order[n + 1..] {
      var k :| 0 <= k < |order[n + 1..]| && order[n + 1..][k] == order[n];
      LessTotal(order[n], order[n + 1 + k]);
    }
  }

  /** The first n users of the order have been dealt with. */
  ghost predicate Clearing(before: seq<Row>, after: seq<Row>, body: Body, order: seq<User>, n: nat, now: int)
    requires n <= |order|
  {
    ClearsSome(before, after, body, From(order, n), now) && UsersAscend(before, after) && UsersWithin(before, after, order[..n])
  }

  lemma ClearingStarts(before: seq<Row>, body: Body, order: seq<User>, now: int)
    requires forall u :: u in order <==> u in body.users
    ensures Clearing(before, before, body, order, 0, now)
  {
    assert order[0..] == order && From(order, 0) == body.users.Keys;
  }

  lemma ClearingOne(before: seq<Row>, after: seq<Row>, body: Body, order: seq<User>, n: nat, id: int, now: int)
    requires n < |order| && Ascending(order) && order[n] in body.users && 0 <= body.users[order[n]].clear
    requires Clearing(before, after, body, order, n, now)
    ensures Clearing(before, WithClearing(after, body, order[n], id, now), body, order, n + 1, now)
  {
    var u := order[n];
    OneFewer(order, n);
    ClearsOne(before, after, body, From(order, n), u, id, now);
    if body.users[u].clear != 0 {
      var b := body.users[u];
      UserAscends(before, after, order, n, Row(id, u, -b.clear, b.retain, REASON, body.batch, "maintenance", now));
    }
    assert order[..n + 1] == order[..n] + [u];
  }

  lemma ClearingEnds(before: seq<Row>, after: seq<Row>, body: Body, order: seq<User>, now: int)
    requires Clearing(before, after, body, order, |order|, now)
    ensures Clears(before, after, body, now)
  {
    assert From(order, |order|) == {};
  }

  lemma UserAscends(before: seq<Row>, after: seq<Row>, order: seq<User>, n: nat, row: Row)
    requires before <= after && UsersAscend(before, after) && Ascending(order) && n < |order| && row.user == order[n]
    requires UsersWithin(before, after, order[..n])
    ensures UsersAscend(before, after + [row])
  {
    forall i | |before| <= i < |after| ensures Less(after[i].user, row.user) {
      var k :| 0 <= k < n && order[k] == after[i].user;
    }
  }

  /** What a fresh report lists can be cleared. */
  lemma FreshReportClears(v: View, cutoff: int, batch: string, d: Digests)
    requires Prior(v.receipts, cutoff, batch) == Ok(None) && Outlook(v, cutoff, batch, d).Ok?
    ensures var users := Outlook(v, cutoff, batch, d).value.body.users; forall u :: u in users ==> 0 <= users[u].clear
  {
    BucketsHold(Ordered(v.ledger), v.members, cutoff);
  }

  /** One apply call, from the state before to the state after and the result. */
  ghost predicate Applies(v: View, w: View, cutoff: int, batch: string, hash: Hash, now: int, d: Digests,
                          r: Result<Report, Refused>)
  {
    match Prior(v.receipts, cutoff, batch)
    case Err(e) => w == v && r == Err(e)
    case Ok(Some(report)) => w == v && r == if report.hash == hash then Ok(report) else Err(HashMismatch)
    case Ok(None) =>
      match Outlook(v, cutoff, batch, d)
      case Err(e) => w == v && r == Err(e)
      case Ok(report) =>
        if report.hash != hash then w == v && r == Err(LedgerChanged)
        else if now < cutoff then w == v && r == Err(FutureCutoff)
        else
          && r == Ok(report)
          && w.members == v.members && w.unsettled == v.unsettled
          && w.receipts == v.receipts[batch := Receipt(cutoff, report)]
          && Clears(v.ledger, w.ledger, report.body, now)
  }

  class Database {
    var members: set<User>
    var ledger: seq<Row>
    var receipts: map<string, Receipt>
    var unsettled: bool
    var nextId: int
    const digests: Digests

    constructor (members: set<User>, digests: Digests)
      ensures Now() == View(members, [], map[], false) && this.digests == digests
    {
      this.members, this.digests := members, digests;
      ledger, receipts, unsettled, nextId := [], map[], false, 1;
    }

    function Now(): View
      reads this
    {
      View(members, ledger, receipts, unsettled)
    }

    method Preview(cutoff: int, batch: string) returns (r: Result<Report, Refused>)
      ensures r == Outlook(Now(), cutoff, batch, digests)
      ensures receipts == map[] && !unsettled && 0 < cutoff && 1 <= |batch| <= 100 && DistinctIds(ledger) ==>
                (r.Ok? <==> Acceptable(ledger, cutoff))
    {
      if receipts == map[] && !unsettled && 0 < cutoff && 1 <= |batch| <= 100 && DistinctIds(ledger) {
        AcceptsExactly(Now(), cutoff, batch, digests);
      }
      var prior := Prior(receipts, cutoff, batch);
      if prior.Err? { return Err(prior.error); }
      if prior.value.Some? { return Ok(prior.value.value); }
      if unsettled { return Err(Unsettled); }
      var rows := Ordered(ledger);
      var opening := Open(rows, members, cutoff);
      if opening.Err? { return Err(opening.error); }
      var spent := Spend(rows, cutoff, opening.value);
      if spent.Err? { return Err(spent.error); }
      var users := spent.value;
      BucketsHold(rows, members, cutoff);
      var todo := users.Keys;
      while todo != {}
        invariant todo <= users.Keys
        decreases todo
      {
        var u :| u in todo;
        var b := users[u];
        if !(0 <= b.retain <= b.current) || b.clear + b.retain != b.current {
          assert false;
          return Err(BucketBroken);
        }
        todo := todo - {u};
      }
      var summary := Summarise(users);
      var body := Body(batch, cutoff, users, summary, |rows|, MaxId(rows), digests.ledger(rows));
      return Ok(Report(body, digests.body(body)));
    }

    method InsertClearing(body: Body, u: User, now: int)
      requires u in body.users
      modifies this`ledger, this`nextId
      ensures ledger == WithClearing(old(ledger), body, u, old(nextId), now)
      ensures nextId == old(nextId) + |ledger| - |old(ledger)|
    {
      var b := body.users[u];
      if b.clear != 0 {
        ledger := ledger + [Row(nextId, u, -b.clear, b.retain, REASON, body.batch, "maintenance", now)];
        nextId := nextId + 1;
      }
    }

    /** Appends one clearing row for every user with old funds left, in the order of the users. */
    method AppendClearing(body: Body, now: int)
      requires forall u :: u in body.users ==> 0 <= body.users[u].clear
      modifies this`ledger, this`nextId
      ensures Clears(old(ledger), ledger, body, now)
    {
      ghost var before := ledger;
      var order := SortedUsers(body.users.Keys);
      ClearingStarts(before, body, order, now);
      for n := 0 to |order|
        invariant Clearing(before, ledger, body, order, n, now)
      {
        assert order[n] in order;
        ClearingOne(before, ledger, body, order, n, nextId, now);
        InsertClearing(body, order[n], now);
      }
      ClearingEnds(before, ledger, body, order, now);
    }

    /** The writing part of a confirmed apply. */
    method Commit(cutoff: int, batch: string, report: Report, now: int)
      requires Prior(receipts, cutoff, batch) == Ok(None) && Outlook(Now(), cutoff, batch, digests) == Ok(report)
      modifies this`ledger, this`nextId, this`receipts
      ensures receipts == old(receipts)[batch := Receipt(cutoff, report)] && Clears(old(ledger), ledger, report.body, now)
    {
      FreshReportClears(Now(), cutoff, batch, digests);
      AppendClearing(report.body, now);
      receipts := receipts[batch := Receipt(cutoff, report)];
    }

    method Apply(cutoff: int, batch: string, hash: Hash, now: int) returns (r: Result<Report, Refused>)
      modifies this
      ensures Applies(old(Now()), Now(), cutoff, batch, hash, now, digests, r)
    {
      var prior := Prior(receipts, cutoff, batch);
      if prior.Err? { return Err(prior.error); }
      if prior.value.Some? {
        if prior.value.value.hash != hash { return Err(HashMismatch); }
        return Ok(prior.value.value);
      }
      var preview := Preview(cutoff, batch);
      if preview.Err? { return preview; }
      var report := preview.value;
      if report.hash != hash { return Err(LedgerChanged); }
      if now < cutoff { return Err(FutureCutoff); }
      Commit(cutoff, batch, report, now);
      return Ok(report);
    }
  }

  // ---------------------------------------------------------------- over any sequence of calls

  /** What a bucket says of a user: funds held, earned and spent, what is cleared and what is retained. */
  ghost predicate IsBucket(b: Bucket, rows: seq<Row>, members: set<User>, cutoff: int, u: User) {
    && (b.memberExists <==> u in members)
    && b.oldAtCutoff == OldFunds(rows, u, cutoff) && b.current == Balance(rows, u)
    && b.clear == Max(0, OldFunds(rows, u, cutoff) - Spent(rows, u, cutoff))
    && 0 <= b.retain && b.clear + b.retain == b.current
    && b.oldSpent == b.oldAtCutoff - b.clear && b.oldSpent + b.todaySpent == Spent(rows, u, cutoff)
    && b.earned == Moved(rows, u, cutoff) + Spent(rows, u, cutoff)
  }

  lemma SettledUser(rows: seq<Row>, members: set<User>, cutoff: int, u: User)
    requires !Negative(Opening(rows, members, cutoff)) && Replay(rows, cutoff, Opening(rows, members, cutoff)).Ok?
    requires u in Replay(rows, cutoff, Opening(rows, members, cutoff)).value
    ensures IsBucket(Replay(rows, cutoff, Opening(rows, members, cutoff)).value[u], rows, members, cutoff, u)
  {
    var opening := Opening(rows, members, cutoff);
    assert Fresh(opening);
    ReplayExactly(rows, cutoff, opening);
    BucketsHold(rows, members, cutoff);
    BalanceSplits(rows, u, cutoff);
    assert u in opening;
  }

  lemma OrderDoesNotShow(b: Bucket, ledger: seq<Row>, members: set<User>, cutoff: int, u: User)
    requires IsBucket(b, Ordered(ledger), members, cutoff, u)
    ensures IsBucket(b, ledger, members, cutoff, u)
  {
    OrderedRows(ledger, OfUser(u));
    OrderedRows(ledger, Before(u, cutoff));
    OrderedRows(ledger, Since(u, cutoff));
    OrderedRows(ledger, SpentSince(u, cutoff));
    BySumsAlone(b, Ordered(ledger), ledger, members, cutoff, u);
  }

  lemma BySumsAlone(b: Bucket, rows: seq<Row>, ledger: seq<Row>, members: set<User>, cutoff: int, u: User)
    requires Balance(rows, u) == Balance(ledger, u) && OldFunds(rows, u, cutoff) == OldFunds(ledger, u, cutoff)
    requires Moved(rows, u, cutoff) == Moved(ledger, u, cutoff) && Spent(rows, u, cutoff) == Spent(ledger, u, cutoff)
    ensures IsBucket(b, rows, members, cutoff, u) <==> IsBucket(b, ledger, members, cutoff, u)
  {
  }

  lemma FirstReport(v: View, cutoff: int, batch: string, d: Digests)
    requires v.receipts == map[] && Outlook(v, cutoff, batch, d).Ok?
    ensures var opening := Opening(Ordered(v.ledger), v.members, cutoff);
            && !Negative(opening) && Replay(Ordered(v.ledger), cutoff, opening).Ok?
            && Outlook(v, cutoff, batch, d).value.body.users == Replay(Ordered(v.ledger), cutoff, opening).value
  {
    assert Prior(v.receipts, cutoff, batch) == Ok(None);
  }

  /** What a preview reports of one user, in terms of the ledger itself. */
  lemma ReportedBucket(v: View, cutoff: int, batch: string, d: Digests, u: User)
    requires v.receipts == map[] && Outlook(v, cutoff, batch, d).Ok?
    requires u in Outlook(v, cutoff, batch, d).value.body.users
    ensures IsBucket(Outlook(v, cutoff, batch, d).value.body.users[u], v.ledger, v.members, cutoff, u)
  {
    FirstReport(v, cutoff, batch, d);
    SettledUser(Ordered(v.ledger), v.members, cutoff, u);
    OrderDoesNotShow(Outlook(v, cutoff, batch, d).value.body.users[u], v.ledger, v.members, cutoff, u);
  }

  /** A first apply succeeds exactly on an acceptable ledger, under the hash its preview gives, from the cutoff on. */
  lemma AppliesExactly(v: View, w: View, cutoff: int, batch: string, hash: Hash, now: int, d: Digests, r: Result<Report, Refused>)
    requires Applies(v, w, cutoff, batch, hash, now, d, r)
    requires v.receipts == map[] && !v.unsettled && 0 < cutoff && 1 <= |batch| <= 100 && DistinctIds(v.ledger)
    ensures r.Ok? <==>
              Acceptable(v.ledger, cutoff) && Outlook(v, cutoff, batch, d).Ok?
              && Outlook(v, cutoff, batch, d).value.hash == hash && cutoff <= now
    ensures r.Ok? ==> r == Outlook(v, cutoff, batch, d) && w.receipts == map[batch := Receipt(cutoff, r.value)]
    ensures r.Err? ==> w == v
  {
    assert Prior(v.receipts, cutoff, batch) == Ok(None);
    AcceptsExactly(v, cutoff, batch, d);
  }

  lemma OpeningUsers(rows: seq<Row>, ledger: seq<Row>, members: set<User>, cutoff: int, u: User)
    requires forall r :: r in rows <==> r in ledger
    ensures u in Opening(rows, members, cutoff) <==> u in members || exists r :: r in ledger && r.user == u
  {
    if u in Opening(rows, members, cutoff) && u !in members {
      var r :| r in rows && r.user == u;
      assert r in ledger;
    } else if r :| r in ledger && r.user == u {
      assert r in rows;
    }
  }

  /** A fresh report lists every member and every user of the ledger, and nobody else. */
  lemma ReportedUsers(v: View, cutoff: int, batch: string, d: Digests, u: User)
    requires v.receipts == map[] && Outlook(v, cutoff, batch, d).Ok?
    ensures u in Outlook(v, cutoff, batch, d).value.body.users <==> u in v.members || exists r :: r in v.ledger && r.user == u
  {
    FirstReport(v, cutoff, batch, d);
    OpeningUsers(Ordered(v.ledger), v.ledger, v.members, cutoff, u);
  }

  /** The summary counts the users with something to clear and with something to keep. */
  lemma SummaryCounts(users: map<User, Bucket>)
    ensures SummaryOf(users).clearUsers == |set u | u in users && 0 < users[u].clear|
    ensures SummaryOf(users).retainUsers == |set u | u in users && 0 < users[u].retain|
  {
    SumCounts(users.Keys, Cleared(users), set u | u in users && 0 < users[u].clear);
    SumCounts(users.Keys, Retained(users), set u | u in users && 0 < users[u].retain);
  }

  /** The greatest id of the ledger. */
  lemma {:induction false} MaxIdMeans(rows: seq<Row>)
    requires rows != []
    ensures (exists r :: r in rows && r.id == MaxId(rows)) && forall r :: r in rows ==> r.id <= MaxId(rows)
  {
    if |rows| == 1 {
      assert rows[0] in rows && forall r :: r in rows ==> r == rows[0];
    } else {
      var init, last := rows[..|rows| - 1], rows[|rows| - 1];
      MaxIdMeans(init);
      assert rows == init + [last] && last in rows;
      var r :| r in init && r.id == MaxId(init);
      assert r in rows;
    }
  }

  /** The first success leaves every user with what was retained and takes the reported sum out. */
  lemma ResetKeepsEarnings(v: View, w: View, cutoff: int, batch: string, hash: Hash, now: int, d: Digests, report: Report, u: User)
    requires v.receipts == map[] && Applies(v, w, cutoff, batch, hash, now, d, Ok(report))
    requires u in report.body.users
    ensures Balance(w.ledger, u) == report.body.users[u].retain
    ensures report.body.users[u].retain == Balance(v.ledger, u) - Max(0, OldFunds(v.ledger, u, cutoff) - Spent(v.ledger, u, cutoff))
    ensures SumBy(w.ledger, Delta()) == SumBy(v.ledger, Delta()) - report.body.summary.clear
  {
    ReportedBucket(v, cutoff, batch, d, u);
    assert Clears(v.ledger, w.ledger, report.body, now);
    assert Balance(w.ledger, u) == Balance(v.ledger, u) - Clear(report.body.users)(u);
  }

  /** A step of the database: an apply call with its result, or anything else that leaves the receipts of this scope alone. */
  datatype Step = Apply(cutoff: int, batch: string, hash: Hash, now: int, result: Result<Report, Refused>) | Other

  ghost predicate Steps(states: seq<View>, steps: seq<Step>, d: Digests) {
    && |states| == |steps| + 1 && states[0].receipts == map[]
    && forall i :: 0 <= i < |steps| ==> StepAt(states, steps, d, i)
  }

  ghost predicate StepAt(states: seq<View>, steps: seq<Step>, d: Digests, i: nat)
    requires |states| == |steps| + 1 && i < |steps|
  {
    match steps[i]
    case Apply(cutoff, batch, hash, now, result) => Applies(states[i], states[i + 1], cutoff, batch, hash, now, d, result)
    case Other => states[i + 1].receipts == states[i].receipts
  }

  lemma {:induction false} OneReceiptEver(states: seq<View>, steps: seq<Step>, d: Digests, i: nat, j: nat)
    requires Steps(states, steps, d) && i <= j < |states|
    ensures |states[j].receipts| <= 1
    ensures states[i].receipts != map[] ==> states[j].receipts == states[i].receipts
    decreases j
  {
    if j > 0 {
      if i < j { OneReceiptEver(states, steps, d, i, j - 1); } else { OneReceiptEver(states, steps, d, j - 1, j - 1); }
      assert StepAt(states, steps, d, j - 1);
      var was := states[j - 1].receipts;
      if was != map[] && steps[j - 1].Apply? {
        assert Prior(was, steps[j - 1].cutoff, steps[j - 1].batch) != Ok(None);
      }
    }
  }

  /**
    However often the tool is run, the ledger is reset at most once: every success reports the same
    result, and all but the first leave the database as it was.
  */
  lemma ResetsOnce(states: seq<View>, steps: seq<Step>, d: Digests, i: nat, j: nat)
    requires Steps(states, steps, d) && i < j < |steps|
    requires steps[i].Apply? && steps[i].result.Ok?
    requires steps[j].Apply?
    ensures states[j + 1] == states[j]
    ensures steps[j].result.Ok? ==> steps[j].result == steps[i].result
    ensures steps[j].batch == steps[i].batch && steps[j].cutoff == steps[i].cutoff && steps[j].hash == steps[i].hash
            ==> steps[j].result == steps[i].result
    ensures steps[j].batch != steps[i].batch || steps[j].cutoff != steps[i].cutoff ==> steps[j].result.Err?
  {
    assert StepAt(states, steps, d, i) && StepAt(states, steps, d, j);
    var a := steps[i];
    OneReceiptEver(states, steps, d, 0, i);
    assert states[i + 1].receipts == map[a.batch := Receipt(a.cutoff, a.result.value)] by {
      if a.batch in states[i].receipts { OnlyKey(states[i].receipts, a.batch); }
    }
    OneReceiptEver(states, steps, d, i + 1, j);
  }

  lemma OnlyKey(m: map<string, Receipt>, k: string)
    requires |m| <= 1 && k in m
    ensures m == map[k := m[k]]
  {
    assert m.Keys == {k} + (m.Keys - {k});
    assert |m.Keys| == 1 + |m.Keys - {k}|;
  }
}

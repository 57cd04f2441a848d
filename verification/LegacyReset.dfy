/**
  The one-time points reset.  Funds held at the cutoff are cleared, funds earned after it
  are kept; spending after the cutoff is charged to the old funds first, in ledger order.
*/
module LegacyReset {
  import opened Numbers
  import opened Wrappers

  const REASON := "admin.reset_legacy"
  const CREDITS: set<string> := {"checkin", "watch.reward"}
  const DEBITS: set<string> := {"shop.redeem", "activity.renew"}

  type User = string
  type Hash = string

  datatype Row = Row(id: int, user: User, delta: int, balanceAfter: int, reason: string, ref: string, actor: string, at: int)

  datatype Bucket = Bucket(
    memberExists: bool, oldAtCutoff: int, earned: int, oldSpent: int, todaySpent: int, current: int, clear: int, retain: int)

  datatype Summary = Summary(allUsers: int, clearUsers: int, retainUsers: int, current: int, clear: int, retain: int)

  datatype Body = Body(
    batch: string, cutoff: int, users: map<User, Bucket>, summary: Summary, ledgerRows: int, ledgerMaxId: int, ledgerHash: Hash)

  datatype Report = Report(body: Body, hash: Hash)

  datatype Refused =
    | InvalidRequest | CutoffDiffers | OtherBatchExists | Unsettled | NegativeBalance
    | Deficit(row: int) | Ambiguous(row: int) | BucketBroken | HashMismatch | LedgerChanged | FutureCutoff

  // ---------------------------------------------------------------- sums over a ledger

  function SumBy(rows: seq<Row>, f: Row -> int): int {
    if rows == [] then 0 else SumBy(rows[..|rows| - 1], f) + f(rows[|rows| - 1])
  }

  function OfUser(u: User): Row -> int { (r: Row) => if r.user == u then r.delta else 0 }
  function Before(u: User, cutoff: int): Row -> int { (r: Row) => if r.user == u && r.at < cutoff then r.delta else 0 }
  function Since(u: User, cutoff: int): Row -> int { (r: Row) => if r.user == u && r.at >= cutoff then r.delta else 0 }
  function SpentSince(u: User, cutoff: int): Row -> int {
    (r: Row) => if r.user == u && r.at >= cutoff && r.delta < 0 then -r.delta else 0
  }

  function Balance(rows: seq<Row>, u: User): int { SumBy(rows, OfUser(u)) }
  function OldFunds(rows: seq<Row>, u: User, cutoff: int): int { SumBy(rows, Before(u, cutoff)) }
  function Moved(rows: seq<Row>, u: User, cutoff: int): int { SumBy(rows, Since(u, cutoff)) }
  function Spent(rows: seq<Row>, u: User, cutoff: int): int { SumBy(rows, SpentSince(u, cutoff)) }

  lemma {:induction false} BalanceSplits(rows: seq<Row>, u: User, cutoff: int)
    ensures Balance(rows, u) == OldFunds(rows, u, cutoff) + Moved(rows, u, cutoff)
    ensures 0 <= Spent(rows, u, cutoff)
    ensures 0 <= Moved(rows, u, cutoff) + Spent(rows, u, cutoff)
  {
    if rows != [] {
      BalanceSplits(rows[..|rows| - 1], u, cutoff);
    }
  }

  lemma SumByAppend(rows: seq<Row>, r: Row, f: Row -> int)
    ensures SumBy(rows + [r], f) == SumBy(rows, f) + f(r)
  {
    assert (rows + [r])[..|rows|] == rows;
  }

  // ---------------------------------------------------------------- ORDER BY created_at, id

  predicate NotAfter(a: Row, b: Row) { a.at < b.at || (a.at == b.at && a.id <= b.id) }

  ghost predicate InOrder(rows: seq<Row>) {
    forall i, j :: 0 <= i < j < |rows| ==> NotAfter(rows[i], rows[j])
  }

  function Insert(rows: seq<Row>, r: Row): (s: seq<Row>)
    ensures |s| == |rows| + 1
    ensures forall x :: x in s <==> x in rows || x == r
  {
    if rows == [] || NotAfter(rows[|rows| - 1], r) then rows + [r]
    else
      var init, last := rows[..|rows| - 1], rows[|rows| - 1];
      assert rows == init + [last];
      Insert(init, r) + [last]
  }

  function Ordered(rows: seq<Row>): (s: seq<Row>)
    ensures |s| == |rows|
    ensures forall x :: x in s <==> x in rows
  {
    if rows == [] then []
    else
      var init, last := rows[..|rows| - 1], rows[|rows| - 1];
      assert rows == init + [last];
      Insert(Ordered(init), last)
  }

  lemma {:induction false} InsertInOrder(rows: seq<Row>, r: Row)
    requires InOrder(rows)
    ensures InOrder(Insert(rows, r))
  {
    if rows == [] || NotAfter(rows[|rows| - 1], r) {
    } else {
      var init, last := rows[..|rows| - 1], rows[|rows| - 1];
      InsertInOrder(init, r);
      var s := Insert(init, r);
      forall i | 0 <= i < |s| ensures NotAfter(s[i], last) {
        assert s[i] in s;
        if s[i] != r {
          var k :| 0 <= k < |init| && init[k] == s[i];
          assert rows[k] == s[i];
        }
      }
    }
  }

  lemma {:induction false} InsertSums(rows: seq<Row>, r: Row, f: Row -> int)
    ensures SumBy(Insert(rows, r), f) == SumBy(rows, f) + f(r)
  {
    if rows == [] || NotAfter(rows[|rows| - 1], r) {
      SumByAppend(rows, r, f);
    } else {
      var init, last := rows[..|rows| - 1], rows[|rows| - 1];
      InsertSums(init, r, f);
      SumByAppend(Insert(init, r), last, f);
    }
  }

  /** The query returns the ledger's rows, all of them, oldest first and by id within a moment; sums do not notice. */
  lemma {:induction false} OrderedRows(rows: seq<Row>, f: Row -> int)
    ensures InOrder(Ordered(rows))
    ensures forall i, j :: 0 <= i < j < |rows| ==>
              var a, b := Ordered(rows)[i], Ordered(rows)[j]; a.at < b.at || (a.at == b.at && a.id <= b.id)
    ensures SumBy(Ordered(rows), f) == SumBy(rows, f)
  {
    if rows != [] {
      var init, last := rows[..|rows| - 1], rows[|rows| - 1];
      OrderedRows(init, f);
      InsertInOrder(Ordered(init), last);
      InsertSums(Ordered(init), last, f);
    }
  }

  lemma {:induction false} InsertAdds(rows: seq<Row>, r: Row)
    ensures multiset(Insert(rows, r)) == multiset(rows) + multiset{r}
  {
    if rows != [] && !NotAfter(rows[|rows| - 1], r) {
      var init, last := rows[..|rows| - 1], rows[|rows| - 1];
      InsertAdds(init, r);
      assert rows == init + [last];
    }
  }

  lemma {:induction false} OrderedIsPermutation(rows: seq<Row>)
    ensures multiset(Ordered(rows)) == multiset(rows)
  {
    if rows != [] {
      var init, last := rows[..|rows| - 1], rows[|rows| - 1];
      OrderedIsPermutation(init);
      InsertAdds(Ordered(init), last);
      assert rows == init + [last];
    }
  }

  /** The primary key of the ledger. */
  ghost predicate DistinctIds(rows: seq<Row>) { forall i, j :: 0 <= i < j < |rows| ==> rows[i].id != rows[j].id }

  lemma DistinctAppend(rows: seq<Row>, r: Row)
    ensures DistinctIds(rows + [r]) <==> DistinctIds(rows) && forall x :: x in rows ==> x.id != r.id
  {
    var all := rows + [r];
    if DistinctIds(all) {
      forall i, j | 0 <= i < j < |rows| ensures rows[i].id != rows[j].id { assert all[i].id != all[j].id; }
      forall x | x in rows ensures x.id != r.id {
        var k :| 0 <= k < |rows| && rows[k] == x;
        assert all[k].id != all[|rows|].id;
      }
    }
  }

  lemma {:induction false} InsertDistinct(rows: seq<Row>, r: Row)
    requires DistinctIds(rows) && forall x :: x in rows ==> x.id != r.id
    ensures DistinctIds(Insert(rows, r))
  {
    if rows == [] || NotAfter(rows[|rows| - 1], r) {
      DistinctAppend(rows, r);
    } else {
      var init, last := rows[..|rows| - 1], rows[|rows| - 1];
      assert rows == init + [last] && last in rows && forall x :: x in init ==> x in rows;
      DistinctAppend(init, last);
      InsertDistinct(init, r);
      DistinctAppend(Insert(init, r), last);
    }
  }

  lemma {:induction false} OrderedDistinct(rows: seq<Row>)
    requires DistinctIds(rows)
    ensures DistinctIds(Ordered(rows))
  {
    if rows != [] {
      var init, last := rows[..|rows| - 1], rows[|rows| - 1];
      assert rows == init + [last];
      DistinctAppend(init, last);
      OrderedDistinct(init);
      InsertDistinct(Ordered(init), last);
    }
  }

  lemma {:induction false} SumByAgrees(rows: seq<Row>, f: Row -> int, g: Row -> int)
    requires forall r :: r in rows ==> f(r) == g(r)
    ensures SumBy(rows, f) == SumBy(rows, g)
  {
    if rows != [] {
      var init, last := rows[..|rows| - 1], rows[|rows| - 1];
      assert last in rows && forall r :: r in init ==> r in rows;
      SumByAgrees(init, f, g);
    }
  }

  /** A user's rows up to a moment and an id, in any order of the ledger. */
  function UpTo(u: User, at: int, id: int): Row -> int {
    (r: Row) => if r.user == u && (r.at < at || (r.at == at && r.id <= id)) then r.delta else 0
  }

  /** In order, those are the rows of a prefix. */
  lemma {:induction false} PrefixIsUpTo(rows: seq<Row>, i: nat, u: User)
    requires InOrder(rows) && DistinctIds(rows) && i < |rows|
    ensures SumBy(rows, UpTo(u, rows[i].at, rows[i].id)) == Balance(rows[..i + 1], u)
    decreases |rows|
  {
    var f := UpTo(u, rows[i].at, rows[i].id);
    if i == |rows| - 1 {
      assert rows[..i + 1] == rows;
      forall r | r in rows ensures f(r) == OfUser(u)(r) {
        var k :| 0 <= k < |rows| && rows[k] == r;
        if k < i { assert NotAfter(rows[k], rows[i]); }
      }
      SumByAgrees(rows, f, OfUser(u));
    } else {
      var init, last := rows[..|rows| - 1], rows[|rows| - 1];
      PrefixIsUpTo(init, i, u);
      assert init[..i + 1] == rows[..i + 1];
      assert NotAfter(rows[i], last) && rows[i].id != last.id;
      assert f(last) == 0;
    }
  }

  /** Before a row since the cutoff all rows before the cutoff have come. */
  lemma {:induction false} OldFundsCome(rows: seq<Row>, i: nat, u: User, cutoff: int)
    requires InOrder(rows) && i < |rows| && rows[i].at >= cutoff
    ensures OldFunds(rows[..i + 1], u, cutoff) == OldFunds(rows, u, cutoff)
    decreases |rows|
  {
    if i == |rows| - 1 {
      assert rows[..i + 1] == rows;
    } else {
      var init := rows[..|rows| - 1];
      OldFundsCome(init, i, u, cutoff);
      assert init[..i + 1] == rows[..i + 1];
      assert NotAfter(rows[i], rows[|rows| - 1]);
    }
  }

  // ---------------------------------------------------------------- the chronological pass

  predicate Allowed(r: Row) {
    (r.delta > 0 && r.reason in CREDITS) || (r.delta < 0 && r.reason in DEBITS)
  }

  /** What one row since the cutoff does to its user's bucket. */
  function Charge(b: Bucket, r: Row): Result<Bucket, Refused> {
    if r.delta > 0 && r.reason in CREDITS then
      Ok(b.(retain := b.retain + r.delta, earned := b.earned + r.delta))
    else if r.delta < 0 && r.reason in DEBITS then
      var oldSpend := Min(b.clear, -r.delta);
      var todaySpend := -r.delta - oldSpend;
      if todaySpend > b.retain then Err(Deficit(r.id))
      else Ok(b.(clear := b.clear - oldSpend, retain := b.retain - todaySpend,
                 oldSpent := b.oldSpent + oldSpend, todaySpent := b.todaySpent + todaySpend))
    else Err(Ambiguous(r.id))
  }

  function Replay(rows: seq<Row>, cutoff: int, start: map<User, Bucket>): (r: Result<map<User, Bucket>, Refused>)
    requires forall x :: x in rows ==> x.user in start
    ensures r.Ok? ==> r.value.Keys == start.Keys
  {
    if rows == [] then Ok(start)
    else
      var init, last := rows[..|rows| - 1], rows[|rows| - 1];
      match Replay(init, cutoff, start)
      case Err(e) => Err(e)
      case Ok(buckets) =>
        if last.at < cutoff then Ok(buckets)
        else
          match Charge(buckets[last.user], last)
          case Err(e) => Err(e)
          case Ok(b) => Ok(buckets[last.user := b])
  }

  /** The running balance after the first n rows, counting all old funds. */
  function Running(rows: seq<Row>, n: nat, u: User, cutoff: int, held: int): int
    requires n <= |rows|
  {
    held + Moved(rows[..n], u, cutoff)
  }

  /** Row i, if since the cutoff, has an accepted source and leaves its user solvent. */
  ghost predicate Funded(rows: seq<Row>, i: nat, cutoff: int, start: map<User, Bucket>)
    requires i < |rows| && rows[i].user in start
  {
    rows[i].at >= cutoff ==>
      Allowed(rows[i]) && 0 <= Running(rows, i + 1, rows[i].user, cutoff, start[rows[i].user].clear)
  }

  ghost predicate Fresh(start: map<User, Bucket>) {
    forall u :: u in start ==> var b := start[u];
      0 <= b.clear && b.clear == b.oldAtCutoff && b.retain == b.earned == b.oldSpent == b.todaySpent == 0
  }

  /** Greedy, in closed form: the old funds pay as much as they can of all that was spent. */
  ghost function Settled(b: Bucket, rows: seq<Row>, u: User, cutoff: int): Bucket {
    var spent := Spent(rows, u, cutoff);
    var clear := Max(0, b.clear - spent);
    b.(clear := clear, retain := b.clear + Moved(rows, u, cutoff) - clear, earned := Moved(rows, u, cutoff) + spent,
       oldSpent := b.clear - clear, todaySpent := spent - (b.clear - clear))
  }

  lemma ChargeSettles(b: Bucket, rows: seq<Row>, r: Row, cutoff: int)
    requires 0 <= b.clear && b.retain == b.earned == b.oldSpent == b.todaySpent == 0 && r.at >= cutoff
    requires 0 <= Settled(b, rows, r.user, cutoff).retain
    ensures var got := Charge(Settled(b, rows, r.user, cutoff), r);
            && (got.Ok? <==> Allowed(r) && 0 <= b.clear + Moved(rows + [r], r.user, cutoff))
            && (got.Ok? ==> got.value == Settled(b, rows + [r], r.user, cutoff) && 0 <= got.value.retain)
  {
    BalanceSplits(rows, r.user, cutoff);
    SumByAppend(rows, r, Since(r.user, cutoff));
    SumByAppend(rows, r, SpentSince(r.user, cutoff));
  }

  lemma OthersUnsettled(b: Bucket, rows: seq<Row>, r: Row, u: User, cutoff: int)
    requires r.user != u || r.at < cutoff
    ensures Settled(b, rows + [r], u, cutoff) == Settled(b, rows, u, cutoff)
  {
    SumByAppend(rows, r, Since(u, cutoff));
    SumByAppend(rows, r, SpentSince(u, cutoff));
  }

  ghost predicate AllFunded(rows: seq<Row>, cutoff: int, start: map<User, Bucket>)
    requires forall x :: x in rows ==> x.user in start
  {
    forall i :: 0 <= i < |rows| ==> Funded(rows, i, cutoff, start)
  }

  ghost predicate AllSettled(buckets: map<User, Bucket>, rows: seq<Row>, cutoff: int, start: map<User, Bucket>) {
    && buckets.Keys == start.Keys
    && forall u :: u in start ==> buckets[u] == Settled(start[u], rows, u, cutoff) && 0 <= buckets[u].retain
  }

  lemma FundedAppend(rows: seq<Row>, r: Row, cutoff: int, start: map<User, Bucket>)
    requires forall x :: x in rows + [r] ==> x.user in start
    ensures (forall x :: x in rows ==> x.user in start) && r.user in start
    ensures AllFunded(rows + [r], cutoff, start) <==>
              AllFunded(rows, cutoff, start) &&
              (r.at >= cutoff ==> Allowed(r) && 0 <= start[r.user].clear + Moved(rows + [r], r.user, cutoff))
  {
    var n, all := |rows|, rows + [r];
    assert forall x :: x in rows ==> x in all;
    assert r == all[n] && r in all && all[..n + 1] == all;
    forall i | 0 <= i < n ensures Funded(rows, i, cutoff, start) == Funded(all, i, cutoff, start) {
      assert all[..i + 1] == rows[..i + 1] && rows[i] == all[i];
    }
    assert Funded(all, n, cutoff, start) <==>
      (r.at >= cutoff ==> Allowed(r) && 0 <= start[r.user].clear + Moved(all, r.user, cutoff));
  }

  /**
    The pass accepts a ledger exactly if every row since the cutoff has an accepted source and no
    running balance goes below zero, and then every bucket has its closed form.
  */
  lemma {:induction false} ReplayExactly(rows: seq<Row>, cutoff: int, start: map<User, Bucket>)
    requires Fresh(start) && forall x :: x in rows ==> x.user in start
    ensures Replay(rows, cutoff, start).Ok? <==> AllFunded(rows, cutoff, start)
    ensures Replay(rows, cutoff, start).Ok? ==> AllSettled(Replay(rows, cutoff, start).value, rows, cutoff, start)
  {
    if rows != [] {
      var init, last := rows[..|rows| - 1], rows[|rows| - 1];
      assert rows == init + [last];
      FundedAppend(init, last, cutoff, start);
      ReplayExactly(init, cutoff, start);
      var before := Replay(init, cutoff, start);
      if before.Ok? {
        forall u | u in start && (last.user != u || last.at < cutoff)
          ensures Settled(start[u], rows, u, cutoff) == before.value[u] {
          OthersUnsettled(start[u], init, last, u, cutoff);
        }
        if last.at >= cutoff { ChargeSettles(start[last.user], init, last, cutoff); }
      }
    }
  }

  // ---------------------------------------------------------------- no other split keeps more

  /**
    Another way to charge the spending: parts[i] of row i goes to the old funds.  It is feasible
    if neither fund is ever overdrawn.
  */
  function OldShare(rows: seq<Row>, parts: seq<int>, u: User, cutoff: int): int
    requires |parts| == |rows|
  {
    if rows == [] then 0
    else
      var n := |rows| - 1;
      OldShare(rows[..n], parts[..n], u, cutoff) + if SpentSince(u, cutoff)(rows[n]) > 0 then parts[n] else 0
  }

  ghost predicate Feasible(rows: seq<Row>, parts: seq<int>, u: User, cutoff: int, held: int) {
    |parts| == |rows| &&
    (rows == [] ||
     var n := |rows| - 1;
     && Feasible(rows[..n], parts[..n], u, cutoff, held)
     && (SpentSince(u, cutoff)(rows[n]) > 0 ==> 0 <= parts[n] <= SpentSince(u, cutoff)(rows[n]))
     && OldShare(rows, parts, u, cutoff) <= held
     && 0 <= Kept(rows, parts, u, cutoff))
  }

  /** What of the funds earned since the cutoff a split leaves. */
  function Kept(rows: seq<Row>, parts: seq<int>, u: User, cutoff: int): int
    requires |parts| == |rows|
  {
    Moved(rows, u, cutoff) + OldShare(rows, parts, u, cutoff)
  }

  lemma {:induction false} SharesBounded(rows: seq<Row>, parts: seq<int>, u: User, cutoff: int, held: int)
    requires 0 <= held && Feasible(rows, parts, u, cutoff, held)
    ensures 0 <= OldShare(rows, parts, u, cutoff) <= Min(held, Spent(rows, u, cutoff))
  {
    if rows != [] {
      var n := |rows| - 1;
      SharesBounded(rows[..n], parts[..n], u, cutoff, held);
    }
  }

  /** Old-first is best: no feasible split leaves a user more. */
  lemma {:induction false} OldFirstIsOptimal(rows: seq<Row>, parts: seq<int>, cutoff: int, b: Bucket, u: User)
    requires 0 <= b.clear && Feasible(rows, parts, u, cutoff, b.clear)
    ensures Kept(rows, parts, u, cutoff) <= Settled(b, rows, u, cutoff).retain
  {
    SharesBounded(rows, parts, u, cutoff, b.clear);
  }

  /** Old-first never fails where another split would do. */
  lemma {:induction false} FeasibleMeansFunded(rows: seq<Row>, parts: seq<int>, u: User, cutoff: int, held: int, n: nat)
    requires 0 <= held && Feasible(rows, parts, u, cutoff, held) && n <= |rows|
    ensures 0 <= Running(rows, n, u, cutoff, held)
    decreases |rows|
  {
    var m := |rows| - 1;
    if n == 0 {
      assert rows[..n] == [];
    } else if n == |rows| {
      assert rows[..n] == rows;
      SharesBounded(rows, parts, u, cutoff, held);
    } else {
      FeasibleMeansFunded(rows[..m], parts[..m], u, cutoff, held, n);
      assert rows[..m][..n] == rows[..n];
    }
  }

  /** The old-first split: every row takes from the old funds what they still have, as far as it needs it. */
  function OldFirst(rows: seq<Row>, u: User, cutoff: int, held: int): (parts: seq<int>)
    ensures |parts| == |rows|
  {
    if rows == [] then []
    else
      var init := rows[..|rows| - 1];
      OldFirst(init, u, cutoff, held) + [Min(held, Spent(rows, u, cutoff)) - Min(held, Spent(init, u, cutoff))]
  }

  ghost predicate NeverBelow(rows: seq<Row>, u: User, cutoff: int, held: int) {
    forall n :: 0 <= n <= |rows| ==> 0 <= Running(rows, n, u, cutoff, held)
  }

  lemma NeverBelowPrefix(rows: seq<Row>, u: User, cutoff: int, held: int)
    requires rows != [] && NeverBelow(rows, u, cutoff, held)
    ensures NeverBelow(rows[..|rows| - 1], u, cutoff, held) && 0 <= held + Moved(rows, u, cutoff)
  {
    var init := rows[..|rows| - 1];
    forall n | 0 <= n <= |init| ensures 0 <= Running(init, n, u, cutoff, held) {
      assert init[..n] == rows[..n];
      assert 0 <= Running(rows, n, u, cutoff, held);
    }
    assert rows[..|rows|] == rows && 0 <= Running(rows, |rows|, u, cutoff, held);
  }

  /** As long as the running balance stays up, that split is feasible and leaves what the pass retains. */
  lemma {:induction false} OldFirstIsFeasible(rows: seq<Row>, cutoff: int, b: Bucket, u: User)
    requires 0 <= b.clear && NeverBelow(rows, u, cutoff, b.clear)
    ensures Feasible(rows, OldFirst(rows, u, cutoff, b.clear), u, cutoff, b.clear)
    ensures OldShare(rows, OldFirst(rows, u, cutoff, b.clear), u, cutoff) == Min(b.clear, Spent(rows, u, cutoff))
    ensures Kept(rows, OldFirst(rows, u, cutoff, b.clear), u, cutoff) == Settled(b, rows, u, cutoff).retain
  {
    if rows != [] {
      var init := rows[..|rows| - 1];
      NeverBelowPrefix(rows, u, cutoff, b.clear);
      OldFirstIsFeasible(init, cutoff, b, u);
      BalanceSplits(rows, u, cutoff);
      BalanceSplits(init, u, cutoff);
      OldFirstStep(rows, OldFirst(rows, u, cutoff, b.clear), u, cutoff, b.clear);
    }
  }

  lemma OldFirstStep(rows: seq<Row>, parts: seq<int>, u: User, cutoff: int, held: int)
    requires rows != [] && parts == OldFirst(rows, u, cutoff, held)
    requires var n := |rows| - 1;
             Feasible(rows[..n], OldFirst(rows[..n], u, cutoff, held), u, cutoff, held) &&
             OldShare(rows[..n], OldFirst(rows[..n], u, cutoff, held), u, cutoff) == Min(held, Spent(rows[..n], u, cutoff))
    requires 0 <= held + Moved(rows, u, cutoff) && 0 <= Moved(rows, u, cutoff) + Spent(rows, u, cutoff)
    ensures OldShare(rows, parts, u, cutoff) == Min(held, Spent(rows, u, cutoff)) && Feasible(rows, parts, u, cutoff, held)
  {
    assert parts[..|rows| - 1] == OldFirst(rows[..|rows| - 1], u, cutoff, held);
  }

  ghost predicate CanBeSplit(rows: seq<Row>, u: User, cutoff: int, held: int) {
    exists parts :: Feasible(rows, parts, u, cutoff, held)
  }

  /** A user's spending can be split at all exactly if the running balance never falls below zero. */
  lemma SplitExistsExactly(rows: seq<Row>, cutoff: int, b: Bucket, u: User)
    requires 0 <= b.clear
    ensures CanBeSplit(rows, u, cutoff, b.clear) <==> NeverBelow(rows, u, cutoff, b.clear)
  {
    if CanBeSplit(rows, u, cutoff, b.clear) {
      var parts :| Feasible(rows, parts, u, cutoff, b.clear);
      forall n | 0 <= n <= |rows| ensures 0 <= Running(rows, n, u, cutoff, b.clear) {
        FeasibleMeansFunded(rows, parts, u, cutoff, b.clear, n);
      }
      assert NeverBelow(rows, u, cutoff, b.clear);
    } else if NeverBelow(rows, u, cutoff, b.clear) {
      OldFirstIsFeasible(rows, cutoff, b, u);
      assert false;
    }
  }

  lemma {:induction false} FundedNeverBelow(rows: seq<Row>, cutoff: int, start: map<User, Bucket>, u: User, n: nat)
    requires Fresh(start) && u in start && (forall x :: x in rows ==> x.user in start)
    requires AllFunded(rows, cutoff, start) && n <= |rows|
    ensures 0 <= Running(rows, n, u, cutoff, start[u].clear)
    decreases n
  {
    if n == 0 {
      assert rows[..0] == [];
    } else {
      FundedNeverBelow(rows, cutoff, start, u, n - 1);
      assert rows[..n][..n - 1] == rows[..n - 1];
      assert rows[n - 1] in rows && Funded(rows, n - 1, cutoff, start);
    }
  }

  /**
    The pass accepts a ledger exactly if every row since the cutoff has an accepted source and every user's
    spending can be split between old and new funds in some way.
  */
  lemma ReplaySucceedsExactly(rows: seq<Row>, cutoff: int, start: map<User, Bucket>)
    requires Fresh(start) && forall x :: x in rows ==> x.user in start
    ensures Replay(rows, cutoff, start).Ok? <==>
              && (forall x :: x in rows && x.at >= cutoff ==> Allowed(x))
              && forall u :: u in start ==> CanBeSplit(rows, u, cutoff, start[u].clear)
  {
    ReplayExactly(rows, cutoff, start);
    forall u | u in start ensures CanBeSplit(rows, u, cutoff, start[u].clear) <==> NeverBelow(rows, u, cutoff, start[u].clear) {
      SplitExistsExactly(rows, cutoff, start[u], u);
    }
    if AllFunded(rows, cutoff, start) {
      forall x | x in rows && x.at >= cutoff ensures Allowed(x) {
        var i :| 0 <= i < |rows| && rows[i] == x;
        assert Funded(rows, i, cutoff, start);
      }
      forall u, n | u in start && 0 <= n <= |rows| ensures 0 <= Running(rows, n, u, cutoff, start[u].clear) {
        FundedNeverBelow(rows, cutoff, start, u, n);
      }
    } else {
      var i :| 0 <= i < |rows| && !Funded(rows, i, cutoff, start);
      assert rows[i] in rows;
      assert NeverBelow(rows, rows[i].user, cutoff, start[rows[i].user].clear) ==>
        0 <= Running(rows, i + 1, rows[i].user, cutoff, start[rows[i].user].clear);
    }
  }
}

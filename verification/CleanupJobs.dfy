/**
  Durable deletion jobs.  Two services share one table: the check-in family takes the oldest due
  job of its kind whatever bot owns it, the command service only its own bot's jobs.  A job is
  handed out under a lease with a fresh token and settled by whoever still holds that token.
*/
module CleanupJobs {
  import opened Numbers
  import opened Wrappers

  const LEASE := 45.0
  const HOUR := 3600.0
  const MAX_ATTEMPTS := 20

  type Token = nat

  datatype State = Queued | Running | Deleted | Gone | Blocked | Failed | Expired

  datatype Kind = Cleanup(prefix: string) | Command

  /** The exact message to delete and why; part of it forms the job's key. */
  datatype Target = Target(chat: int, thread: int, mid: int, source: string, actor: string)

  datatype Key = Key(kind: Kind, chat: int, mid: int)

  datatype Job = Job(
    bot: int, kind: Kind, payload: Target, due: real, expires: real,
    state: State, attempts: nat, leaseUntil: real, token: Option<Token>)

  function KeyOf(kind: Kind, t: Target): Key { Key(kind, t.chat, t.mid) }

  predicate IsDigits(s: string) { s != "" && forall c :: c in s ==> '0' <= c <= '9' }

  /** The provenance each service demands before it records a deletion. */
  predicate Trusted(kind: Kind, bot: int, t: Target) {
    && 0 < bot && t.chat < 0 && 0 < t.mid && IsDigits(t.actor)
    && match kind
       case Cleanup(_) => 0 <= t.thread && (t.source == "command" || t.source == "feedback")
       case Command => t.source != "" && t.source[0] == '/'
  }

  // ---------------------------------------------------------------- updates of one job

  function NewJob(kind: Kind, bot: int, t: Target, clock: real): Job {
    match kind
    case Cleanup(_) => Job(bot, kind, t, clock + 60.0, clock + 48.0 * HOUR, Queued, 0, 0.0, None)
    case Command => Job(bot, kind, t, clock, clock + 47.0 * HOUR, Queued, 0, 0.0, None)
  }

  predicate Eligible(j: Job, clock: real) {
    j.due <= clock && (j.state == Queued || (j.state == Running && j.leaseUntil <= clock))
  }

  function Granted(j: Job, clock: real, token: Token): Job {
    j.(state := Running, leaseUntil := clock + LEASE, token := Some(token), attempts := j.attempts + 1)
  }

  function Finished(j: Job, token: Token, state: State, due: real): Job {
    if j.state == Running && j.token == Some(token)
    then j.(state := state, due := due, leaseUntil := 0.0, token := None) else j
  }

  predicate Retryable(j: Job, kind: Kind, bot: int, clock: real) {
    j.kind == kind && (j.state == Blocked || j.state == Failed) && j.bot == bot && clock < j.expires
  }

  function Reopened(j: Job, clock: real): Job { j.(state := Queued, due := clock) }

  // ---------------------------------------------------------------- the table

  type Jobs = seq<Job>   // the index is the id

  datatype Claim = Nothing | Skip | Handed(id: nat, token: Token)

  /** Which job a claim of this service looks at. */
  predicate Wanted(j: Job, kind: Kind, bot: int, clock: real) {
    j.kind == kind && Eligible(j, clock) && (kind == Command ==> j.bot == bot)
  }

  /** Due time first for the check-in family, then age; age alone for commands. */
  predicate Earlier(jobs: Jobs, a: nat, b: nat)
    requires a < |jobs| && b < |jobs|
  {
    if jobs[a].kind == Command then a <= b
    else jobs[a].due < jobs[b].due || (jobs[a].due == jobs[b].due && a <= b)
  }

  ghost predicate IsFirst(jobs: Jobs, kind: Kind, bot: int, clock: real, id: nat) {
    && id < |jobs| && Wanted(jobs[id], kind, bot, clock)
    && forall k :: 0 <= k < |jobs| && Wanted(jobs[k], kind, bot, clock) ==> Earlier(jobs, id, k)
  }

  ghost predicate UniqueKeys(jobs: Jobs) {
    forall i, j :: 0 <= i < j < |jobs| && jobs[i].bot == jobs[j].bot ==>
      KeyOf(jobs[i].kind, jobs[i].payload) != KeyOf(jobs[j].kind, jobs[j].payload)
  }

  class JobTable {
    var jobs: Jobs

    ghost predicate Valid()
      reads this
    {
      UniqueKeys(jobs)
    }

    constructor ()
      ensures Valid() && jobs == []
    {
      jobs := [];
    }

    method Find(bot: int, key: Key) returns (found: Option<nat>)
      ensures found.Some? ==> found.value < |jobs| && jobs[found.value].bot == bot
                              && KeyOf(jobs[found.value].kind, jobs[found.value].payload) == key
      ensures found.None? ==> forall i :: 0 <= i < |jobs| && jobs[i].bot == bot ==> KeyOf(jobs[i].kind, jobs[i].payload) != key
    {
      for i := 0 to |jobs|
        invariant forall k :: 0 <= k < i && jobs[k].bot == bot ==> KeyOf(jobs[k].kind, jobs[k].payload) != key
      {
        if jobs[i].bot == bot && KeyOf(jobs[i].kind, jobs[i].payload) == key {
          return Some(i);
        }
      }
      return None;
    }

    /** Records a deletion once; the same message with another provenance is refused. */
    method Enqueue(kind: Kind, bot: int, target: Target, clock: real) returns (r: Result<nat, string>)
      requires Valid()
      modifies this
      ensures Valid()
      ensures r.Ok? ==> Trusted(kind, bot, target) && r.value < |jobs|
                        && jobs[r.value].payload == target && jobs[r.value].kind == kind && jobs[r.value].bot == bot
      ensures old(jobs) == [] ==>
                (r.Ok? <==>
                   && 0 < bot && target.chat < 0 && 0 < target.mid
                   && target.actor != "" && (forall c :: c in target.actor ==> '0' <= c <= '9')
                   && (kind.Cleanup? ==> 0 <= target.thread && (target.source == "command" || target.source == "feedback"))
                   && (kind.Command? ==> target.source != "" && target.source[0] == '/'))
      ensures jobs == old(jobs) || (r == Ok(|old(jobs)|) && jobs == old(jobs) + [NewJob(kind, bot, target, clock)])
      ensures |jobs| == |old(jobs)| + 1 ==>
                jobs[|old(jobs)|] == if kind.Cleanup? then Job(bot, kind, target, clock + 60.0, clock + 172800.0, Queued, 0, 0.0, None)
                                     else Job(bot, kind, target, clock, clock + 169200.0, Queued, 0, 0.0, None)
      ensures r.Err? ==> jobs == old(jobs)
      ensures r.Err? && Trusted(kind, bot, target) ==>
                exists i :: 0 <= i < |jobs| && jobs[i].bot == bot && jobs[i].kind == kind
                            && KeyOf(kind, jobs[i].payload) == KeyOf(kind, target) && jobs[i].payload != target
    {
      if !Trusted(kind, bot, target) {
        return Err("invalid deletion provenance");
      }
      var prior := Find(bot, KeyOf(kind, target));
      if prior.Some? {
        var i := prior.value;
        assert jobs[i].kind == kind;
        if jobs[i].payload != target {
          return Err("message already belongs to a different cleanup target");
        }
        return Ok(i);
      }
      var id := |jobs|;
      jobs := jobs + [NewJob(kind, bot, target, clock)];
      return Ok(id);
    }

    method First(kind: Kind, bot: int, clock: real) returns (found: Option<nat>)
      ensures found.Some? ==> IsFirst(jobs, kind, bot, clock, found.value)
      ensures found.None? ==> forall k :: 0 <= k < |jobs| ==> !Wanted(jobs[k], kind, bot, clock)
    {
      found := None;
      for i := 0 to |jobs|
        invariant found.None? ==> forall k :: 0 <= k < i ==> !Wanted(jobs[k], kind, bot, clock)
        invariant found.Some? ==> found.value < i && Wanted(jobs[found.value], kind, bot, clock)
        invariant found.Some? ==> forall k :: 0 <= k < i && Wanted(jobs[k], kind, bot, clock) ==> Earlier(jobs, found.value, k)
      {
        if Wanted(jobs[i], kind, bot, clock) && (found.None? || !Earlier(jobs, found.value, i)) {
          found := Some(i);
        }
      }
    }

    /**
      Hands out the first wanted job, never before it is due nor once it has expired; a job of
      another bot is blocked, an expired one closed.
    */
    method ClaimJob(kind: Kind, bot: int, clock: real, newToken: Token) returns (claim: Claim)
      requires Valid()
      modifies this
      ensures Valid()
      ensures match claim
              case Nothing => jobs == old(jobs) && forall k :: 0 <= k < |jobs| ==> !Wanted(jobs[k], kind, bot, clock)
              case Skip =>
                exists id: nat :: IsFirst(old(jobs), kind, bot, clock, id) && var j := old(jobs)[id];
                  (j.bot != bot && jobs == old(jobs)[id := j.(state := Blocked)]) ||
                  (j.bot == bot && j.expires <= clock && jobs == old(jobs)[id := j.(state := Expired)])
              case Handed(id, token) =>
                IsFirst(old(jobs), kind, bot, clock, id) && var j := old(jobs)[id];
                j.bot == bot && j.due <= clock < j.expires && token == newToken
                && jobs == old(jobs)[id := Granted(j, clock, newToken)]
      ensures claim.Handed? ==>
                var was, now := old(jobs)[claim.id], jobs[claim.id];
                && (was.state == Queued || (was.state == Running && was.leaseUntil <= clock))
                && now == was.(state := Running, leaseUntil := clock + 45.0, token := Some(newToken), attempts := was.attempts + 1)
      ensures forall k :: 0 <= k < |old(jobs)| ==>
                var j := old(jobs)[k];
                j.kind == kind && j.due <= clock && (j.state == Queued || (j.state == Running && j.leaseUntil <= clock))
                && (kind == Command ==> j.bot == bot) ==>
                  !claim.Nothing? &&
                  (claim.Handed? ==>
                     if kind == Command then claim.id <= k
                     else old(jobs)[claim.id].due < j.due || (old(jobs)[claim.id].due == j.due && claim.id <= k))
    {
      var first := First(kind, bot, clock);
      if first.None? { return Nothing; }
      var id := first.value;
      var j := jobs[id];
      if j.bot != bot {
        jobs := jobs[id := j.(state := Blocked)];
        return Skip;
      }
      if j.expires <= clock {
        jobs := jobs[id := j.(state := Expired)];
        return Skip;
      }
      jobs := jobs[id := j.(state := Running, leaseUntil := clock + LEASE, token := Some(newToken), attempts := j.attempts + 1)];
      return Handed(id, newToken);
    }

    /** Settles a job for whoever still holds its token; the check-in family only knows five outcomes. */
    method Finish(kind: Kind, id: nat, token: Token, state: State, clock: real, delay: real) returns (ok: bool)
      requires Valid() && id < |jobs|
      modifies this
      ensures Valid()
      ensures ok <==> kind == Command || (state != Running && state != Expired)
      ensures jobs == if ok then old(jobs)[id := Finished(old(jobs)[id], token, state, clock + delay)] else old(jobs)
      ensures old(jobs)[id].state != Running || old(jobs)[id].token != Some(token) ==> jobs == old(jobs)
      ensures ok && old(jobs)[id].state == Running && old(jobs)[id].token == Some(token) ==>
                jobs[id] == old(jobs)[id].(state := state, due := clock + delay, leaseUntil := 0.0, token := None)
    {
      if kind.Cleanup? && state !in {Deleted, Gone, Blocked, Queued, Failed} { return false; }
      ok := true;
      var j := jobs[id];
      if j.state == Running && j.token == Some(token) {
        jobs := jobs[id := j.(state := state, due := clock + delay, leaseUntil := 0.0, token := None)];
      }
      assert jobs == old(jobs)[id := Finished(old(jobs)[id], token, state, clock + delay)];
    }

    method RetryBlocked(kind: Kind, bot: int, clock: real)
      requires Valid()
      modifies this
      ensures Valid()
      ensures |jobs| == |old(jobs)|
      ensures forall k :: 0 <= k < |jobs| ==>
                jobs[k] == if Retryable(old(jobs)[k], kind, bot, clock) then Reopened(old(jobs)[k], clock) else old(jobs)[k]
      ensures forall k :: 0 <= k < |jobs| ==>
                var j := old(jobs)[k];
                jobs[k] == if j.kind == kind && j.bot == bot && (j.state == Blocked || j.state == Failed) && clock < j.expires
                           then j.(state := Queued, due := clock) else j
    {
      ghost var before := jobs;
      for i := 0 to |jobs|
        invariant |jobs| == |before| && UniqueKeys(jobs)
        invariant forall k :: 0 <= k < |jobs| ==>
                    jobs[k] == if k < i && Retryable(before[k], kind, bot, clock) then Reopened(before[k], clock) else before[k]
      {
        var j := jobs[i];
        if j.kind == kind && (j.state == Blocked || j.state == Failed) && j.bot == bot && clock < j.expires {
          jobs := jobs[i := j.(state := Queued, due := clock)];
        }
      }
    }
  }

  // ---------------------------------------------------------------- what a drain reports

  datatype Reply = Removed | Missing | Denied | NoAnswer

  function Verdict(reply: Reply, attempts: nat): State {
    match reply
    case Removed => Deleted
    case Missing => Gone
    case Denied => Blocked
    case NoAnswer => if attempts < MAX_ATTEMPTS then Queued else Failed
  }

  function Doubled(n: nat): nat { if n == 0 then 1 else 2 * Doubled(n - 1) }

  function Backoff(attempts: nat, retryAfter: int): int {
    var wait := 5 * Doubled(if attempts < 6 then attempts else 6);
    var capped := if wait < 300 then wait else 300;
    if capped < retryAfter then retryAfter else capped
  }

  lemma {:induction false} DoubledGrows(a: nat, b: nat)
    requires a <= b
    ensures 1 <= Doubled(a) <= Doubled(b)
    decreases b
  {
    if a < b { DoubledGrows(a, b - 1); }
    else if b > 0 { DoubledGrows(b - 1, b - 1); }
  }

  /** The pause honours the server, never shrinks from try to try, and is capped at five minutes on its own. */
  lemma BackoffShape(a: nat, b: nat, retryAfter: int)
    requires a <= b
    ensures retryAfter <= Backoff(a, retryAfter) <= Backoff(b, retryAfter)
    ensures 5 <= Backoff(a, retryAfter)
    ensures retryAfter <= 300 ==> Backoff(a, retryAfter) <= 300
  {
    DoubledGrows(if a < 6 then a else 6, if b < 6 then b else 6);
  }

  // ---------------------------------------------------------------- one job among interleaved workers

  /** A lease from `at` to `until`; it ends early if its holder reports back before that. */
  datatype Grant = Grant(token: Token, at: real, until: real, ended: real, settled: bool)

  /** A job with every grant ever made; lost counts those taken over after their lease ran out. */
  datatype Cell = Cell(job: Job, clock: real, grants: seq<Grant>, lost: nat, reopened: nat)

  datatype Event =
    | Hand(clock: real, token: Token)
    | Bar(clock: real)
    | Close(clock: real)
    | Settle(clock: real, grant: nat, reply: Reply, retryAfter: int)
    | Reopen(clock: real)

  ghost predicate Enabled(c: Cell, e: Event) {
    c.clock <= e.clock &&
    match e
    case Hand(clock, token) =>
      Eligible(c.job, clock) && clock < c.job.expires && forall i :: 0 <= i < |c.grants| ==> c.grants[i].token != token
    case Bar(clock) => Eligible(c.job, clock)
    case Close(clock) => Eligible(c.job, clock) && c.job.expires <= clock
    case Settle(_, g, _, _) => g < |c.grants| && !c.grants[g].settled
    case Reopen(clock) => Retryable(c.job, c.job.kind, c.job.bot, clock)
  }

  /** The number of tries the settling worker was told when it was handed the job. */
  function Tries(grant: nat): nat { grant + 1 }

  function Next(c: Cell, e: Event): Cell
    requires e.Settle? ==> e.grant < |c.grants|
  {
    match e
    case Hand(clock, token) =>
      c.(job := Granted(c.job, clock, token), clock := clock, grants := c.grants + [Grant(token, clock, clock + LEASE, clock + LEASE, false)],
         lost := if c.job.state == Running then c.lost + 1 else c.lost)
    case Bar(clock) => c.(job := c.job.(state := Blocked), clock := clock)
    case Close(clock) => c.(job := c.job.(state := Expired), clock := clock)
    case Settle(clock, g, reply, retryAfter) =>
      var grant := c.grants[g];
      c.(job := Finished(c.job, grant.token, Verdict(reply, Tries(g)), clock + Backoff(Tries(g), retryAfter) as real),
         clock := clock, grants := c.grants[g := grant.(settled := true, ended := Sooner(grant.ended, clock))])
    case Reopen(clock) => c.(job := Reopened(c.job, clock), clock := clock, reopened := c.reopened + 1)
  }

  ghost predicate IsRun(c: Cell, es: seq<Event>)
    decreases |es|
  {
    es == [] || (Enabled(c, es[0]) && IsRun(Next(c, es[0]), es[1..]))
  }

  function After(c: Cell, es: seq<Event>): Cell
    requires IsRun(c, es)
    decreases |es|
  {
    if es == [] then c else After(Next(c, es[0]), es[1..])
  }

  /** The running job's token is that of its newest grant. */
  ghost predicate Current(c: Cell) {
    c.job.state == Running ==>
      var g := c.grants;
      g != [] && var last := g[|g| - 1]; c.job.token == Some(last.token) && c.job.leaseUntil == last.until && !last.settled
  }

  ghost predicate Inv(c: Cell) {
    && c.job.attempts == |c.grants|
    && Current(c) && (c.job.state == Running ==> c.job.due <= c.clock)
    && (forall i, j :: 0 <= i < j < |c.grants| ==> c.grants[i].token != c.grants[j].token)
    && (forall i :: 0 <= i < |c.grants| ==>
          if c.grants[i].settled then c.grants[i].ended <= c.clock
          else c.grants[i].ended == c.grants[i].until
               && (c.grants[i].until <= c.clock || (c.job.state == Running && i == |c.grants| - 1)))
    && (forall i, j :: 0 <= i < j < |c.grants| ==> c.grants[i].ended <= c.grants[j].at)
    && (forall i :: 0 <= i < |c.grants| ==> c.grants[i].at < c.job.expires && c.grants[i].at <= c.clock)
  }

  ghost predicate Bounded(c: Cell) {
    c.job.attempts + (if c.job.state == Queued then 1 else 0) <= MAX_ATTEMPTS + c.lost + c.reopened
  }

  lemma HandKeepsInv(c: Cell, e: Event)
    requires Inv(c) && Enabled(c, e) && e.Hand?
    ensures Inv(Next(c, e))
  {
  }

  lemma SettleKeepsInv(c: Cell, e: Event)
    requires Inv(c) && Enabled(c, e) && e.Settle?
    ensures Inv(Next(c, e))
  {
  }

  lemma StepKeepsInv(c: Cell, e: Event)
    requires Inv(c) && Enabled(c, e)
    ensures Inv(Next(c, e))
    ensures Next(c, e).job.payload == c.job.payload && Next(c, e).job.kind == c.job.kind
    ensures Next(c, e).job.bot == c.job.bot && Next(c, e).job.expires == c.job.expires
    ensures c.job.state in {Deleted, Gone, Expired} ==> Next(c, e).job == c.job
  {
    if e.Hand? { HandKeepsInv(c, e); }
    if e.Settle? { SettleKeepsInv(c, e); }
    if e.Bar? || e.Close? {
      forall i | 0 <= i < |c.grants| ensures c.grants[i].settled || c.grants[i].until <= e.clock {
        if c.job.state == Running && i == |c.grants| - 1 { assert c.job.leaseUntil == c.grants[i].until; }
      }
    }
  }

  /**
    Over any run the leases of a job, each until it runs out or its holder has reported back, do not
    overlap; all were granted before expiry, the target never changes and a final state is never left.
  */
  lemma {:induction false} LeasesNeverOverlap(c: Cell, es: seq<Event>)
    requires Inv(c) && IsRun(c, es)
    ensures var n := After(c, es);
            && Inv(n) && n.job.payload == c.job.payload
            && (forall i, j :: 0 <= i < j < |n.grants| ==> n.grants[i].ended <= n.grants[j].at)
            && (forall i :: 0 <= i < |n.grants| ==> n.grants[i].at < n.job.expires)
            && (c.job.state in {Deleted, Gone, Expired} ==> n.job == c.job)
    decreases |es|
  {
    if es != [] {
      StepKeepsInv(c, es[0]);
      LeasesNeverOverlap(Next(c, es[0]), es[1..]);
    }
  }

  /** At any moment at most one unsettled grant is still within its lease. */
  lemma OneLiveLease(c: Cell, i: nat, j: nat)
    requires Inv(c) && i < |c.grants| && j < |c.grants|
    requires !c.grants[i].settled && c.clock < c.grants[i].until
    requires !c.grants[j].settled && c.clock < c.grants[j].until
    ensures i == j && c.job.state == Running && c.job.token == Some(c.grants[i].token)
  {
  }

  /** Reporting back changes the job exactly under the token it is running under. */
  lemma OnlyCurrentTokenSettles(c: Cell, e: Event)
    requires Inv(c) && Enabled(c, e) && e.Settle?
    ensures Next(c, e).job != c.job <==> c.job.state == Running && e.grant == |c.grants| - 1
  {
  }

  /** A job is tried at most twenty times, plus once for every lost worker and every reopening. */
  lemma {:induction false} TriesAreBounded(c: Cell, es: seq<Event>)
    requires Inv(c) && Bounded(c) && IsRun(c, es)
    ensures After(c, es).job.attempts <= MAX_ATTEMPTS + After(c, es).lost + After(c, es).reopened
    decreases |es|
  {
    if es != [] {
      StepKeepsInv(c, es[0]);
      if es[0].Settle? { OnlyCurrentTokenSettles(c, es[0]); }
      TriesAreBounded(Next(c, es[0]), es[1..]);
    }
  }

  lemma NewJobIsSound(kind: Kind, bot: int, t: Target, clock: real)
    ensures Inv(Cell(NewJob(kind, bot, t, clock), clock, [], 0, 0))
    ensures Bounded(Cell(NewJob(kind, bot, t, clock), clock, [], 0, 0))
  {
  }

  // ---------------------------------------------------------------- what becomes of a try

  /** The job is running under its newest grant, whose holder has not reported yet. */
  ghost predicate InHand(c: Cell) { Inv(c) && c.job.state == Running }

  function ReportOfHolder(c: Cell, clock: real, reply: Reply, retryAfter: int): Event
    requires 0 < |c.grants|
  {
    Settle(clock, |c.grants| - 1, reply, retryAfter)
  }

  /** The pause after the first six tries is 10, 20, 40, 80, 160 and 300 seconds, after later ones 300, or longer if the server asks for it. */
  lemma BackoffTable(attempts: nat, retryAfter: int)
    requires 1 <= attempts
    ensures var wait := if attempts == 1 then 10 else if attempts == 2 then 20 else if attempts == 3 then 40
                        else if attempts == 4 then 80 else if attempts == 5 then 160 else 300;
            Backoff(attempts, retryAfter) == if wait < retryAfter then retryAfter else wait
  {
    assert Doubled(2) == 4 && Doubled(4) == 4 * Doubled(2) && Doubled(6) == 4 * Doubled(4);
    assert Doubled(1) == 2 && Doubled(3) == 8 && Doubled(5) == 4 * Doubled(3);
  }

  /** The holder's answer is what the job records: deleted, gone and refused messages are settled, the rest tried again up to the twentieth try. */
  lemma AnswerIsRecorded(c: Cell, clock: real, reply: Reply, retryAfter: int)
    requires InHand(c) && c.clock <= clock
    ensures |c.grants| == c.job.attempts >= 1 && Enabled(c, ReportOfHolder(c, clock, reply, retryAfter))
    ensures var j := Next(c, ReportOfHolder(c, clock, reply, retryAfter)).job;
            && j.token == None && j.attempts == c.job.attempts
            && (j.state == Deleted <==> reply == Removed) && (j.state == Gone <==> reply == Missing)
            && (j.state == Blocked <==> reply == Denied)
            && (j.state == Queued <==> reply == NoAnswer && c.job.attempts < 20)
            && (j.state == Failed <==> reply == NoAnswer && c.job.attempts >= 20)
  {
  }

  /** The job can be handed out at that moment. */
  ghost predicate CanBeHanded(c: Cell, clock: real) { exists token :: Enabled(c, Hand(clock, token)) }

  lemma {:induction false} Above(grants: seq<Grant>) returns (bound: Token)
    ensures forall i :: 0 <= i < |grants| ==> grants[i].token < bound
    decreases |grants|
  {
    if grants == [] { return 0; }
    var init, last := grants[..|grants| - 1], grants[|grants| - 1];
    bound := Above(init);
    assert forall i :: 0 <= i < |init| ==> grants[i] == init[i];
    if bound <= last.token { bound := last.token + 1; }
  }

  lemma HandedExactly(c: Cell, clock: real)
    requires c.clock <= clock
    ensures CanBeHanded(c, clock) <==> Eligible(c.job, clock) && clock < c.job.expires
  {
    if Eligible(c.job, clock) && clock < c.job.expires {
      var token := Above(c.grants);
      assert Enabled(c, Hand(clock, token));
    }
  }

  /** A try without an answer, if not the twentieth, is repeated: from the end of its pause until the job expires, and at no other time. */
  lemma NoAnswerIsTriedAgain(c: Cell, clock: real, retryAfter: int, at: real)
    requires InHand(c) && c.clock <= clock <= at && c.job.attempts < 20
    ensures 0 < |c.grants|
    ensures CanBeHanded(Next(c, ReportOfHolder(c, clock, NoAnswer, retryAfter)), at) <==>
              clock + Backoff(c.job.attempts, retryAfter) as real <= at < c.job.expires
  {
    HandedExactly(Next(c, ReportOfHolder(c, clock, NoAnswer, retryAfter)), at);
  }

  /** No other answer is followed by a try, unless the job is reopened. */
  lemma SettledIsNotTried(c: Cell, clock: real, reply: Reply, retryAfter: int, at: real)
    requires InHand(c) && c.clock <= clock <= at && (reply != NoAnswer || 20 <= c.job.attempts)
    ensures 0 < |c.grants|
    ensures !CanBeHanded(Next(c, ReportOfHolder(c, clock, reply, retryAfter)), at)
  {
    HandedExactly(Next(c, ReportOfHolder(c, clock, reply, retryAfter)), at);
  }

  /** The job of a lost worker is handed out again exactly from the end of its lease until it expires. */
  lemma LostWorkerIsReplaced(c: Cell, at: real)
    requires InHand(c) && c.clock <= at
    ensures 0 < |c.grants|
    ensures CanBeHanded(c, at) <==> c.grants[|c.grants| - 1].until <= at < c.job.expires
  {
    HandedExactly(c, at);
  }

  /** A lease lasts forty-five seconds from the moment the job is handed out. */
  lemma LeaseIsFortyFive(c: Cell, clock: real, token: Token)
    requires Inv(c) && Enabled(c, Hand(clock, token))
    ensures var n := Next(c, Hand(clock, token));
            InHand(n) && n.job.attempts == c.job.attempts + 1 && n.job.due <= clock
            && 0 < |n.grants| && n.grants[|n.grants| - 1].token == token && n.grants[|n.grants| - 1].until == clock + 45.0
  {
    HandKeepsInv(c, Hand(clock, token));
  }

  /** A new deletion waits a minute, a command's none; either is handed out until it expires. */
  lemma NewJobIsHanded(kind: Kind, bot: int, t: Target, clock: real, at: real)
    requires clock <= at
    ensures CanBeHanded(Cell(NewJob(kind, bot, t, clock), clock, [], 0, 0), at) <==>
              if kind.Cleanup? then clock + 60.0 <= at < clock + 172800.0 else at < clock + 169200.0
  {
    HandedExactly(Cell(NewJob(kind, bot, t, clock), clock, [], 0, 0), at);
  }
}

/**
  Publishing the deny map: write the file, test the configuration, reload nginx.  Every step may
  fail; its outcome is an input.  The digest of a text is an arbitrary function.
*/
module DenyPublisher {
  import opened Wrappers
  import opened DenyMap

  type Hash = int

  /** Whether nginx is told about new files, and how texts are compared. */
  datatype Config = Config(nginx: bool, digest: string -> Hash)

  ghost predicate CollisionFree(c: Config) { forall a, b :: c.digest(a) == c.digest(b) ==> a == b }

  datatype Test = Passed | Rejected(restored: bool) | NoVerdict
  datatype Reload = Reloaded | NotReloaded | NoAnswer(applied: bool)

  /** How the steps of one publish end, as far as they are reached; a timeout raises. */
  datatype Outcome = Outcome(written: bool, test: Test, reload: Reload)

  datatype Failure = WriteFailed | TestFailed | ReloadFailed
  datatype Answer = Report(ok: bool, changed: bool, reloaded: bool, error: Option<Failure>) | Raised

  /** The file on disk, the text nginx has loaded, and what the publisher remembers. */
  datatype State = State(file: Option<string>, running: Option<string>, lastHash: Option<Hash>, reloads: nat)

  /** The text that is in force: what nginx runs, or just the file if nobody is told. */
  function InForce(c: Config, s: State): Option<string> { if c.nginx then s.running else s.file }

  predicate Skips(c: Config, s: State, tags: seq<string>, force: bool) {
    !force && s.lastHash == Some(c.digest(Render(tags)))
  }

  /** The file after the test has been refused. */
  function PutBack(s: State, body: string, restored: bool): Option<string> {
    if restored then s.file else Some(body)
  }

  function Next(c: Config, s: State, tags: seq<string>, force: bool, o: Outcome): State {
    var body := Render(tags);
    var hash := Some(c.digest(body));
    if Skips(c, s, tags, force) || !o.written then s
    else if !c.nginx then s.(file := Some(body), lastHash := hash)
    else
      match o.test
      case Rejected(restored) => s.(file := PutBack(s, body, restored))
      case NoVerdict => s.(file := Some(body))
      case Passed =>
        match o.reload
        case Reloaded => State(Some(body), Some(body), hash, s.reloads + 1)
        case NotReloaded => s.(file := Some(body))
        case NoAnswer(applied) => s.(file := Some(body), running := if applied then Some(body) else s.running)
  }

  function Reply(c: Config, s: State, tags: seq<string>, force: bool, o: Outcome): Answer {
    if Skips(c, s, tags, force) then Report(true, false, false, None)
    else if !o.written then Report(false, false, false, Some(WriteFailed))
    else if !c.nginx then Report(true, true, false, None)
    else
      match o.test
      case Rejected(restored) => if s.file.Some? && !restored then Raised else Report(false, false, false, Some(TestFailed))
      case NoVerdict => Raised
      case Passed =>
        match o.reload
        case Reloaded => Report(true, true, true, None)
        case NotReloaded => Report(false, true, false, Some(ReloadFailed))
        case NoAnswer(_) => Raised
  }

  class Publisher {
    const config: Config
    var file: Option<string>
    var running: Option<string>   // what nginx has loaded: the world outside
    var lastHash: Option<Hash>
    var lastError: Option<Failure>
    var reloads: nat

    constructor (config: Config, file: Option<string>, running: Option<string>)
      ensures this.config == config && Now() == State(file, running, None, 0)
    {
      this.config, this.file, this.running := config, file, running;
      lastHash, lastError, reloads := None, None, 0;
    }

    function Now(): State
      reads this
    {
      State(file, running, lastHash, reloads)
    }

    method Publish(tags: seq<string>, force: bool, o: Outcome) returns (r: Answer)
      modifies this
      ensures Now() == Next(config, old(Now()), tags, force, o) && r == Reply(config, old(Now()), tags, force, o)
      ensures !force && old(lastHash) == Some(config.digest(Render(tags))) ==>
                Now() == old(Now()) && r == Report(true, false, false, None)
      ensures r.Report? && (r.changed || !r.ok) ==> lastError == r.error
    {
      var body := Render(tags);
      var hash := config.digest(body);
      if !force && lastHash == Some(hash) {
        return Report(true, false, false, None);
      }
      var previous := file;
      if !o.written {
        lastError := Some(WriteFailed);
        return Report(false, false, false, lastError);
      }
      file := Some(body);
      if !config.nginx {
        lastHash, lastError := Some(hash), None;
        return Report(true, true, false, None);
      }
      if o.test == NoVerdict {
        return Raised;
      }
      if o.test.Rejected? {
        if o.test.restored {
          file := previous;
        } else if previous.Some? {
          return Raised;
        }
        lastError := Some(TestFailed);
        return Report(false, false, false, lastError);
      }
      if o.reload.NoAnswer? {
        if o.reload.applied { running := Some(body); }
        return Raised;
      }
      if o.reload == NotReloaded {
        lastError := Some(ReloadFailed);
        return Report(false, true, false, lastError);
      }
      running := Some(body);
      lastHash, lastError := Some(hash), None;
      reloads := reloads + 1;
      return Report(true, true, true, None);
    }
  }

  // ---------------------------------------------------------------- one publish

  /** What the publisher remembers is the text in force. */
  ghost predicate Honest(c: Config, s: State) {
    s.lastHash.Some? ==> InForce(c, s).Some? && c.digest(InForce(c, s).value) == s.lastHash.value
  }

  /** The one outcome that changes what is in force behind the publisher's back. */
  predicate Slips(c: Config, s: State, tags: seq<string>, force: bool, o: Outcome) {
    !Skips(c, s, tags, force) && o.written && c.nginx && o.test == Passed && o.reload == NoAnswer(true)
  }

  /**
    Every publish keeps the memory honest, unless a reload took effect without an answer; then it
    does exactly if nothing was remembered or the text in force did not change.
  */
  lemma PublishKeepsHonest(c: Config, s: State, tags: seq<string>, force: bool, o: Outcome)
    requires CollisionFree(c) && Honest(c, s)
    ensures Honest(c, Next(c, s, tags, force, o)) <==>
              (Slips(c, s, tags, force, o) ==> s.lastHash == None || s.running == Some(Render(tags)))
  {
  }

  /** Tags whose text is not the remembered one, or that are forced, get through if nothing fails. */
  lemma GoodPublishWorks(c: Config, s: State, tags: seq<string>, force: bool)
    requires c.nginx && (force || s.lastHash != Some(c.digest(Render(tags))))
    ensures var good, body := Outcome(true, Passed, Reloaded), Render(tags);
            && Reply(c, s, tags, force, good) == Report(true, true, true, None)
            && Next(c, s, tags, force, good) == State(Some(body), Some(body), Some(c.digest(body)), s.reloads + 1)
  {
  }

  /** What an answer tells of the steps: how far the publish came, and where it failed. */
  lemma AnswerMeans(c: Config, s: State, tags: seq<string>, force: bool, o: Outcome)
    requires Reply(c, s, tags, force, o).Report?
    ensures var r := Reply(c, s, tags, force, o);
            var skipped := !force && s.lastHash == Some(c.digest(Render(tags)));
            && (r.reloaded <==> Next(c, s, tags, force, o).reloads == s.reloads + 1)
            && (r.changed ==> Next(c, s, tags, force, o).file == Some(Render(tags)))
            && (r.ok <==> r.error == None)
            && (skipped <==> r.ok && !r.changed)
            && (r.error == Some(WriteFailed) <==> !skipped && !o.written)
            && (r.error == Some(TestFailed) <==> !skipped && o.written && c.nginx && o.test.Rejected?)
            && (r.error == Some(ReloadFailed) <==> !skipped && o.written && c.nginx && o.test == Passed && o.reload == NotReloaded)
  {
  }

  /** The call raises exactly if a step gives no verdict, or the refused text cannot be taken back. */
  lemma RaisesExactly(c: Config, s: State, tags: seq<string>, force: bool, o: Outcome)
    ensures Reply(c, s, tags, force, o) == Raised <==>
              && (force || s.lastHash != Some(c.digest(Render(tags)))) && o.written && c.nginx
              && (o.test == NoVerdict || (o.test == Rejected(false) && s.file.Some?) || (o.test == Passed && o.reload.NoAnswer?))
  {
  }

  /** An ok answer means that the rendered tags are in force, also if nothing was done. */
  lemma OkMeansInForce(c: Config, s: State, tags: seq<string>, force: bool, o: Outcome)
    requires CollisionFree(c) && Honest(c, s)
    requires Reply(c, s, tags, force, o).Report? && Reply(c, s, tags, force, o).ok
    ensures InForce(c, Next(c, s, tags, force, o)) == Some(Render(tags))
  {
  }

  /** Any other answer leaves in force what was, and a refused text does not stay in the file. */
  lemma FailureLeavesInForce(c: Config, s: State, tags: seq<string>, force: bool, o: Outcome)
    requires Reply(c, s, tags, force, o).Report? && !Reply(c, s, tags, force, o).ok
    ensures InForce(c, Next(c, s, tags, force, o)) == InForce(c, s)
    ensures Next(c, s, tags, force, o).lastHash == s.lastHash && Next(c, s, tags, force, o).reloads == s.reloads
    ensures Reply(c, s, tags, force, o).error == Some(TestFailed) && o.test.restored ==>
              Next(c, s, tags, force, o) == s
  {
  }

  /** After an ok answer the file holds the rendered tags exactly if they were not skipped or it held them before. */
  lemma FileAfterOkExactly(c: Config, s: State, tags: seq<string>, force: bool, o: Outcome)
    requires Reply(c, s, tags, force, o).Report? && Reply(c, s, tags, force, o).ok
    ensures Next(c, s, tags, force, o).file == Some(Render(tags)) <==>
              !Skips(c, s, tags, force) || s.file == Some(Render(tags))
  {
  }

  // ---------------------------------------------------------------- whole runs

  /** A publish, or a start of nginx, which then runs the file. */
  datatype Event = Publish(tags: seq<string>, force: bool, outcome: Outcome) | NginxStart

  function Step(c: Config, s: State, e: Event): State {
    match e
    case Publish(tags, force, o) => Next(c, s, tags, force, o)
    case NginxStart => s.(running := s.file)
  }

  function After(c: Config, s: State, es: seq<Event>): State
    decreases |es|
  {
    if es == [] then s else After(c, Step(c, s, es[0]), es[1..])
  }

  /**
    What a step must not do: while something is remembered, put another text in force behind the
    publisher's back, by a reload that takes effect without an answer or a start over a changed file.
  */
  ghost predicate KeepsForce(c: Config, s: State, e: Event) {
    s.lastHash.Some? ==>
      match e
      case Publish(tags, force, o) => Slips(c, s, tags, force, o) ==> s.running == Some(Render(tags))
      case NginxStart => c.nginx ==> s.file == s.running
  }

  lemma StepKeepsHonest(c: Config, s: State, e: Event)
    requires CollisionFree(c) && Honest(c, s)
    ensures Honest(c, Step(c, s, e)) <==> KeepsForce(c, s, e)
  {
    match e
    case Publish(tags, force, o) => PublishKeepsHonest(c, s, tags, force, o);
    case NginxStart =>
      if s.lastHash.Some? && c.nginx && s.file.Some? {
        assert c.digest(s.file.value) == c.digest(s.running.value) ==> s.file == s.running;
      }
  }

  ghost predicate Orderly(c: Config, s: State, es: seq<Event>)
    decreases |es|
  {
    es != [] ==> KeepsForce(c, s, es[0]) && Orderly(c, Step(c, s, es[0]), es[1..])
  }

  ghost predicate HonestAt(c: Config, s: State, es: seq<Event>, n: nat)
    requires n <= |es|
  {
    Honest(c, After(c, s, es[..n]))
  }

  /** Honest after every event so far. */
  ghost predicate AlwaysHonest(c: Config, s: State, es: seq<Event>) {
    forall n :: 0 <= n <= |es| ==> HonestAt(c, s, es, n)
  }

  lemma AlwaysHonestStep(c: Config, s: State, es: seq<Event>)
    requires es != []
    ensures AlwaysHonest(c, s, es) <==> Honest(c, s) && AlwaysHonest(c, Step(c, s, es[0]), es[1..])
  {
    var rest := es[1..];
    assert es[..0] == [];
    forall n | 0 <= n <= |rest| ensures HonestAt(c, s, es, n + 1) <==> HonestAt(c, Step(c, s, es[0]), rest, n) {
      assert es[..n + 1][1..] == rest[..n] && es[..n + 1][0] == es[0];
    }
    if AlwaysHonest(c, s, es) {
      assert HonestAt(c, s, es, 0);
    } else {
      var n :| 0 <= n <= |es| && !HonestAt(c, s, es, n);
      if n > 0 { assert !HonestAt(c, Step(c, s, es[0]), rest, n - 1); }
    }
  }

  /**
    Whatever fails on the way, what the publisher remembers is in force at every moment of a run exactly
    if no step of it puts another text in force behind its back.
  */
  lemma {:induction false} HonestRunsExactly(c: Config, s: State, es: seq<Event>)
    requires CollisionFree(c) && Honest(c, s)
    ensures AlwaysHonest(c, s, es) <==> Orderly(c, s, es)
    decreases |es|
  {
    if es == [] {
      assert HonestAt(c, s, es, 0);
    } else {
      AlwaysHonestStep(c, s, es);
      StepKeepsHonest(c, s, es[0]);
      var n := Step(c, s, es[0]);
      if Honest(c, n) {
        HonestRunsExactly(c, n, es[1..]);
      } else {
        assert es[1..][..0] == [];
        assert !HonestAt(c, n, es[1..], 0);
      }
    }
  }

  /** So a publish that ends such a run and answers ok has put its tags in force. */
  lemma OkAfterRun(c: Config, s: State, es: seq<Event>, tags: seq<string>, force: bool, o: Outcome)
    requires CollisionFree(c) && s.lastHash == None && Orderly(c, s, es)
    requires var w := After(c, s, es); Reply(c, w, tags, force, o).Report? && Reply(c, w, tags, force, o).ok
    ensures InForce(c, Next(c, After(c, s, es), tags, force, o)) == Some(Render(tags))
  {
    HonestRunsExactly(c, s, es);
    assert HonestAt(c, s, es, |es|) && es[..|es|] == es;
    OkMeansInForce(c, After(c, s, es), tags, force, o);
  }

  /**
    The file need not be what is in force: after a failed reload, publishing the old tags again
    answers ok and leaves the failed text in the file, where the next start of nginx takes it from.
  */
  lemma FailedTextStays(c: Config, a: seq<string>, b: seq<string>)
    requires c.nginx && CollisionFree(c) && Render(a) != Render(b)
    ensures var good, bad := Outcome(true, Passed, Reloaded), Outcome(true, Passed, NotReloaded);
            var s := After(c, State(None, None, None, 0), [Publish(a, false, good), Publish(b, false, bad)]);
            && Honest(c, s) && s.running == Some(Render(a)) && s.file == Some(Render(b))
            && Reply(c, s, a, false, good) == Report(true, false, false, None) && Next(c, s, a, false, good) == s
            && !Honest(c, Step(c, s, NginxStart)) && Step(c, s, NginxStart).running == Some(Render(b))
  {
    var good, bad := Outcome(true, Passed, Reloaded), Outcome(true, Passed, NotReloaded);
    var es := [Publish(a, false, good), Publish(b, false, bad)];
    var s0 := State(None, None, None, 0);
    var s1 := Step(c, s0, es[0]);
    var s2 := Step(c, s1, es[1]);
    assert es[1..][1..] == [] && es[1..][0] == es[1];
    assert c.digest(Render(a)) != c.digest(Render(b));
    assert s2.file == Some(Render(b));
    assert After(c, s1, es[1..]) == After(c, s2, es[1..][1..]) == s2;
  }
}

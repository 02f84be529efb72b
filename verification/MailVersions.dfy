/** How the mail configuration changes over a run: which changes are accepted, what a rollback
    brings back, and that no change is based on a state that is gone. */
module MailVersions {
  import opened Base
  import opened MailModel
  import opened MailHistory
  import opened MailOpening

  // ---------------------------------------------------------------- which changes are accepted

  predicate Accepted(db: Db, e: Event) {
    Step(db, e) != db
  }

  predicate Change(e: Event) {
    e.EvCreate? || e.EvTest? || e.EvActivate? || e.EvRollback? || e.EvDisable?
  }

  /** Event `i` is an accepted test in which the version passed. */
  predicate Passed(es: seq<Event>, i: nat, v: VersionId) {
    i < |es| && es[i].EvTest? && es[i].v == v && es[i].success && Accepted(Before(INITIAL, es, i), es[i])
  }

  ghost predicate PassedSince(es: seq<Event>, v: VersionId, since: int) {
    exists i: nat :: Passed(es, i, v) && since <= es[i].now
  }

  predicate TestPassed(t: Test, v: VersionId, since: int) {
    t.version == v && t.success && since <= t.at
  }

  ghost predicate Recorded(tests: seq<Test>, v: VersionId, since: int) {
    exists k: nat :: k < |tests| && TestPassed(tests[k], v, since)
  }

  lemma RecordedSnoc(tests: seq<Test>, t: Test, v: VersionId, since: int)
    ensures Recorded(tests + [t], v, since) <==> Recorded(tests, v, since) || TestPassed(t, v, since)
  {
    if k: nat :| k < |tests| && TestPassed(tests[k], v, since) { assert (tests + [t])[k] == tests[k]; }
    if TestPassed(t, v, since) { assert (tests + [t])[|tests|] == t; }
  }

  lemma {:induction false} PassedSnoc(es: seq<Event>, v: VersionId, since: int)
    requires es != []
    ensures var front, e := es[..|es| - 1], es[|es| - 1];
      PassedSince(es, v, since) <==>
        (PassedSince(front, v, since) || (e.EvTest? && e.v == v && e.success && since <= e.now && Accepted(Run(INITIAL, front), e)))
  {
    var front := es[..|es| - 1];
    hide Run, Accepted;
    forall i: nat | i < |front| ensures Passed(es, i, v) <==> Passed(front, i, v) { assert front[..i] == es[..i]; }
    if i: nat :| Passed(front, i, v) && since <= front[i].now { assert Passed(es, i, v); }
    if i: nat :| Passed(es, i, v) && since <= es[i].now && i < |front| { assert Passed(front, i, v); }
    assert Passed(es, |front|, v) <==> es[|front|].EvTest? && es[|front|].v == v && es[|front|].success && Accepted(Run(INITIAL, front), es[|front|]);
  }

  /** The recorded tests are those of the run. */
  lemma {:induction false} TestsOfRun(es: seq<Event>, v: VersionId, since: int)
    ensures PassedSince(es, v, since) <==> Recorded(Run(INITIAL, es).tests, v, since)
  {
    if es != [] {
      var front, e := es[..|es| - 1], es[|es| - 1];
      TestsOfRun(front, v, since);
      TestsStep(Run(INITIAL, front), e);
      PassedSnoc(es, v, since);
      hide Step, PassedSince, Recorded, Accepted;
      if e.EvTest? { RecordedSnoc(Run(INITIAL, front).tests, Test(e.v, e.success, e.now), v, since); }
    }
  }

  lemma TestsStep(db: Db, e: Event)
    ensures Step(db, e).tests == if e.EvTest? && Accepted(db, e) then db.tests + [Test(e.v, e.success, e.now)] else db.tests
  {
    hide RecordDeliveryOutcome;
    if e.EvDeliver? && Try(db, e).Ok? { DeliveryPointers(db, e.source, e.outcome, e.now); }
  }

  lemma {:induction false} TestsInPast(es: seq<Event>, now: int, k: nat)
    requires k < |Run(INITIAL, es).tests| && forall i | 0 <= i < |es| :: es[i].now <= now
    ensures Run(INITIAL, es).tests[k].at <= now
  {
    var i := TestsAreEvents(es, k);
  }

  /** The change's own condition, in the state that the events before it left. */
  ghost predicate May(es: seq<Event>, db: Db, e: Event) {
    match e
    case EvCreate(_, v, _, _) => v !in db.versions
    case EvTest(_, v, _, _) => db.candidate == Some(v)
    case EvActivate(_, v, now) => db.candidate == Some(v) && PassedSince(es, v, now - 10 * MINUTE)
    case EvRollback(_, _) => db.previous.Some?
    case EvDisable(_, closed, _) => closed && db.mode != Disabled
    case _ => false
  }

  /** A change is accepted exactly when it names the present revision and its own condition holds:
      a new version is fresh; a test or an activation is the candidate's; the activated candidate
      passed a test within the last ten minutes; there is a version to go back to; mail is not
      disabled already and registration is closed. */
  lemma {:induction false} AcceptedExactly(es: seq<Event>, e: Event)
    requires Monotone(es + [e]) && Change(e)
    ensures var db := Run(INITIAL, es);
      Accepted(db, e) <==> (e.expected == db.revision && May(es, db, e))
  {
    var db := Run(INITIAL, es);
    PointersAlways(es);
    hide PassedSince, Recorded, Run;
    if e.EvActivate? {
      assert forall i | 0 <= i < |es| :: es[i].now <= e.now by {
        forall i | 0 <= i < |es| ensures es[i].now <= e.now {
          assert (es + [e])[i].now <= (es + [e])[|es|].now;
        }
      }
      TestsOfRun(es, e.v, e.now - 10 * MINUTE);
      forall k: nat | k < |db.tests| ensures db.tests[k].at <= e.now { TestsInPast(es, e.now, k); }
      ActivationDue(db, e.v, e.now);
    }
  }

  lemma ActivationDue(db: Db, v: VersionId, now: int)
    requires forall k: nat | k < |db.tests| :: db.tests[k].at <= now
    ensures Recorded(db.tests, v, now - 10 * MINUTE) <==>
            var tested := LatestSuccess(db.tests, v); tested.Some? && now - TEST_VALIDITY <= tested.value <= now
  {
    var tested := LatestSuccess(db.tests, v);
    if k: nat :| k < |db.tests| && TestPassed(db.tests[k], v, now - 10 * MINUTE) {
      assert db.tests[k].at <= tested.value;
    }
    if tested.Some? && now - TEST_VALIDITY <= tested.value {
      var k: nat :| k < |db.tests| && db.tests[k] == Test(v, true, tested.value);
      assert TestPassed(db.tests[k], v, now - 10 * MINUTE);
    }
  }

  /** A change whose author saw the state before event `i` is accepted only while that still is the
      state: no update is lost. */
  lemma {:induction false} NoLostUpdate(es: seq<Event>, i: nat, e: Event)
    requires i <= |es| && Change(e) && e.expected == Before(INITIAL, es, i).revision
    ensures Accepted(Run(INITIAL, es), e) ==> Before(INITIAL, es, i) == Run(INITIAL, es)
  {
    RevisionIdentifiesState(INITIAL, es, i, |es|);
    assert es[..|es|] == es;
  }

  /** The revision rises only when something else changes too, so nobody who saw the state is turned
      away for nothing; only a failed probe may find the next one put off already. */
  lemma {:induction false} RevisionMeansChange(es: seq<Event>, e: Event)
    ensures var db, db' := Run(INITIAL, es), Step(Run(INITIAL, es), e);
      Accepted(db, e) && !(e.EvProbeOutcome? && !e.success) ==> db'.revision == db.revision + 1 && db'.(revision := db.revision) != db
  {
    PointersAlways(es);
    hide Run;
    StepRevision(Run(INITIAL, es), e);
  }

  // ---------------------------------------------------------------- what an accepted change does

  /** What a rollback at once would make active. */
  function Returns(db: Db): Option<VersionId> {
    var after := Step(db, EvRollback(db.revision, 0));
    if after == db then None else after.active
  }

  /** What delivers, and what a rollback would bring back, after a change: leaving an active
      version makes it the one to come back; going back from it makes the left one come back. */
  lemma {:induction false} ChangeRemembers(es: seq<Event>, e: Event)
    requires Accepted(Run(INITIAL, es), e)
    ensures var db, db' := Run(INITIAL, es), Step(Run(INITIAL, es), e);
      match e
      case EvActivate(_, v, _) =>
        Effective(db') == Some(Source(Active, Some(v))) && db'.candidate == None && Returns(db') == if db.active.Some? then db.active else Returns(db)
      case EvRollback(_, _) =>
        Effective(db') == Some(Source(Active, Returns(db))) && db'.candidate == db.candidate && Returns(db') == db.active
      case EvDisable(_, _, _) =>
        Effective(db') == None && db'.candidate == db.candidate && Returns(db') == if db.active.Some? then db.active else Returns(db)
      case EvCreate(_, v, _, _) => Effective(db') == Effective(db) && Returns(db') == Returns(db) && db'.candidate == Some(v)
      case _ => Effective(db') == Effective(db) && Returns(db') == Returns(db) && db'.candidate == db.candidate
  {
    PointersAlways(es);
    var db := Run(INITIAL, es);
    hide Run, RecordDeliveryOutcome;
    if e.EvDeliver? && Try(db, e).Ok? { DeliveryPointers(db, e.source, e.outcome, e.now); }
  }

  /** From `n` on no other version than the present one was active. */
  ghost predicate NoneElse(es: seq<Event>, n: nat, v: VersionId) {
    && n <= |es| && Before(INITIAL, es, n).active == Some(v)
    && forall m: nat | n < m <= |es| :: Before(INITIAL, es, m).active in {None, Run(INITIAL, es).active}
  }

  /** Whatever ran: the version that a rollback brings back is the last other one that was active. */
  lemma {:induction false} ReturnsLastActive(es: seq<Event>)
    requires Returns(Run(INITIAL, es)).Some?
    ensures exists n: nat :: NoneElse(es, n, Returns(Run(INITIAL, es)).value)
  {
    PointersAlways(es);
    PreviousLastActive(es);
    hide Run;
  }

  lemma {:induction false} PreviousLastActive(es: seq<Event>)
    requires Run(INITIAL, es).previous.Some?
    ensures exists n: nat :: NoneElse(es, n, Run(INITIAL, es).previous.value)
  {
    var front, e := es[..|es| - 1], es[|es| - 1];
    var db, db' := Run(INITIAL, front), Run(INITIAL, es);
    PreviousStep(front, e);
    assert es[..|front|] == front && es[..|es|] == es;
    if db.active.Some? && db'.active != db.active {
      assert NoneElse(es, |front|, db.active.value);
    } else {
      PreviousLastActive(front);
      var n: nat :| NoneElse(front, n, db.previous.value);
      hide Step;
      forall m: nat | m <= |front| ensures Before(INITIAL, es, m) == Before(INITIAL, front, m) { assert front[..m] == es[..m]; }
      assert NoneElse(es, n, db.previous.value);
    }
  }

  lemma {:induction false} PreviousStep(es: seq<Event>, e: Event)
    ensures var db, db' := Run(INITIAL, es), Step(Run(INITIAL, es), e);
      && (db.active.Some? && db'.active != db.active ==> db'.previous == db.active)
      && (!(db.active.Some? && db'.active != db.active) && db'.previous.Some? ==> db'.previous == db.previous)
  {
    PointersAlways(es);
    hide Run, RecordDeliveryOutcome;
    var db := Run(INITIAL, es);
    if e.EvDeliver? && Try(db, e).Ok? { DeliveryPointers(db, e.source, e.outcome, e.now); }
  }

  // ---------------------------------------------------------------- versions and candidates

  predicate CreatedAt(es: seq<Event>, i: nat, v: VersionId, config: Config) {
    i < |es| && es[i].EvCreate? && es[i].v == v && es[i].config == config && Accepted(Before(INITIAL, es, i), es[i])
  }

  lemma VersionStep(db: Db, e: Event, v: VersionId)
    ensures var made := e.EvCreate? && e.v == v && Accepted(db, e);
      && (v in Step(db, e).versions <==> v in db.versions || made)
      && (made ==> Step(db, e).versions[v] == e.config && v !in db.versions)
      && (v in db.versions ==> Step(db, e).versions[v] == db.versions[v])
  {
    hide RecordDeliveryOutcome;
    if e.EvDeliver? && Try(db, e).Ok? { DeliveryPointers(db, e.source, e.outcome, e.now); }
  }

  lemma {:induction false} CreatedSnoc(es: seq<Event>, i: nat, v: VersionId, config: Config)
    requires es != []
    ensures var front, e := es[..|es| - 1], es[|es| - 1];
      CreatedAt(es, i, v, config) <==>
        (CreatedAt(front, i, v, config)
         || (i == |front| && e.EvCreate? && e.v == v && e.config == config && Accepted(Run(INITIAL, front), e)))
  {
    hide Run, Accepted;
    var front := es[..|es| - 1];
    if i < |front| { assert front[..i] == es[..i]; }
  }

  /** A stored version is exactly what the one accepted call that created it gave. */
  lemma {:induction false} VersionsAsCreated(es: seq<Event>, v: VersionId)
    ensures v in Run(INITIAL, es).versions <==> exists i: nat, config :: CreatedAt(es, i, v, config)
    ensures forall i: nat, config | CreatedAt(es, i, v, config) :: v in Run(INITIAL, es).versions && Run(INITIAL, es).versions[v] == config
  {
    if es != [] {
      var front, e := es[..|es| - 1], es[|es| - 1];
      VersionsAsCreated(front, v);
      VersionStep(Run(INITIAL, front), e, v);
      hide Step, Accepted, CreatedAt;
      forall i: nat, config
        ensures CreatedAt(es, i, v, config) <==>
          (CreatedAt(front, i, v, config)
           || (i == |front| && e.EvCreate? && e.v == v && e.config == config && Accepted(Run(INITIAL, front), e)))
      {
        CreatedSnoc(es, i, v, config);
      }
      if e.EvCreate? && e.v == v && Accepted(Run(INITIAL, front), e) { assert CreatedAt(es, |front|, v, e.config); }
      if i: nat, config :| CreatedAt(front, i, v, config) { assert CreatedAt(es, i, v, config); }
    } else {
      hide Run;
      assert forall i: nat, config :: !CreatedAt(es, i, v, config);
      NoVersions();
    }
  }

  lemma NoVersions()
    ensures Run(INITIAL, []).versions == map[]
  {}

  /** The version is the candidate exactly when its creation is the last one and it was not
      activated since. */
  lemma {:induction false} CandidateExactly(es: seq<Event>, v: VersionId)
    ensures Run(INITIAL, es).candidate == Some(v) <==> exists n: nat :: Last(es, n, Creates(v), Replaces)
  {
    if es != [] {
      var front, e := es[..|es| - 1], es[|es| - 1];
      assert es == front + [e];
      var db := Run(INITIAL, front);
      CandidateExactly(front, v);
      CandidateMoves(db, e);
      hide Step, Accepted, Last;
      forall n: nat
        ensures Last(es, n, Creates(v), Replaces) <==> (n == |front| && Creates(v)(db, e)) || (Last(front, n, Creates(v), Replaces) && !Replaces(db, e))
      {
        LastOne(front, e, n, Creates(v), Replaces);
      }
      if n: nat :| Last(front, n, Creates(v), Replaces) && !Replaces(db, e) { assert Last(es, n, Creates(v), Replaces); }
      if Creates(v)(db, e) { assert Last(es, |front|, Creates(v), Replaces); }
    }
  }

  function Creates(v: VersionId): Kind {
    (db: Db, e: Event) => e.EvCreate? && e.v == v && Accepted(db, e)
  }

  predicate Replaces(db: Db, e: Event) {
    (e.EvCreate? || e.EvActivate?) && Accepted(db, e)
  }

  lemma CandidateMoves(db: Db, e: Event)
    ensures Step(db, e).candidate ==
      if Replaces(db, e) then (if e.EvCreate? then Some(e.v) else None) else db.candidate
  {
    hide RecordDeliveryOutcome;
    if e.EvDeliver? && Try(db, e).Ok? { DeliveryPointers(db, e.source, e.outcome, e.now); }
  }
}

/** Probe discipline, the row's constraints, and where active versions come from, over every run. */
module MailHistory {
  import opened Base
  import opened MailModel

  // ---------------------------------------------------------------- the row's CHECK constraints

  predicate Distinct(x: Option<VersionId>, y: Option<VersionId>) {
    x.None? || y.None? || x != y
  }

  /** The constraints of table mail_runtime_state, with `clock` the time of the last event. */
  predicate RowOk(db: Db, clock: int) {
    && (db.mode == Active <==> db.active.Some?)
    && (db.mode == Fallback ==> db.previous.None?)
    && Distinct(db.candidate, db.active) && Distinct(db.candidate, db.previous) && Distinct(db.active, db.previous)
    && (db.window.Failures? ==> db.window.count >= 1)
    && (db.circuit.Closed? && db.window.Failures? ==> db.window.count < FAILURE_LIMIT)
    && (db.circuit.Open? ==>
          && db.circuit.category != Recipient
          && db.circuit.openedAt <= clock && db.circuit.nextProbe >= db.circuit.openedAt + PROBE_INTERVAL
          && (if db.circuit.category == Transport then db.window.Failures? && db.window.count >= FAILURE_LIMIT
              else db.window.NoFailures?))
  }

  predicate Known(db: Db, v: Option<VersionId>) {
    v.Some? ==> v.value in db.versions
  }

  predicate PointersKnown(db: Db) {
    Known(db, db.active) && Known(db, db.candidate) && Known(db, db.previous)
  }

  lemma DeliveryRow(db: Db, e: Event, clock: int)
    requires RowOk(db, clock) && PointersKnown(db) && clock <= e.now && e.EvDeliver?
    ensures RowOk(Step(db, e), e.now) && PointersKnown(Step(db, e))
  {}

  lemma RowStep(db: Db, e: Event, clock: int)
    requires RowOk(db, clock) && PointersKnown(db) && clock <= e.now
    ensures RowOk(Step(db, e), e.now) && PointersKnown(Step(db, e))
  {
    hide RecordDeliveryOutcome;
    if e.EvDeliver? { DeliveryRow(db, e, clock); }
  }

  /** No transaction ever violates a constraint of the row, and mode is active exactly when an
      active version is set. */
  lemma {:induction false} RowAlwaysOk(es: seq<Event>)
    requires Monotone(es)
    ensures PointersKnown(Run(INITIAL, es))
    ensures forall clock | (es != [] ==> es[|es| - 1].now <= clock) :: RowOk(Run(INITIAL, es), clock)
  {
    if es != [] {
      var front := es[..|es| - 1];
      RowAlwaysOk(front);
      RowStep(Run(INITIAL, front), es[|es| - 1], es[|es| - 1].now);
    }
  }

  lemma DeliveryLeavesVersions(db: Db, source: Source, outcome: Outcome, now: int)
    requires RecordDeliveryOutcome(db, source, outcome, now).Ok?
    ensures var d := RecordDeliveryOutcome(db, source, outcome, now).value; d.mode == db.mode && d.active == db.active && d.previous == db.previous
  {}

  /** Mode is active exactly when an active version is set, whatever the clocks do. */
  lemma {:induction false} ModeActiveIffVersion(es: seq<Event>)
    ensures Run(INITIAL, es).mode == Active <==> Run(INITIAL, es).active.Some?
    ensures Run(INITIAL, es).mode == Fallback ==> Run(INITIAL, es).previous.None?
  {
    hide RecordDeliveryOutcome;
    if es != [] {
      var front, e := es[..|es| - 1], es[|es| - 1];
      ModeActiveIffVersion(front);
      if e.EvDeliver? && Try(Run(INITIAL, front), e).Ok? { DeliveryLeavesVersions(Run(INITIAL, front), e.source, e.outcome, e.now); }
    }
  }

  // ---------------------------------------------------------------- probes

  predicate ProbeClaimed(db: Db, e: Event) {
    e.EvClaimProbe? && Try(db, e).Ok?
  }

  /** While the circuit stays open, the next probe is never due sooner than an interval after a claim. */
  lemma {:induction false} ProbeDeferred(es: seq<Event>, i: nat, m: nat)
    requires Monotone(es) && i < m <= |es| && ProbeClaimed(Before(INITIAL, es, i), es[i])
    requires forall x: nat | i < x <= m :: Before(INITIAL, es, x).circuit.Open?
    ensures Before(INITIAL, es, m).circuit.nextProbe >= es[i].now + PROBE_INTERVAL
    decreases m
  {
    BeforeNext(INITIAL, es, m - 1);
    if m > i + 1 {
      ProbeDeferred(es, i, m - 1);
      assert es[i].now <= es[m - 1].now;
    }
  }

  /** Within one open period any two probe claims, whichever instances make them, are at least
      thirty seconds apart, and none comes sooner than that after the opening. */
  lemma {:induction false} ProbesApart(es: seq<Event>, i: nat, j: nat)
    requires Monotone(es) && i < j < |es|
    requires ProbeClaimed(Before(INITIAL, es, i), es[i]) && ProbeClaimed(Before(INITIAL, es, j), es[j])
    requires forall x: nat | i < x <= j :: Before(INITIAL, es, x).circuit.Open?
    ensures es[j].now - es[i].now >= PROBE_INTERVAL
  {
    ProbeDeferred(es, i, j);
  }

  lemma {:induction false} FirstProbeAfterOpening(es: seq<Event>, j: nat)
    requires Monotone(es) && j < |es| && ProbeClaimed(Before(INITIAL, es, j), es[j])
    ensures es[j].now - Before(INITIAL, es, j).circuit.openedAt >= PROBE_INTERVAL
  {
    assert Monotone(es[..j]);
    RowAlwaysOk(es[..j]);
    assert j > 0 ==> es[..j][j - 1].now <= es[j].now;
    assert RowOk(Before(INITIAL, es, j), es[j].now);
  }

  /** An outcome reported under a claim's revision is accepted exactly when no state change was
      committed since the claim; otherwise it is a conflict and changes nothing. */
  lemma {:induction false} ProbeOutcomeFenced(es: seq<Event>, i: nat, j: nat, success: bool, now: int)
    requires i < j <= |es| && ProbeClaimed(Before(INITIAL, es, i), es[i])
    ensures var claimed, at := Before(INITIAL, es, i + 1), Before(INITIAL, es, j);
      var r := RecordProbeOutcome(at, es[i].source, claimed.revision, success, now);
      && (r.Ok? <==> forall m: nat | i < m <= j :: Before(INITIAL, es, m) == claimed)
      && (r.Ok? ==> (r.value.circuit.Closed? <==> success))
      && (r.Err? ==> r == Err(StateConflict))
  {
    var claimed, at := Before(INITIAL, es, i + 1), Before(INITIAL, es, j);
    BeforeNext(INITIAL, es, i);
    RevisionIdentifiesState(INITIAL, es, i + 1, j);
    forall m: nat | i < m <= j && at.revision == claimed.revision ensures Before(INITIAL, es, m) == claimed {
      RevisionIdentifiesState(INITIAL, es, i + 1, m);
      RevisionIdentifiesState(INITIAL, es, m, j);
    }
  }

  // ---------------------------------------------------------------- only tested versions run

  predicate Holds(db: Db, v: VersionId) {
    db.active == Some(v) || db.previous == Some(v)
  }

  predicate TestedAt(db: Db, e: Event, v: VersionId) {
    e.EvTest? && e.v == v && e.success && Try(db, e).Ok?
  }

  predicate ActivatedAt(db: Db, e: Event, v: VersionId) {
    e.EvActivate? && e.v == v && Try(db, e).Ok?
  }

  predicate Extends(x: map<VersionId, Config>, y: map<VersionId, Config>) {
    forall v | v in x :: v in y && y[v] == x[v]
  }

  lemma VersionsStep(db: Db, e: Event)
    requires PointersKnown(db)
    ensures PointersKnown(Step(db, e)) && Extends(db.versions, Step(db, e).versions)
  {}

  lemma {:induction false} VersionsGrow(es: seq<Event>, i: nat, j: nat)
    requires i <= j <= |es|
    ensures Extends(Before(INITIAL, es, i).versions, Before(INITIAL, es, j).versions)
    ensures PointersKnown(Before(INITIAL, es, j))
    decreases j
  {
    if j > 0 {
      VersionsGrow(es, if i < j then i else j - 1, j - 1);
      BeforeNext(INITIAL, es, j - 1);
      hide Step, PointersKnown;
      VersionsStep(Before(INITIAL, es, j - 1), es[j - 1]);
    }
  }

  /** Every recorded test is an accepted test event of the run. */
  lemma {:induction false} TestsAreEvents(es: seq<Event>, k: nat) returns (i: nat)
    requires k < |Run(INITIAL, es).tests|
    ensures i < |es| && es[i].EvTest? && Try(Before(INITIAL, es, i), es[i]).Ok?
    ensures Run(INITIAL, es).tests[k] == Test(es[i].v, es[i].success, es[i].now)
  {
    var front := es[..|es| - 1];
    if k < |Run(INITIAL, front).tests| {
      i := TestsAreEvents(front, k);
      BeforeFront(INITIAL, es, i);
    } else {
      i := |es| - 1;
    }
  }

  /** A version not yet created has never been active or previous. */
  lemma {:induction false} UncreatedNeverHeld(es: seq<Event>, v: VersionId, m: nat)
    requires v !in Run(INITIAL, es).versions && m <= |es|
    ensures !Holds(Before(INITIAL, es, m), v)
  {
    VersionsGrow(es, m, |es|);
    VersionsGrow(es, m, m);
    assert es[..|es|] == es;
  }

  lemma CandidateStep(db: Db, e: Event, v: VersionId)
    requires Step(db, e).candidate == Some(v) && !Holds(db, v)
    ensures db.candidate == Some(v) || v !in db.versions
    ensures !Holds(Step(db, e), v)
  {}

  /** A candidate has never been active or previous before. */
  lemma {:induction false} CandidateNeverHeld(es: seq<Event>, v: VersionId)
    requires Run(INITIAL, es).candidate == Some(v)
    ensures forall m: nat | m <= |es| :: !Holds(Before(INITIAL, es, m), v)
  {
    var front, e := es[..|es| - 1], es[|es| - 1];
    assert front[..|front|] == front && es[..|es|] == es;
    assert Run(INITIAL, front).candidate == Some(v) || v !in Run(INITIAL, front).versions;
    hide Step, Holds;
    forall m: nat | m <= |front| ensures !Holds(Before(INITIAL, es, m), v) {
      BeforeFront(INITIAL, es, m);
      if Run(INITIAL, front).candidate == Some(v) { CandidateNeverHeld(front, v); } else { UncreatedNeverHeld(front, v, m); }
    }
    BeforeFront(INITIAL, es, |front|);
    CandidateStep(Run(INITIAL, front), e, v);
  }

  /** `i` is a successful test of `v` and `j` its activation, at most ten minutes later; before
      `j` the version was never active or previous. */
  ghost predicate Provenance(es: seq<Event>, v: VersionId, i: nat, j: nat) {
    && i < j < |es|
    && TestedAt(Before(INITIAL, es, i), es[i], v)
    && ActivatedAt(Before(INITIAL, es, j), es[j], v)
    && es[j].now - TEST_VALIDITY <= es[i].now <= es[j].now
    && forall m: nat | m <= j :: !Holds(Before(INITIAL, es, m), v)
  }

  lemma {:induction false} ProvenanceGrows(es: seq<Event>, v: VersionId, i: nat, j: nat)
    requires es != [] && Provenance(es[..|es| - 1], v, i, j)
    ensures Provenance(es, v, i, j)
  {
    forall m: nat | m <= j ensures Before(INITIAL, es, m) == Before(INITIAL, es[..|es| - 1], m) { BeforeFront(INITIAL, es, m); }
  }

  /** Every version that is active or previous was first activated within ten minutes after a
      successful test of that same version. */
  lemma {:induction false} OnlyTestedVersionsRun(es: seq<Event>, v: VersionId) returns (i: nat, j: nat)
    requires Holds(Run(INITIAL, es), v)
    ensures Provenance(es, v, i, j)
  {
    var front, e := es[..|es| - 1], es[|es| - 1];
    var db := Run(INITIAL, front);
    if Holds(db, v) {
      i, j := OnlyTestedVersionsRun(front, v);
      ProvenanceGrows(es, v, i, j);
    } else {
      assert ActivatedAt(db, e, v);
      var tested := LatestSuccess(db.tests, v).value;
      var k: nat :| k < |db.tests| && db.tests[k] == Test(v, true, tested);
      i := TestsAreEvents(front, k);
      j := |front|;
      CandidateNeverHeld(front, v);
      forall m: nat | m <= j ensures !Holds(Before(INITIAL, es, m), v) {
        BeforeFront(INITIAL, es, m);
      }
      BeforeFront(INITIAL, es, i);
    }
  }
}

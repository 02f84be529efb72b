/** When the mail circuit is open, since when and why, and when a probe is due: exactly, in terms of
    the events of the run. */
module MailOpening {
  import opened Base
  import opened MailModel
  import opened MailHistory

  // ---------------------------------------------------------------- the last event of a kind

  type Kind = (Db, Event) -> bool

  /** Event `n` is of one kind, and none after it is of the other. */
  ghost predicate Last(es: seq<Event>, n: nat, kind: Kind, ended: Kind) {
    && n < |es| && kind(Before(INITIAL, es, n), es[n])
    && forall m: nat | n < m < |es| :: !ended(Before(INITIAL, es, m), es[m])
  }

  lemma {:induction false} LastOne(es: seq<Event>, e: Event, n: nat, kind: Kind, ended: Kind)
    ensures Last(es + [e], n, kind, ended) <==>
            (n == |es| && kind(Run(INITIAL, es), e)) || (Last(es, n, kind, ended) && !ended(Run(INITIAL, es), e))
  {
    var all := es + [e];
    forall m: nat | m <= |es| ensures all[..m] == es[..m] {}
    assert es[..|es|] == es;
    if Last(es, n, kind, ended) && !ended(Run(INITIAL, es), e) {
      forall m: nat | n < m < |all| ensures !ended(Before(INITIAL, all, m), all[m]) {
        if m < |es| { assert !ended(Before(INITIAL, es, m), es[m]); }
      }
    }
    if Last(all, n, kind, ended) && n < |es| {
      forall m: nat | n < m < |es| ensures !ended(Before(INITIAL, es, m), es[m]) { assert !ended(Before(INITIAL, all, m), all[m]); }
      assert !ended(Before(INITIAL, all, |es|), all[|es|]);
    }
  }

  // ---------------------------------------------------------------- kinds of events

  /** The source that delivers at present. */
  function Effective(db: Db): Option<Source> {
    match db.mode
    case Fallback => Some(Source(Fallback, None))
    case Active => Some(Source(Active, db.active))
    case Disabled => None
  }

  predicate Permanent(c: Category) {
    c == Configuration || c == Authentication || c == Tls
  }

  /** A delivery of the effective source meets a closed circuit and fails for a permanent reason. */
  predicate FailsFor(db: Db, e: Event, c: Category) {
    db.circuit.Closed? && e.EvDeliver? && e.outcome == Undelivered(c) && Effective(db) == Some(e.source)
  }

  function Fails(c: Category): Kind {
    (db, e) => FailsFor(db, e, c)
  }

  /** The configuration that delivers is another one afterwards. */
  predicate Reconfigures(db: Db, e: Event) {
    Step(db, e).mode != db.mode || Step(db, e).active != db.active
  }

  /** A probe of the effective source succeeds, and nothing changed since it was claimed. */
  predicate Recovers(db: Db, e: Event) {
    e.EvProbeOutcome? && e.success && e.expected == db.revision && Effective(db) == Some(e.source) && db.circuit.Open?
  }

  predicate Closes(db: Db, e: Event) {
    Recovers(db, e) || Reconfigures(db, e)
  }

  predicate Opens(db: Db, e: Event) {
    db.circuit.Closed? && Step(db, e).circuit.Open?
  }

  // ---------------------------------------------------------------- what one step does to the circuit

  predicate PointersApart(db: Db) {
    && (db.mode == Active <==> db.active.Some?) && (db.mode == Fallback ==> db.previous.None?)
    && Distinct(db.candidate, db.active) && Distinct(db.candidate, db.previous) && Distinct(db.active, db.previous)
  }

  lemma DeliveryPointers(db: Db, source: Source, outcome: Outcome, now: int)
    requires RecordDeliveryOutcome(db, source, outcome, now).Ok?
    ensures var d := RecordDeliveryOutcome(db, source, outcome, now).value;
      && d.mode == db.mode && d.active == db.active && d.previous == db.previous && d.candidate == db.candidate
      && d.versions == db.versions && d.tests == db.tests
  {}

  lemma PointersStep(db: Db, e: Event)
    requires PointersApart(db) && PointersKnown(db)
    ensures PointersApart(Step(db, e))
  {
    hide RecordDeliveryOutcome;
    if e.EvDeliver? && Try(db, e).Ok? { DeliveryPointers(db, e.source, e.outcome, e.now); }
  }

  lemma {:induction false} PointersAlways(es: seq<Event>)
    ensures PointersApart(Run(INITIAL, es)) && PointersKnown(Run(INITIAL, es))
  {
    VersionsGrow(es, |es|, |es|);
    assert es[..|es|] == es;
    if es != [] {
      PointersAlways(es[..|es| - 1]);
      hide Step, PointersApart, PointersKnown;
      PointersStep(Run(INITIAL, es[..|es| - 1]), es[|es| - 1]);
    } else {
      assert PointersApart(INITIAL);
    }
  }

  lemma EffectiveSource(db: Db, source: Source)
    requires PointersApart(db)
    ensures Effective(db) == Some(source) <==> ValidSource(source) && SourceMatches(source, db)
  {}

  /** The circuit that such a delivery opens. */
  predicate OpenedBy(db: Db, e: Event, circuit: Circuit) {
    && e.EvDeliver? && Effective(db) == Some(e.source) && circuit.Open? && e.outcome == Undelivered(circuit.category)
    && circuit.openedAt == e.now && circuit.nextProbe == e.now + PROBE_INTERVAL
  }

  lemma DeliveryCircuit(db: Db, e: Event)
    requires PointersApart(db) && e.EvDeliver?
    ensures Step(db, e).mode == db.mode && Step(db, e).active == db.active
    ensures db.circuit.Open? ==> Step(db, e) == db
    ensures forall c | Permanent(c) :: FailsFor(db, e, c) <==> Opens(db, e) && Step(db, e).circuit.category == c
    ensures Opens(db, e) ==> OpenedBy(db, e, Step(db, e).circuit)
  {
    EffectiveSource(db, e.source);
  }

  /** An open circuit keeps its category and its time of opening until it is closed; only a
      delivery opens it. */
  lemma OtherCircuit(db: Db, e: Event)
    requires PointersApart(db) && !e.EvDeliver?
    ensures !Opens(db, e)
    ensures db.circuit.Open? ==> (Step(db, e).circuit.Closed? <==> Closes(db, e))
    ensures db.circuit.Open? && !Closes(db, e) ==>
              Step(db, e).circuit.category == db.circuit.category && Step(db, e).circuit.openedAt == db.circuit.openedAt
  {
    if e.EvProbeOutcome? { EffectiveSource(db, e.source); }
  }

  lemma CircuitStep(db: Db, e: Event)
    requires PointersApart(db)
    ensures db.circuit.Open? ==> (Step(db, e).circuit.Closed? <==> Closes(db, e))
    ensures db.circuit.Open? && !Closes(db, e) ==>
              Step(db, e).circuit.category == db.circuit.category && Step(db, e).circuit.openedAt == db.circuit.openedAt
    ensures Opens(db, e) ==> !Closes(db, e) && OpenedBy(db, e, Step(db, e).circuit)
    ensures forall c | Permanent(c) :: FailsFor(db, e, c) <==> Opens(db, e) && Step(db, e).circuit.category == c
  {
    if e.EvDeliver? { DeliveryCircuit(db, e); } else { OtherCircuit(db, e); }
  }

  // ---------------------------------------------------------------- main results on openings

  /** Why and since when the circuit is open, by its opening event. */
  ghost predicate Explains(es: seq<Event>, n: nat, circuit: Circuit) {
    && n < |es| && circuit.Open?
    && Before(INITIAL, es, n + 1).circuit.Open?
    && circuit.category == Before(INITIAL, es, n + 1).circuit.category && circuit.openedAt == es[n].now
    && es[n].EvDeliver? && es[n].outcome == Undelivered(circuit.category) && Effective(Before(INITIAL, es, n)) == Some(es[n].source)
  }

  /** The circuit is open exactly when some event opened it and nothing has closed it since; it
      then has that event's category and time. */
  lemma {:induction false} OpenExactly(es: seq<Event>)
    ensures Run(INITIAL, es).circuit.Open? <==> exists n: nat :: Last(es, n, Opens, Closes)
    ensures forall n: nat | Last(es, n, Opens, Closes) :: Explains(es, n, Run(INITIAL, es).circuit)
  {
    if es != [] {
      var front, e := es[..|es| - 1], es[|es| - 1];
      assert es == front + [e];
      OpenExactly(front);
      PointersAlways(front);
      hide Step, Opens, Closes, Last, PointersApart;
      var db := Run(INITIAL, front);
      OpenOne(front, e);
      forall n: nat ensures Last(es, n, Opens, Closes) <==> (n == |front| && Opens(db, e)) || (Last(front, n, Opens, Closes) && !Closes(db, e)) {
        LastOne(front, e, n, Opens, Closes);
      }
      forall n: nat | Last(es, n, Opens, Closes) ensures Explains(es, n, Step(db, e).circuit) {
        if n < |front| { assert Explains(front, n, db.circuit); ExplainsOn(front, e, n, db.circuit); }
      }
      if exists n: nat :: Last(front, n, Opens, Closes) {
        var n: nat :| Last(front, n, Opens, Closes);
        assert !Closes(db, e) ==> Last(es, n, Opens, Closes);
      }
      assert Opens(db, e) ==> Last(es, |front|, Opens, Closes);
    }
  }

  lemma {:induction false} ExplainsOn(es: seq<Event>, e: Event, n: nat, circuit: Circuit)
    requires Explains(es, n, circuit)
    ensures Explains(es + [e], n, circuit)
  {
    assert (es + [e])[..n + 1] == es[..n + 1] && (es + [e])[..n] == es[..n];
  }

  lemma {:induction false} OpenOne(es: seq<Event>, e: Event)
    requires PointersApart(Run(INITIAL, es))
    ensures var db, db' := Run(INITIAL, es), Run(INITIAL, es + [e]);
      && db' == Step(db, e)
      && (db.circuit.Open? ==> (db'.circuit.Closed? <==> Closes(db, e)))
      && (db.circuit.Open? && !Closes(db, e) ==> db'.circuit.category == db.circuit.category && db'.circuit.openedAt == db.circuit.openedAt)
      && (db.circuit.Closed? ==> (db'.circuit.Open? <==> Opens(db, e)))
      && (Opens(db, e) ==> !Closes(db, e) && db.circuit.Closed? && Explains(es + [e], |es|, db'.circuit))
  {
    RunOne(INITIAL, es, e);
    CircuitStep(Run(INITIAL, es), e);
    assert (es + [e])[..|es| + 1] == es + [e] && (es + [e])[..|es|] == es;
    hide Run, Step;
  }

  lemma {:induction false} FailsOpens(es: seq<Event>, n: nat, c: Category)
    requires n < |es| && Permanent(c)
    ensures FailsFor(Before(INITIAL, es, n), es[n], c) <==>
            Opens(Before(INITIAL, es, n), es[n]) && Before(INITIAL, es, n + 1).circuit.Open? && Before(INITIAL, es, n + 1).circuit.category == c
  {
    PointersAlways(es[..n]);
    BeforeNext(INITIAL, es, n);
    hide Run, PointersApart, PointersKnown;
    CircuitStep(Before(INITIAL, es, n), es[n]);
  }

  lemma {:induction false} LastFails(es: seq<Event>, n: nat, c: Category)
    requires Permanent(c) && (Last(es, n, Opens, Closes) ==> Explains(es, n, Run(INITIAL, es).circuit))
    ensures Last(es, n, Fails(c), Closes) <==> Last(es, n, Opens, Closes) && Run(INITIAL, es).circuit.Open? && Run(INITIAL, es).circuit.category == c
  {
    if n < |es| { FailsOpens(es, n, c); }
    hide Run, Opens, FailsFor, Closes;
  }

  /** For each permanent category: the circuit is open for it exactly when some delivery of the
      then effective source failed for it at a closed circuit, and nothing has closed it since. */
  lemma {:induction false} PermanentOpensExactly(es: seq<Event>, c: Category)
    requires Permanent(c)
    ensures (Run(INITIAL, es).circuit.Open? && Run(INITIAL, es).circuit.category == c) <==> exists n: nat :: Last(es, n, Fails(c), Closes)
    ensures forall n: nat | Last(es, n, Fails(c), Closes) :: Run(INITIAL, es).circuit.Open? && Run(INITIAL, es).circuit.openedAt == es[n].now
  {
    OpenExactly(es);
    hide Run, Last;
    forall n: nat
      ensures Last(es, n, Fails(c), Closes) <==> Last(es, n, Opens, Closes) && Run(INITIAL, es).circuit.Open? && Run(INITIAL, es).circuit.category == c
    {
      LastFails(es, n, c);
    }
  }

  // ---------------------------------------------------------------- probes

  /** The event puts the next probe off: an opening, a claimed probe, or a probe that failed. */
  predicate Defers(db: Db, e: Event) {
    || Opens(db, e)
    || (e.EvClaimProbe? && Step(db, e) != db)
    || (e.EvProbeOutcome? && !e.success && e.expected == db.revision && Effective(db) == Some(e.source) && db.circuit.Open?)
  }

  lemma ProbeStep(db: Db, e: Event)
    requires PointersApart(db)
    ensures Defers(db, e) ==> Step(db, e).circuit.Open? && Step(db, e).circuit.nextProbe == e.now + PROBE_INTERVAL
    ensures db.circuit.Open? && !Defers(db, e) && Step(db, e).circuit.Open? ==> Step(db, e).circuit.nextProbe == db.circuit.nextProbe
    ensures db.circuit.Closed? && Step(db, e).circuit.Open? ==> Defers(db, e)
  {
    if e.EvDeliver? { DeliveryCircuit(db, e); } else { OtherCircuit(db, e); }
    if e.EvClaimProbe? || e.EvProbeOutcome? { EffectiveSource(db, e.source); }
  }

  /** While the circuit is open, the next probe is due one interval after the last event that put
      it off. */
  lemma {:induction false} NextProbe(es: seq<Event>)
    requires Run(INITIAL, es).circuit.Open?
    ensures exists n: nat :: Last(es, n, Defers, Defers)
    ensures forall n: nat | Last(es, n, Defers, Defers) :: Run(INITIAL, es).circuit.nextProbe == es[n].now + PROBE_INTERVAL
  {
    var front, e := es[..|es| - 1], es[|es| - 1];
    var db := Run(INITIAL, front);
    assert es == front + [e];
    PointersAlways(front);
    ProbeStep(db, e);
    if db.circuit.Open? { NextProbe(front); }
    hide Step, Defers, Last, PointersApart;
    forall n: nat ensures Last(es, n, Defers, Defers) <==> (n == |front| && Defers(db, e)) || (Last(front, n, Defers, Defers) && !Defers(db, e)) {
      LastOne(front, e, n, Defers, Defers);
    }
    if Defers(db, e) { assert Last(es, |front|, Defers, Defers); }
    else {
      var n: nat :| Last(front, n, Defers, Defers);
      assert Last(es, n, Defers, Defers);
    }
  }

  /** A probe is granted exactly to the effective source, at an open circuit, from thirty seconds
      after the last event that put it off. */
  lemma {:induction false} ProbeGrantedExactly(es: seq<Event>, source: Source, now: int, n: nat)
    requires Last(es, n, Defers, Defers)
    ensures var db := Run(INITIAL, es);
      Step(db, EvClaimProbe(source, now)) != db <==>
        Effective(db) == Some(source) && db.circuit.Open? && now - es[n].now >= 30 * SECOND
  {
    var db := Run(INITIAL, es);
    PointersAlways(es);
    EffectiveSource(db, source);
    if db.circuit.Open? { NextProbe(es); }
  }
}

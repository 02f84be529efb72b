/** The shared mail runtime of internal/mailruntime: the singleton state row with its versioned
    configuration and circuit breaker, as one step function over committed transactions. Times
    are microseconds, the precision to which the store truncates its clock. */
module MailModel {
  import opened Base

  const TEST_VALIDITY := 10 * MINUTE
  const FAILURE_WINDOW := 2 * MINUTE
  const FAILURE_LIMIT := 3
  const PROBE_INTERVAL := 30 * SECOND

  type VersionId = nat
  type Config = nat

  datatype Mode = Fallback | Active | Disabled

  datatype Category = Configuration | Authentication | Tls | Transport | Recipient

  datatype Circuit = Closed | Open(category: Category, openedAt: int, nextProbe: int)

  datatype Window = NoFailures | Failures(since: int, count: nat)

  datatype Test = Test(version: VersionId, success: bool, at: int)

  /** The state row together with the append-only version and test tables. */
  datatype Db = Db(mode: Mode, active: Option<VersionId>, candidate: Option<VersionId>, previous: Option<VersionId>,
                   revision: nat, circuit: Circuit, window: Window,
                   versions: map<VersionId, Config>, tests: seq<Test>)

  datatype Source = Source(mode: Mode, version: Option<VersionId>)

  /** What a delivery reports: success, or a failure category. */
  datatype Outcome = Delivered | Undelivered(category: Category)

  datatype Error =
    | InvalidOutcome | StaleEffectiveConfig | CircuitClosed | ProbeNotDue | StateConflict
    | CandidateNotFound | CandidateChanged | CandidateTestRequired | CandidateTestExpired
    | NoPreviousVersion | AlreadyDisabled | RegistrationOpen

  const INITIAL := Db(Fallback, None, None, None, 0, Closed, NoFailures, map[], [])

  // ---------------------------------------------------------------- circuit.go

  predicate ValidSource(source: Source) {
    match source.mode
    case Fallback => source.version.None?
    case Active => source.version.Some?
    case Disabled => false
  }

  predicate SourceMatches(source: Source, db: Db) {
    && source.mode == db.mode
    && (if source.mode == Fallback then db.active.None?
        else source.version.Some? && db.active.Some? && source.version == db.active)
  }

  /** The next window and count after a transport failure at `now`: the window tumbles when it
      is older than two minutes or lies in the future. */
  function Tumble(w: Window, now: int): Window {
    if w.NoFailures? || now < w.since || now - w.since > FAILURE_WINDOW then Failures(now, 1)
    else Failures(w.since, w.count + 1)
  }

  function RecordDeliveryOutcome(db: Db, source: Source, outcome: Outcome, now: int): (r: Result<Db, Error>) {
    if !ValidSource(source) then Err(InvalidOutcome)
    else if !SourceMatches(source, db) then Err(StaleEffectiveConfig)
    else if db.circuit.Open? || outcome == Undelivered(Recipient) then Ok(db)
    else if outcome.Delivered? then
      if db.window.NoFailures? then Ok(db)
      else Ok(db.(window := NoFailures, revision := db.revision + 1))
    else if outcome.category != Transport then
      Ok(db.(circuit := Open(outcome.category, now, now + PROBE_INTERVAL), window := NoFailures, revision := db.revision + 1))
    else
      var w := Tumble(db.window, now);
      if w.count >= FAILURE_LIMIT then
        Ok(db.(circuit := Open(Transport, now, now + PROBE_INTERVAL), window := w, revision := db.revision + 1))
      else Ok(db.(window := w, revision := db.revision + 1))
  }

  /** On success the claim's expected revision is the new revision. */
  function ClaimProbe(db: Db, source: Source, now: int): (r: Result<Db, Error>) {
    if !ValidSource(source) then Err(InvalidOutcome)
    else if !SourceMatches(source, db) then Err(StaleEffectiveConfig)
    else if db.circuit.Closed? then Err(CircuitClosed)
    else if now < db.circuit.nextProbe then Err(ProbeNotDue)
    else Ok(db.(circuit := db.circuit.(nextProbe := now + PROBE_INTERVAL), revision := db.revision + 1))
  }

  function RecordProbeOutcome(db: Db, source: Source, expected: nat, success: bool, now: int): (r: Result<Db, Error>) {
    if !ValidSource(source) then Err(InvalidOutcome)
    else if db.revision != expected then Err(StateConflict)
    else if !SourceMatches(source, db) then Err(StaleEffectiveConfig)
    else if db.circuit.Closed? then Err(CircuitClosed)
    else if success then Ok(db.(circuit := Closed, window := NoFailures, revision := db.revision + 1))
    else Ok(db.(circuit := db.circuit.(nextProbe := now + PROBE_INTERVAL), revision := db.revision + 1))
  }

  // ---------------------------------------------------------------- store.go

  /** `v` is the freshly generated version identifier. */
  function CreateCandidate(db: Db, expected: nat, v: VersionId, config: Config): (r: Result<Db, Error>) {
    if db.revision != expected || v in db.versions then Err(StateConflict)
    else Ok(db.(candidate := Some(v), versions := db.versions[v := config], revision := db.revision + 1))
  }

  function RecordTest(db: Db, expected: nat, v: VersionId, success: bool, now: int): (r: Result<Db, Error>) {
    if db.revision != expected then Err(StateConflict)
    else if db.candidate.None? then Err(CandidateNotFound)
    else if db.candidate != Some(v) then Err(CandidateChanged)
    else Ok(db.(tests := db.tests + [Test(v, success, now)], revision := db.revision + 1))
  }

  /** Time of the latest successful test of the version. */
  function LatestSuccess(tests: seq<Test>, v: VersionId): (r: Option<int>)
    ensures r.None? <==> forall i | 0 <= i < |tests| :: !(tests[i].version == v && tests[i].success)
    ensures r.Some? ==> exists i | 0 <= i < |tests| :: tests[i] == Test(v, true, r.value)
    ensures r.Some? ==> forall i | 0 <= i < |tests| && tests[i].version == v && tests[i].success :: tests[i].at <= r.value
  {
    if tests == [] then None
    else
      var rest := LatestSuccess(tests[..|tests| - 1], v);
      var last := tests[|tests| - 1];
      assert forall i | 0 <= i < |tests| :: i == |tests| - 1 || tests[i] == tests[..|tests| - 1][i];
      if last.version == v && last.success && (rest.None? || rest.value <= last.at) then Some(last.at) else rest
  }

  function Activate(db: Db, expected: nat, v: VersionId, now: int): (r: Result<Db, Error>) {
    if db.revision != expected then Err(StateConflict)
    else if db.candidate.None? then Err(CandidateNotFound)
    else if db.candidate != Some(v) then Err(CandidateChanged)
    else
      var tested := LatestSuccess(db.tests, v);
      if tested.None? || tested.value > now then Err(CandidateTestRequired)
      else if tested.value < now - TEST_VALIDITY then Err(CandidateTestExpired)
      else Ok(db.(mode := Active, active := Some(v), candidate := None,
                  previous := if db.mode == Active then db.active else db.previous,
                  revision := db.revision + 1, circuit := Closed, window := NoFailures))
  }

  function Rollback(db: Db, expected: nat): (r: Result<Db, Error>) {
    if db.revision != expected then Err(StateConflict)
    else if db.previous.None? || db.mode == Fallback then Err(NoPreviousVersion)
    else if db.mode == Active && db.active.None? then Err(NoPreviousVersion)
    else Ok(db.(mode := Active, active := db.previous,
                previous := if db.mode == Active then db.active else None,
                revision := db.revision + 1, circuit := Closed, window := NoFailures))
  }

  function Disable(db: Db, expected: nat, registrationClosed: bool): (r: Result<Db, Error>) {
    if !registrationClosed then Err(RegistrationOpen)
    else if db.revision != expected then Err(StateConflict)
    else if db.mode == Disabled then Err(AlreadyDisabled)
    else Ok(db.(mode := Disabled, active := None,
                previous := if db.mode == Active then db.active else db.previous,
                revision := db.revision + 1, circuit := Closed, window := NoFailures))
  }

  // ---------------------------------------------------------------- runs

  datatype Event =
    | EvDeliver(source: Source, outcome: Outcome, now: int)
    | EvClaimProbe(source: Source, now: int)
    | EvProbeOutcome(source: Source, expected: nat, success: bool, now: int)
    | EvCreate(expected: nat, v: VersionId, config: Config, now: int)
    | EvTest(expected: nat, v: VersionId, success: bool, now: int)
    | EvActivate(expected: nat, v: VersionId, now: int)
    | EvRollback(expected: nat, now: int)
    | EvDisable(expected: nat, registrationClosed: bool, now: int)

  function Try(db: Db, e: Event): (r: Result<Db, Error>) {
    match e
    case EvDeliver(source, outcome, now) => RecordDeliveryOutcome(db, source, outcome, now)
    case EvClaimProbe(source, now) => ClaimProbe(db, source, now)
    case EvProbeOutcome(source, expected, success, now) => RecordProbeOutcome(db, source, expected, success, now)
    case EvCreate(expected, v, config, now) => CreateCandidate(db, expected, v, config)
    case EvTest(expected, v, success, now) => RecordTest(db, expected, v, success, now)
    case EvActivate(expected, v, now) => Activate(db, expected, v, now)
    case EvRollback(expected, now) => Rollback(db, expected)
    case EvDisable(expected, closed, now) => Disable(db, expected, closed)
  }

  /** A transaction that fails commits nothing. */
  function Step(db: Db, e: Event): Db {
    var r := Try(db, e);
    if r.Ok? then r.value else db
  }

  function Run(db: Db, es: seq<Event>): Db
    decreases |es|
  {
    if es == [] then db else Step(Run(db, es[..|es| - 1]), es[|es| - 1])
  }

  /** The state just before the i-th event of a run. */
  function Before(db: Db, es: seq<Event>, i: nat): Db
    requires i <= |es|
  {
    Run(db, es[..i])
  }

  lemma {:induction false} RunOne(db: Db, es: seq<Event>, e: Event)
    ensures Run(db, es + [e]) == Step(Run(db, es), e)
  {
    assert (es + [e])[..|es|] == es;
  }

  lemma {:induction false} BeforeNext(db: Db, es: seq<Event>, i: nat)
    requires i < |es|
    ensures Before(db, es, i + 1) == Step(Before(db, es, i), es[i])
  {
    assert es[..i + 1][..i] == es[..i];
  }

  lemma {:induction false} BeforeFront(db: Db, es: seq<Event>, i: nat)
    requires es != [] && i < |es|
    ensures Before(db, es, i) == Before(db, es[..|es| - 1], i)
  {
    assert es[..|es| - 1][..i] == es[..i];
  }

  /** Times never decrease along the run. */
  ghost predicate Monotone(es: seq<Event>) {
    forall i, j | 0 <= i < j < |es| :: es[i].now <= es[j].now
  }

  // ---------------------------------------------------------------- the revision identifies the state

  /** Every committed change advances the revision by one; a call that changes nothing keeps it. */
  lemma StepRevision(db: Db, e: Event)
    ensures Step(db, e) == db || Step(db, e).revision == db.revision + 1
  {}

  lemma {:induction false} RevisionIdentifiesState(db: Db, es: seq<Event>, i: nat, j: nat)
    requires i <= j <= |es|
    ensures Before(db, es, i).revision <= Before(db, es, j).revision
    ensures Before(db, es, i).revision == Before(db, es, j).revision ==> Before(db, es, i) == Before(db, es, j)
    decreases j
  {
    if i < j {
      RevisionIdentifiesState(db, es, i, j - 1);
      BeforeNext(db, es, j - 1);
      StepRevision(Before(db, es, j - 1), es[j - 1]);
    }
  }
}

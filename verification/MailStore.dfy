/** The imperative form of the mail runtime store: the singleton row that its transactions update
    in place, proved against the transactions of MailModel. */
module MailStore {
  import opened Base
  import opened MailModel

  /** The call left the state as the transaction says, or failed and changed nothing. */
  predicate Did(before: Db, after: Db, r: Result<(), Error>, spec: Result<Db, Error>) {
    match spec
    case Ok(db) => r == Ok(()) && after == db
    case Err(e) => r == Err(e) && after == before
  }

  class Store {
    var mode: Mode
    var active: Option<VersionId>
    var candidate: Option<VersionId>
    var previous: Option<VersionId>
    var revision: nat
    var circuit: Circuit
    var window: Window
    var versions: map<VersionId, Config>
    var tests: seq<Test>

    ghost function View(): Db
      reads this
    {
      Db(mode, active, candidate, previous, revision, circuit, window, versions, tests)
    }

    /** The row as the migration inserts it. */
    constructor ()
      ensures View() == INITIAL
    {
      mode, active, candidate, previous, revision := Fallback, None, None, None, 0;
      circuit, window, versions, tests := Closed, NoFailures, map[], [];
    }

    method RecordOutcome(source: Source, outcome: Outcome, now: int) returns (r: Result<(), Error>)
      modifies this`circuit, this`window, this`revision
      ensures Did(old(View()), View(), r, RecordDeliveryOutcome(old(View()), source, outcome, now))
    {
      if !ValidSource(source) { return Err(InvalidOutcome); }
      if !SourceMatches(source, Db(mode, active, candidate, previous, revision, circuit, window, versions, tests)) {
        return Err(StaleEffectiveConfig);
      }
      if circuit.Open? || outcome == Undelivered(Recipient) { return Ok(()); }
      if outcome.Delivered? {
        if window.Failures? {
          window := NoFailures;
          revision := revision + 1;
        }
        return Ok(());
      }
      if outcome.category != Transport {
        circuit := Open(outcome.category, now, now + PROBE_INTERVAL);
        window := NoFailures;
        revision := revision + 1;
        return Ok(());
      }
      var since, count := now, 0;
      if window.Failures? && window.since <= now && now - window.since <= FAILURE_WINDOW {
        since, count := window.since, window.count;
      }
      count := count + 1;
      if count >= FAILURE_LIMIT {
        circuit := Open(Transport, now, now + PROBE_INTERVAL);
      }
      window := Failures(since, count);
      revision := revision + 1;
      return Ok(());
    }

    /** On success `expected` is the revision the probe's outcome must report. */
    method Probe(source: Source, now: int) returns (r: Result<(), Error>, expected: nat)
      modifies this`circuit, this`revision
      ensures Did(old(View()), View(), r, ClaimProbe(old(View()), source, now))
      ensures r.Ok? ==> expected == revision
    {
      expected := 0;
      if !ValidSource(source) { r := Err(InvalidOutcome); return; }
      if !SourceMatches(source, Db(mode, active, candidate, previous, revision, circuit, window, versions, tests)) {
        r := Err(StaleEffectiveConfig);
        return;
      }
      if circuit.Closed? { r := Err(CircuitClosed); return; }
      if now < circuit.nextProbe { r := Err(ProbeNotDue); return; }
      circuit := circuit.(nextProbe := now + PROBE_INTERVAL);
      revision := revision + 1;
      r, expected := Ok(()), revision;
    }

    method RecordProbe(source: Source, expected: nat, success: bool, now: int) returns (r: Result<(), Error>)
      modifies this`circuit, this`window, this`revision
      ensures Did(old(View()), View(), r, RecordProbeOutcome(old(View()), source, expected, success, now))
    {
      if !ValidSource(source) { return Err(InvalidOutcome); }
      if revision != expected { return Err(StateConflict); }
      if !SourceMatches(source, Db(mode, active, candidate, previous, revision, circuit, window, versions, tests)) {
        return Err(StaleEffectiveConfig);
      }
      if circuit.Closed? { return Err(CircuitClosed); }
      if success {
        circuit, window := Closed, NoFailures;
      } else {
        circuit := circuit.(nextProbe := now + PROBE_INTERVAL);
      }
      revision := revision + 1;
      return Ok(());
    }

    method SaveCandidate(expected: nat, v: VersionId, config: Config) returns (r: Result<(), Error>)
      modifies this`candidate, this`versions, this`revision
      ensures Did(old(View()), View(), r, CreateCandidate(old(View()), expected, v, config))
    {
      if revision != expected || v in versions { return Err(StateConflict); }
      versions := versions[v := config];
      candidate := Some(v);
      revision := revision + 1;
      return Ok(());
    }

    method SaveTest(expected: nat, v: VersionId, success: bool, now: int) returns (r: Result<(), Error>)
      modifies this`tests, this`revision
      ensures Did(old(View()), View(), r, RecordTest(old(View()), expected, v, success, now))
    {
      if revision != expected { return Err(StateConflict); }
      if candidate.None? { return Err(CandidateNotFound); }
      if candidate.value != v { return Err(CandidateChanged); }
      tests := tests + [Test(v, success, now)];
      revision := revision + 1;
      return Ok(());
    }

    method ActivateVersion(expected: nat, v: VersionId, now: int) returns (r: Result<(), Error>)
      modifies this`mode, this`active, this`candidate, this`previous, this`revision, this`circuit, this`window
      ensures Did(old(View()), View(), r, Activate(old(View()), expected, v, now))
    {
      if revision != expected { return Err(StateConflict); }
      if candidate.None? { return Err(CandidateNotFound); }
      if candidate.value != v { return Err(CandidateChanged); }
      var tested := LatestSuccess(tests, v);
      if tested.None? || tested.value > now { return Err(CandidateTestRequired); }
      if tested.value < now - TEST_VALIDITY { return Err(CandidateTestExpired); }
      if mode == Active { previous := active; }
      mode, active, candidate := Active, Some(v), None;
      Settle();
      return Ok(());
    }

    method RollBack(expected: nat) returns (r: Result<(), Error>)
      modifies this`mode, this`active, this`previous, this`revision, this`circuit, this`window
      ensures Did(old(View()), View(), r, Rollback(old(View()), expected))
    {
      if revision != expected { return Err(StateConflict); }
      if previous.None? || (mode != Active && mode != Disabled) { return Err(NoPreviousVersion); }
      var next: Option<VersionId> := None;
      if mode == Active {
        if active.None? { return Err(NoPreviousVersion); }
        next := active;
      }
      mode, active, previous := Active, previous, next;
      Settle();
      return Ok(());
    }

    method DisableMail(expected: nat, registrationClosed: bool) returns (r: Result<(), Error>)
      modifies this`mode, this`active, this`previous, this`revision, this`circuit, this`window
      ensures Did(old(View()), View(), r, Disable(old(View()), expected, registrationClosed))
    {
      if !registrationClosed { return Err(RegistrationOpen); }
      if revision != expected { return Err(StateConflict); }
      if mode == Disabled { return Err(AlreadyDisabled); }
      if mode == Active { previous := active; }
      mode, active := Disabled, None;
      Settle();
      return Ok(());
    }

    /** Every change of configuration closes the circuit and clears the failure window. */
    method Settle()
      modifies this`revision, this`circuit, this`window
      ensures revision == old(revision) + 1 && circuit == Closed && window == NoFailures
    {
      revision, circuit, window := revision + 1, Closed, NoFailures;
    }
  }
}

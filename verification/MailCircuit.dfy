/** The mail circuit breaker against the history of deliveries and probes. */
module MailCircuit {
  import opened Base
  import opened MailModel

  // ---------------------------------------------------------------- reading a history

  /** A transport failure reported by the source that is effective at that moment. */
  predicate FailureEvent(db: Db, e: Event) {
    && e.EvDeliver? && e.outcome == Undelivered(Transport)
    && ValidSource(e.source) && SourceMatches(e.source, db)
  }

  /** What interrupts a row of transport failures: a delivery of the effective source that
      succeeds, a permanent failure of it, a successful probe, or a change of configuration. */
  predicate Interrupts(db: Db, e: Event) {
    && Try(db, e).Ok?
    && match e
       case EvDeliver(_, outcome, _) =>
         db.circuit.Closed? && outcome != Undelivered(Transport) && outcome != Undelivered(Recipient)
       case EvProbeOutcome(_, _, success, _) => success
       case EvActivate(_, _, _) => true
       case EvRollback(_, _) => true
       case EvDisable(_, _, _) => true
       case _ => false
  }

  // ---------------------------------------------------------------- an opening has three failures behind it

  /** Event `x` is a transport failure met by a closed circuit. */
  ghost predicate Counted(es: seq<Event>, x: nat) {
    && x < |es|
    && Before(INITIAL, es, x).circuit.Closed?
    && FailureEvent(Before(INITIAL, es, x), es[x])
  }

  /** Event `m` interrupts nothing. */
  ghost predicate Calm(es: seq<Event>, m: nat) {
    m < |es| && !Interrupts(Before(INITIAL, es, m), es[m])
  }

  /** `at` lists counted failures before `n`, the first at time `since`, all within the window
      after it, with nothing interrupting in between. */
  ghost predicate Streak(es: seq<Event>, at: seq<nat>, since: int, n: nat) {
    && n <= |es| && at != []
    && (forall x, y | 0 <= x < y < |at| :: at[x] < at[y])
    && (forall x | 0 <= x < |at| ::
          at[x] < n && Counted(es, at[x]) && since <= es[at[x]].now <= since + FAILURE_WINDOW)
    && es[at[0]].now == since
    && (forall m: nat | at[0] < m < n :: Calm(es, m))
  }

  /** The third failure of the streak, at `n - 1`, opened the circuit. */
  ghost predicate OpenedBy(es: seq<Event>, at: seq<nat>, since: int, n: nat) {
    && |at| == FAILURE_LIMIT && 0 < n <= |es| && at[FAILURE_LIMIT - 1] == n - 1
    && Streak(es, at, since, n)
    && Before(INITIAL, es, n).circuit.Open?
    && (forall m: nat | n <= m < |es| :: Calm(es, m))
  }

  ghost predicate ExplainedBy(es: seq<Event>, db: Db) {
    && (db.circuit.Closed? && db.window.Failures? ==>
          db.window.count < FAILURE_LIMIT && exists at :: |at| == db.window.count && Streak(es, at, db.window.since, |es|))
    && (db.circuit.Open? && db.circuit.category == Transport ==> exists at, since, n :: OpenedBy(es, at, since, n))
  }

  lemma {:induction false} PastStays(es: seq<Event>, e: Event, x: nat)
    requires x <= |es|
    ensures Before(INITIAL, es + [e], x) == Before(INITIAL, es, x)
    ensures Counted(es, x) ==> Counted(es + [e], x)
    ensures Calm(es, x) ==> Calm(es + [e], x)
    ensures x == |es| ==> Before(INITIAL, es + [e], x) == Run(INITIAL, es)
  {
    assert (es + [e])[..x] == es[..x];
    assert es[..|es|] == es;
  }

  lemma {:induction false} StreakGrows(es: seq<Event>, e: Event, at: seq<nat>, since: int, n: nat)
    requires Streak(es, at, since, n)
    ensures Streak(es + [e], at, since, n)
    ensures n == |es| && Calm(es + [e], |es|) ==> Streak(es + [e], at, since, n + 1)
  {
    hide Counted, Calm;
    forall x | 0 <= x < |at| ensures Counted(es + [e], at[x]) { PastStays(es, e, at[x]); }
    forall m: nat | at[0] < m < n ensures Calm(es + [e], m) { PastStays(es, e, m); }
  }

  /** A counted failure that falls into the running window joins the streak. */
  lemma {:induction false} StreakJoins(es: seq<Event>, e: Event, at: seq<nat>, since: int)
    requires Streak(es, at, since, |es|) && Counted(es + [e], |es|)
    requires since <= e.now <= since + FAILURE_WINDOW
    ensures Streak(es + [e], at + [|es|], since, |es| + 1)
  {
    FailureIsCalm(es + [e], |es|);
    hide Counted, Calm;
    StreakGrows(es, e, at, since, |es|);
    assert (es + [e])[|es|] == e;
  }

  lemma {:induction false} FailureIsCalm(es: seq<Event>, x: nat)
    requires Counted(es, x)
    ensures Calm(es, x)
  {}

  lemma {:induction false} OpenedByGrows(es: seq<Event>, e: Event, at: seq<nat>, since: int, n: nat)
    requires OpenedBy(es, at, since, n) && Calm(es + [e], |es|)
    ensures OpenedBy(es + [e], at, since, n)
  {
    hide Counted, Calm, Streak;
    StreakGrows(es, e, at, since, n);
    PastStays(es, e, n);
    forall m: nat | n <= m < |es| + 1 ensures Calm(es + [e], m) {
      if m < |es| { PastStays(es, e, m); }
    }
  }

  /** After a counted failure the streak has as many failures as the new window counts. */
  lemma {:induction false} FailureStreak(es: seq<Event>, e: Event, window: Window) returns (at: seq<nat>)
    requires Counted(es + [e], |es|)
    requires window.Failures? ==> window.count >= 1
    requires window.Failures? ==> exists before :: |before| == window.count && Streak(es, before, window.since, |es|)
    ensures |at| == Tumble(window, e.now).count && Streak(es + [e], at, Tumble(window, e.now).since, |es| + 1)
    ensures at[|at| - 1] == |es|
  {
    var w := Tumble(window, e.now);
    if w.count == 1 {
      at := [|es|];
      assert (es + [e])[|es|] == e;
    } else {
      var before: seq<nat> :| |before| == window.count && Streak(es, before, window.since, |es|);
      StreakJoins(es, e, before, window.since);
      at := before + [|es|];
    }
  }

  lemma {:induction false} FailureExplained(es: seq<Event>, e: Event, db: Db)
    requires db == Run(INITIAL, es) && ExplainedBy(es, db) && Counted(es + [e], |es|)
    requires db.circuit.Closed? && FailureEvent(db, e)
    ensures ExplainedBy(es + [e], Step(db, e))
  {
    AlwaysWindowOk(es);
    hide Streak, Counted, Calm;
    var w := Tumble(db.window, e.now);
    var at := FailureStreak(es, e, db.window);
    assert (es + [e])[..|es| + 1] == es + [e];
    RunOne(INITIAL, es, e);
    if w.count >= FAILURE_LIMIT {
      assert OpenedBy(es + [e], at, w.since, |es| + 1);
    }
  }

  lemma {:induction false} OtherExplained(es: seq<Event>, e: Event, db: Db)
    requires db == Run(INITIAL, es) && ExplainedBy(es, db)
    requires !(db.circuit.Closed? && FailureEvent(db, e))
    ensures ExplainedBy(es + [e], Step(db, e))
  {
    PastStays(es, e, |es|);
    var db' := Step(db, e);
    if Interrupts(db, e) {
      assert db'.window == NoFailures && !(db'.circuit.Open? && db'.circuit.category == Transport);
    } else {
      assert db'.window == db.window && db'.circuit.Open? == db.circuit.Open?;
      assert db.circuit.Open? ==> db'.circuit.category == db.circuit.category;
      assert Calm(es + [e], |es|);
      hide Calm, Counted, Streak;
      if db.circuit.Closed? && db.window.Failures? {
        var at :| |at| == db.window.count && Streak(es, at, db.window.since, |es|);
        StreakGrows(es, e, at, db.window.since, |es|);
      } else if db.circuit.Open? && db.circuit.category == Transport {
        var at, since, n :| OpenedBy(es, at, since, n);
        OpenedByGrows(es, e, at, since, n);
      }
    }
  }

  lemma {:induction false} AlwaysExplained(es: seq<Event>)
    ensures ExplainedBy(es, Run(INITIAL, es))
  {
    if es != [] {
      var front, e := es[..|es| - 1], es[|es| - 1];
      AlwaysExplained(front);
      assert front + [e] == es;
      if Run(INITIAL, front).circuit.Closed? && FailureEvent(Run(INITIAL, front), e) {
        FailureExplained(front, e, Run(INITIAL, front));
      } else {
        OtherExplained(front, e, Run(INITIAL, front));
      }
    }
  }

  /** Whenever the circuit is open for transport reasons, three transport failures of the
      effective source within two minutes, with no success, reset or reconfiguration between
      them, met a closed circuit, and the third opened it; nothing has interrupted since. */
  lemma {:induction false} OpenImpliesThreeFailures(es: seq<Event>) returns (i: nat, j: nat, k: nat)
    requires Run(INITIAL, es).circuit.Open? && Run(INITIAL, es).circuit.category == Transport
    ensures i < j < k < |es|
    ensures forall x | x in [i, j, k] ::
              Before(INITIAL, es, x).circuit.Closed? && FailureEvent(Before(INITIAL, es, x), es[x])
    ensures es[i].now <= es[j].now <= es[i].now + 2 * MINUTE
    ensures es[i].now <= es[k].now <= es[i].now + 2 * MINUTE
    ensures forall m: nat | i < m < k :: !Interrupts(Before(INITIAL, es, m), es[m])
    ensures Before(INITIAL, es, k + 1).circuit.Open?
    ensures forall m: nat | k < m < |es| :: !Interrupts(Before(INITIAL, es, m), es[m])
  {
    AlwaysExplained(es);
    hide Run, FailureEvent, Interrupts;
    var at, since, n :| OpenedBy(es, at, since, n);
    i, j, k := at[0], at[1], at[2];
    assert Counted(es, at[0]) && Counted(es, at[1]) && Counted(es, at[2]);
    forall m: nat | i < m < k || k < m < |es| ensures !Interrupts(Before(INITIAL, es, m), es[m]) { assert Calm(es, m); }
  }

  // ---------------------------------------------------------------- four failures always open it

  /** How many events of the segment are transport failures of the effective source. */
  function FailureCount(db: Db, es: seq<Event>): nat
    decreases |es|
  {
    if es == [] then 0
    else FailureCount(db, es[..|es| - 1]) + if FailureEvent(Run(db, es[..|es| - 1]), es[|es| - 1]) then 1 else 0
  }

  ghost predicate Uninterrupted(db: Db, es: seq<Event>) {
    forall m: nat | m < |es| :: !Interrupts(Before(db, es, m), es[m])
  }

  /** After `n` failures since time `t`, the last event at `last`: open, or still in a window from
      before `t` with two failures in it, or in a window that holds all of them but the first. */
  ghost predicate Progress(db: Db, t: int, n: nat, last: int) {
    || n == 0
    || db.circuit.Open?
    || (&& db.window.Failures? && db.window.since <= last
        && (|| (db.window.since < t && db.window.count >= 2 && n == 1)
            || (db.window.since >= t && db.window.count >= n - 1)))
  }

  predicate WindowOk(db: Db) {
    db.window.Failures? ==> db.window.count >= 1
  }

  lemma ProgressStep(db: Db, e: Event, t: int, n: nat, last: int)
    requires Progress(db, t, n, last) && !Interrupts(db, e) && t <= e.now <= t + FAILURE_WINDOW && last <= e.now
    requires WindowOk(db)
    ensures Progress(Step(db, e), t, n + if FailureEvent(db, e) then 1 else 0, e.now)
    ensures WindowOk(Step(db, e))
  {}

  lemma {:induction false} ProgressRun(db: Db, es: seq<Event>, t: int)
    requires WindowOk(db) && Uninterrupted(db, es) && Monotone(es)
    requires forall m | 0 <= m < |es| :: t <= es[m].now <= t + FAILURE_WINDOW
    ensures Progress(Run(db, es), t, FailureCount(db, es), if es == [] then t else es[|es| - 1].now)
    ensures WindowOk(Run(db, es))
  {
    if es != [] {
      var front, e := es[..|es| - 1], es[|es| - 1];
      forall m: nat | m < |front| ensures !Interrupts(Before(db, front, m), front[m]) {
        BeforeFront(db, es, m);
        assert !Interrupts(Before(db, es, m), es[m]);
      }
      ProgressRun(db, front, t);
      assert !Interrupts(Before(db, es, |front|), e);
      ProgressStep(Run(db, front), e, t, FailureCount(db, front), if front == [] then t else front[|front| - 1].now);
    }
  }

  /** Four transport failures of the effective source within two minutes, uninterrupted, leave the
      circuit open, from every reachable state. */
  lemma {:induction false} FourFailuresOpen(past: seq<Event>, es: seq<Event>)
    requires Uninterrupted(Run(INITIAL, past), es) && Monotone(es)
    requires es != [] && es[|es| - 1].now - es[0].now <= 2 * MINUTE
    requires FailureCount(Run(INITIAL, past), es) >= 4
    ensures Run(Run(INITIAL, past), es).circuit.Open?
  {
    AlwaysExplained(past);
    AlwaysWindowOk(past);
    var db := Run(INITIAL, past);
    ProgressRun(db, es, es[0].now);
    ClosedBelowLimit(db, es);
  }

  lemma {:induction false} AlwaysWindowOk(es: seq<Event>)
    ensures WindowOk(Run(INITIAL, es))
  {
    if es != [] { AlwaysWindowOk(es[..|es| - 1]); }
  }

  /** A closed circuit never holds three failures. */
  lemma {:induction false} ClosedBelowLimit(db: Db, es: seq<Event>)
    requires db.circuit.Closed? && db.window.Failures? ==> db.window.count < FAILURE_LIMIT
    ensures Run(db, es).circuit.Closed? && Run(db, es).window.Failures? ==> Run(db, es).window.count < FAILURE_LIMIT
  {
    if es != [] { ClosedBelowLimit(db, es[..|es| - 1]); }
  }

  /** Four is tight: three uninterrupted failures within two minutes can leave the circuit closed,
      because the window tumbles instead of sliding. */
  lemma ThreeFailuresMayStayClosed() returns (past: seq<Event>, es: seq<Event>)
    ensures Uninterrupted(Run(INITIAL, past), es) && Monotone(past + es)
    ensures |es| == 3 && FailureCount(Run(INITIAL, past), es) == 3
    ensures es[2].now - es[0].now <= FAILURE_WINDOW
    ensures Run(Run(INITIAL, past), es).circuit.Closed?
  {
    var env := Source(Fallback, None);
    past := [EvDeliver(env, Undelivered(Transport), 0)];
    var e0 := EvDeliver(env, Undelivered(Transport), FAILURE_WINDOW);
    var e1 := EvDeliver(env, Undelivered(Transport), FAILURE_WINDOW + 1);
    var e2 := EvDeliver(env, Undelivered(Transport), FAILURE_WINDOW + 2);
    es := [e0, e1, e2];
    var db := INITIAL.(window := Failures(0, 1), revision := 1);
    assert past[..0] == [] && Run(INITIAL, past) == db;
    var db1 := INITIAL.(window := Failures(0, 2), revision := 2);
    var db2 := INITIAL.(window := Failures(FAILURE_WINDOW + 1, 1), revision := 3);
    var db3 := INITIAL.(window := Failures(FAILURE_WINDOW + 1, 2), revision := 4);
    assert es[..0] == [] && [e0][..0] == [] && [e0, e1][..1] == [e0] && es[..1] == [e0] && es[..2] == [e0, e1] && es[..3] == es;
    assert Run(db, [e0]) == db1;
    assert Run(db, [e0, e1]) == db2;
    assert Run(db, es) == db3;
    assert FailureCount(db, [e0]) == 1;
    assert FailureCount(db, [e0, e1]) == 2;
  }
}

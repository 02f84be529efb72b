/** Exactly-once audit delivery: over every interleaving of dispatchers, expired leases, retries,
    cleanups, retention and uncertain commits, an event yields at most one audit row ever, no event
    is dropped, and the login aggregate is the per-day count of the rows written, less what the
    statistics refresh pruned. */
module AuditProofs {
  import opened Base
  import opened AuditModel

  /** The event's row has been written, whether or not retention has removed it since. */
  predicate Logged(s: Sys, id: Id) {
    id in s.used && (id, s.used[id].createdAt) in s.written
  }

  predicate Undelivered(s: Sys, id: Id) {
    id in s.db.outbox && !s.db.outbox[id].status.Processed?
  }

  /** What a dispatcher remembers and what the outbox holds is what was enqueued. */
  ghost predicate BodiesKept(s: Sys) {
    && (forall id :: id in s.db.outbox ==> id in s.used && s.db.outbox[id].body == s.used[id])
    && (forall w, id :: Holds(s, w, id) ==> id in s.used && s.held[w][id] == s.used[id])
  }

  predicate LogOk(s: Sys, k: (Id, int)) {
    k.0 in s.used && k.1 == s.used[k.0].createdAt && k in s.written && LogOf(k.0, s.used[k.0]) == Some(s.written[k])
  }

  /** A row is where an enqueued event puts it, and an event is in exactly one of two places. */
  predicate OnePlace(s: Sys) {
    && (forall k :: k in s.written ==> LogOk(s, k))
    && (forall id :: id in s.used ==> (Undelivered(s, id) <==> !Logged(s, id)))
  }

  predicate OkOn(e: Entry, day: int) {
    LoggedIn(e) && Day(e.createdAt) == day
  }

  predicate RefusedOn(e: Entry, day: int) {
    LoginRefused(e) && Day(e.createdAt) == day
  }

  function OkRows(logs: map<(Id, int), Entry>, day: int): set<(Id, int)> {
    set k | k in logs && OkOn(logs[k], day)
  }

  function RefusedRows(logs: map<(Id, int), Entry>, day: int): set<(Id, int)> {
    set k | k in logs && RefusedOn(logs[k], day)
  }

  /** The logins and refusals of a day among all rows ever written. */
  function Fold(written: map<(Id, int), Entry>, day: int): Logins {
    Logins(|OkRows(written, day)|, |RefusedRows(written, day)|)
  }

  predicate DayOk(s: Sys, day: int) {
    Plus(On(s.db.stats, day), On(s.pruned, day)) == Fold(s.written, day)
  }

  ghost predicate StatsOk(s: Sys) {
    forall day :: DayOk(s, day)
  }

  /** The table holds the rows written, except that those before the cutoff may be gone. */
  predicate TableOk(s: Sys, k: (Id, int)) {
    && (k in s.db.logs ==> k in s.written && s.db.logs[k] == s.written[k])
    && (k in s.written && k !in s.db.logs ==> s.cutoff.Some? && k.1 < s.cutoff.value)
  }

  ghost predicate LogsOk(s: Sys) {
    forall k :: TableOk(s, k)
  }

  ghost predicate Inv(s: Sys) {
    BodiesKept(s) && OnePlace(s) && StatsOk(s) && LogsOk(s)
  }

  // ---------------------------------------------------------------- the delivery step

  lemma OkRowsGrow(logs: map<(Id, int), Entry>, k: (Id, int), e: Entry, day: int)
    requires k !in logs
    ensures |OkRows(logs[k := e], day)| == |OkRows(logs, day)| + if OkOn(e, day) then 1 else 0
  {
    hide OkOn;
    assert OkRows(logs[k := e], day) == OkRows(logs, day) + if OkOn(e, day) then {k} else {};
  }

  lemma RefusedRowsGrow(logs: map<(Id, int), Entry>, k: (Id, int), e: Entry, day: int)
    requires k !in logs
    ensures |RefusedRows(logs[k := e], day)| == |RefusedRows(logs, day)| + if RefusedOn(e, day) then 1 else 0
  {
    hide RefusedOn;
    assert RefusedRows(logs[k := e], day) == RefusedRows(logs, day) + if RefusedOn(e, day) then {k} else {};
  }

  lemma NotBoth(e: Entry)
    ensures !(LoggedIn(e) && LoginRefused(e))
  {
    assert |LOGIN| != |LOGIN_FAILED|;
  }

  /** What counting an entry does to any day. */
  lemma CountOn(stats: map<int, Logins>, e: Entry, day: int)
    ensures On(Count(stats, e), day) ==
      Logins(On(stats, day).successful + if OkOn(e, day) then 1 else 0, On(stats, day).failed + if RefusedOn(e, day) then 1 else 0)
  {
    NotBoth(e);
    hide Day, LoggedIn, LoginRefused;
  }

  lemma CountDay(stats: map<int, Logins>, pruned: map<int, Logins>, written: map<(Id, int), Entry>, e: Entry, day: int)
    requires Plus(On(stats, day), On(pruned, day)) == Fold(written, day) && (e.id, e.createdAt) !in written
    ensures Plus(On(Count(stats, e), day), On(pruned, day)) == Fold(written[(e.id, e.createdAt) := e], day)
  {
    hide OkRows, RefusedRows, On, Count, OkOn, RefusedOn;
    CountOn(stats, e, day);
    OkRowsGrow(written, (e.id, e.createdAt), e, day);
    RefusedRowsGrow(written, (e.id, e.createdAt), e, day);
  }

  lemma LogKeepsIdentity(id: Id, body: Body)
    requires LogOf(id, body).Some?
    ensures LogOf(id, body).value.id == id && LogOf(id, body).value.createdAt == body.createdAt
  {}

  /** A delivery that happens. */
  predicate Delivers(s: Sys, worker: Worker, id: Id) {
    && Holds(s, worker, id) && LogOf(id, s.held[worker][id]).Some? && Leased(s.db, id, worker)
    && Accepts(s.db.ranges, s.held[worker][id].createdAt)
  }

  /** A delivery writes a row that was never written before. */
  lemma DeliverWrites(s: Sys, worker: Worker, id: Id, now: int)
    requires Inv(s) && Delivers(s, worker, id)
    ensures var e := LogOf(id, s.held[worker][id]).value;
      var t := StepDeliver(s, worker, id, now, Committed);
      && e.id == id && id in s.used && e.createdAt == s.used[id].createdAt && LogOf(id, s.used[id]) == Some(e)
      && (id, e.createdAt) !in s.written && (id, e.createdAt) !in s.db.logs
      && t == s.(db := t.db, written := s.written[(id, e.createdAt) := e])
      && t.db == s.db.(outbox := s.db.outbox[id := s.db.outbox[id].(status := Processed(now))],
                       logs := s.db.logs[(id, e.createdAt) := e], stats := Count(s.db.stats, e))
  {
    LogKeepsIdentity(id, s.held[worker][id]);
    assert s.held[worker][id] == s.used[id];
    assert Undelivered(s, id) && !Logged(s, id);
    assert TableOk(s, (id, s.used[id].createdAt));
    hide LogOf, Count, Inv, Accepts;
  }

  lemma DeliverBodies(s: Sys, t: Sys, id: Id, row: Row)
    requires BodiesKept(s) && id in s.db.outbox && row.body == s.db.outbox[id].body
    requires t.held == s.held && t.used == s.used && t.db.outbox == s.db.outbox[id := row]
    ensures BodiesKept(t)
  {
    assert forall w, i :: Holds(t, w, i) ==> Holds(s, w, i);
  }

  lemma DeliverPlaces(s: Sys, t: Sys, id: Id, row: Row, e: Entry)
    requires OnePlace(s) && id in s.db.outbox && row.status.Processed?
    requires id in s.used && e.createdAt == s.used[id].createdAt && LogOf(id, s.used[id]) == Some(e)
    requires t.used == s.used && t.db.outbox == s.db.outbox[id := row] && t.written == s.written[(id, e.createdAt) := e]
    ensures OnePlace(t)
  {
    hide LogOf;
    forall k | k in t.written ensures LogOk(t, k) {
      if k != (id, e.createdAt) { assert LogOk(s, k); }
    }
    forall i | i in t.used ensures Undelivered(t, i) <==> !Logged(t, i) {
      assert Undelivered(s, i) <==> !Logged(s, i);
    }
  }

  lemma DeliverCounts(s: Sys, t: Sys, e: Entry)
    requires StatsOk(s) && (e.id, e.createdAt) !in s.written
    requires t.written == s.written[(e.id, e.createdAt) := e] && t.db.stats == Count(s.db.stats, e) && t.pruned == s.pruned
    ensures StatsOk(t)
  {
    hide Count, Fold, On, Plus;
    forall day ensures DayOk(t, day) {
      assert DayOk(s, day);
      CountDay(s.db.stats, s.pruned, s.written, e, day);
    }
  }

  lemma DeliverTable(s: Sys, t: Sys, key: (Id, int), e: Entry)
    requires LogsOk(s) && t.written == s.written[key := e] && t.db.logs == s.db.logs[key := e] && t.cutoff == s.cutoff
    ensures LogsOk(t)
  {
    forall k ensures TableOk(t, k) { assert TableOk(s, k); }
  }

  lemma DeliverKeeps(s: Sys, worker: Worker, id: Id, now: int, fate: Fate)
    requires Inv(s)
    ensures Inv(StepDeliver(s, worker, id, now, fate))
  {
    if !fate.Aborted? && Delivers(s, worker, id) {
      assert StepDeliver(s, worker, id, now, fate) == StepDeliver(s, worker, id, now, Committed);
      DeliverWrites(s, worker, id, now);
      hide StepDeliver, LogOf, Count, BodiesKept, OnePlace, StatsOk, LogsOk, Accepts;
      var e := LogOf(id, s.held[worker][id]).value;
      var t := StepDeliver(s, worker, id, now, Committed);
      var row := s.db.outbox[id].(status := Processed(now));
      DeliverBodies(s, t, id, row);
      DeliverPlaces(s, t, id, row, e);
      DeliverCounts(s, t, e);
      DeliverTable(s, t, (id, e.createdAt), e);
    } else {
      NoDelivery(s, worker, id, now, fate);
    }
  }

  lemma NoDelivery(s: Sys, worker: Worker, id: Id, now: int, fate: Fate)
    requires fate.Aborted? || !Delivers(s, worker, id)
    ensures StepDeliver(s, worker, id, now, fate) == s
  {
    if Holds(s, worker, id) && LogOf(id, s.held[worker][id]).Some? { LogKeepsIdentity(id, s.held[worker][id]); }
    hide LogOf, Accepts;
  }

  // ---------------------------------------------------------------- retention and pruning

  lemma SameBodies(s: Sys, t: Sys)
    requires BodiesKept(s) && t.held == s.held && t.used == s.used && t.db.outbox == s.db.outbox
    ensures BodiesKept(t)
  {
    assert forall w, i :: Holds(t, w, i) ==> Holds(s, w, i);
  }

  lemma SamePlaces(s: Sys, t: Sys)
    requires OnePlace(s) && t.used == s.used && t.written == s.written && t.db.outbox == s.db.outbox
    ensures OnePlace(t)
  {
    hide LogOf;
    forall k | k in t.written ensures LogOk(t, k) { assert LogOk(s, k); }
    forall i | i in t.used ensures Undelivered(t, i) <==> !Logged(t, i) { assert Undelivered(s, i) <==> !Logged(s, i); }
  }

  lemma SameStats(s: Sys, t: Sys)
    requires StatsOk(s) && t.written == s.written && t.db.stats == s.db.stats && t.pruned == s.pruned
    ensures StatsOk(t)
  {
    hide Fold, On, Plus;
    forall day ensures DayOk(t, day) { assert DayOk(s, day); }
  }

  lemma SameTable(s: Sys, t: Sys)
    requires LogsOk(s) && t.written == s.written && t.db.logs == s.db.logs && t.cutoff == s.cutoff
    ensures LogsOk(t)
  {
    forall k ensures TableOk(t, k) { assert TableOk(s, k); }
  }

  lemma RetainTable(s: Sys, cutoff: int, dropped: set<Range>)
    requires LogsOk(s)
    ensures LogsOk(StepRetain(s, cutoff, dropped))
  {
    forall k ensures TableOk(StepRetain(s, cutoff, dropped), k) { assert TableOk(s, k); }
  }

  lemma RetainKeeps(s: Sys, cutoff: int, dropped: set<Range>)
    requires Inv(s)
    ensures Inv(StepRetain(s, cutoff, dropped))
  {
    RetainTable(s, cutoff, dropped);
    hide BodiesKept, OnePlace, StatsOk, LogsOk;
    SameBodies(s, StepRetain(s, cutoff, dropped));
    SamePlaces(s, StepRetain(s, cutoff, dropped));
    SameStats(s, StepRetain(s, cutoff, dropped));
  }

  /** A prune moves a day's counters, or leaves them. */
  lemma PruneDay(s: Sys, now: int, day: int)
    ensures On(StepPrune(s, now).db.stats, day) == if day < HistoryStart(now) then Logins(0, 0) else On(s.db.stats, day)
    ensures On(StepPrune(s, now).pruned, day) == if day < HistoryStart(now) then Plus(On(s.db.stats, day), On(s.pruned, day)) else On(s.pruned, day)
  {
    hide HistoryStart;
  }

  lemma DayFact(s: Sys, day: int)
    requires StatsOk(s)
    ensures DayOk(s, day)
  {}

  lemma PruneDayOk(s: Sys, now: int, day: int)
    requires DayOk(s, day)
    ensures DayOk(StepPrune(s, now), day)
  {
    PruneDay(s, now, day);
    assert StepPrune(s, now).written == s.written by { hide Prune, AddPruned; }
    hide Fold, On, HistoryStart, StepPrune;
  }

  lemma PruneStats(s: Sys, now: int)
    requires StatsOk(s)
    ensures StatsOk(StepPrune(s, now))
  {
    hide DayOk, StepPrune;
    forall day ensures DayOk(StepPrune(s, now), day) {
      DayFact(s, day);
      PruneDayOk(s, now, day);
    }
  }

  lemma PruneKeeps(s: Sys, now: int)
    requires Inv(s)
    ensures Inv(StepPrune(s, now))
  {
    PruneStats(s, now);
    hide BodiesKept, OnePlace, StatsOk, LogsOk, Prune, AddPruned;
    SameBodies(s, StepPrune(s, now));
    SamePlaces(s, StepPrune(s, now));
    SameTable(s, StepPrune(s, now));
  }

  // ---------------------------------------------------------------- the other steps

  /** The steps of the outbox that deliver nothing. */
  predicate Routine(e: Event) {
    !e.EvDeliver? && !e.EvRetain? && !e.EvPrune?
  }

  /** A step that leaves the logs and the counters, and moves no event between the two places. */
  ghost predicate Quiet(s: Sys, t: Sys) {
    && t.db.logs == s.db.logs && t.db.stats == s.db.stats && t.written == s.written && t.cutoff == s.cutoff && t.pruned == s.pruned
    && BodiesKept(t)
    && (forall id :: id in s.used ==> id in t.used && t.used[id] == s.used[id] && (Undelivered(t, id) <==> Undelivered(s, id)))
    && (forall id :: id in t.used && id !in s.used ==> Undelivered(t, id))
  }

  lemma ClaimBodies(s: Sys, worker: Worker, ids: set<Id>, now: int, lease: int, fate: Fate)
    requires BodiesKept(s)
    ensures BodiesKept(StepClaim(s, worker, ids, now, lease, fate))
  {
    hide Eligible;
    var t := StepClaim(s, worker, ids, now, lease, fate);
    forall w, id | Holds(t, w, id) ensures id in t.used && t.held[w][id] == t.used[id] {
      if Holds(s, w, id) && s.held[w][id] == t.held[w][id] {} else { assert id in s.db.outbox; }
    }
  }

  lemma ClaimQuiet(s: Sys, worker: Worker, ids: set<Id>, now: int, lease: int, fate: Fate)
    requires BodiesKept(s)
    ensures Quiet(s, StepClaim(s, worker, ids, now, lease, fate))
  {
    ClaimBodies(s, worker, ids, now, lease, fate);
    hide BodiesKept;
    forall id | id in ids && id in s.db.outbox && Eligible(s.db.outbox[id], now, lease) ensures Undelivered(s, id) {}
  }

  lemma CleanupQuiet(s: Sys, ids: set<Id>, before: int)
    requires BodiesKept(s)
    ensures Quiet(s, Step(s, EvCleanup(ids, before)))
  {
    var t := Step(s, EvCleanup(ids, before));
    forall w, id | Holds(t, w, id) ensures id in t.used && t.held[w][id] == t.used[id] {
      assert Holds(s, w, id);
    }
  }

  lemma FailQuiet(s: Sys, worker: Worker, id: Id, retryAt: int, fate: Fate)
    requires BodiesKept(s)
    ensures Quiet(s, StepFail(s, worker, id, retryAt, fate))
  {
    var t := StepFail(s, worker, id, retryAt, fate);
    forall w, i | Holds(t, w, i) ensures i in t.used && t.held[w][i] == t.used[i] {
      assert Holds(s, w, i);
    }
  }

  lemma EnqueueQuiet(s: Sys, id: Id, body: Body, availableAt: int)
    requires BodiesKept(s)
    ensures Quiet(s, Step(s, EvEnqueue(id, body, availableAt)))
  {
    var t := Step(s, EvEnqueue(id, body, availableAt));
    forall w, i | Holds(t, w, i) ensures i in t.used && t.held[w][i] == t.used[i] {
      assert Holds(s, w, i);
    }
  }

  lemma OtherStep(s: Sys, e: Event)
    requires BodiesKept(s) && Routine(e)
    ensures Quiet(s, Step(s, e))
  {
    hide Quiet, BodiesKept, StepClaim, StepFail;
    match e
    case EvEnqueue(id, body, availableAt) => EnqueueQuiet(s, id, body, availableAt);
    case EvClaim(worker, ids, now, lease, fate) => ClaimQuiet(s, worker, ids, now, lease, fate);
    case EvFail(worker, id, retryAt, fate) => FailQuiet(s, worker, id, retryAt, fate);
    case EvCleanup(ids, before) => CleanupQuiet(s, ids, before);
    case EvPartition(ranges) => PartitionQuiet(s, ranges);
  }

  lemma PartitionQuiet(s: Sys, ranges: set<Range>)
    requires BodiesKept(s)
    ensures Quiet(s, Step(s, EvPartition(ranges)))
  {
    var t := Step(s, EvPartition(ranges));
    assert forall w, i :: Holds(t, w, i) ==> Holds(s, w, i);
  }

  lemma QuietPlaces(s: Sys, t: Sys)
    requires OnePlace(s) && Quiet(s, t)
    ensures OnePlace(t)
  {
    hide LogOf, BodiesKept;
    forall k | k in t.written ensures LogOk(t, k) { assert LogOk(s, k); }
    assert forall k :: k in s.written ==> k.0 in s.used;
    forall id | id in t.used ensures Undelivered(t, id) <==> !Logged(t, id) {
      assert id !in s.used ==> (id, t.used[id].createdAt) !in s.written;
    }
  }

  lemma QuietKeeps(s: Sys, t: Sys)
    requires Inv(s) && Quiet(s, t)
    ensures Inv(t)
  {
    QuietPlaces(s, t);
    hide BodiesKept, OnePlace, StatsOk, LogsOk;
    SameStats(s, t);
    SameTable(s, t);
  }

  lemma StepKeeps(s: Sys, e: Event)
    requires Inv(s)
    ensures Inv(Step(s, e))
  {
    match e
    case EvDeliver(worker, id, now, fate) => DeliverKeeps(s, worker, id, now, fate);
    case EvRetain(cutoff, dropped) => RetainKeeps(s, cutoff, dropped);
    case EvPrune(now) => PruneKeeps(s, now);
    case _ =>
      OtherStep(s, e);
      QuietKeeps(s, Step(s, e));
  }

  lemma {:induction false} Always(es: seq<Event>)
    ensures Inv(Run(es))
    decreases |es|
  {
    hide Inv, Step;
    if es == [] {
      StartInv();
    } else {
      Always(es[..|es| - 1]);
      StepKeeps(Run(es[..|es| - 1]), es[|es| - 1]);
    }
  }

  lemma NothingWritten(day: int)
    ensures Fold(map[], day) == Logins(0, 0)
  {
    hide OkOn, RefusedOn;
    assert OkRows(map[], day) == {} && RefusedRows(map[], day) == {};
  }

  lemma StartDay(day: int)
    ensures DayOk(START, day)
  {
    NothingWritten(day);
    hide Fold;
    EmptyDay(START, day);
  }

  lemma NothingPlus()
    ensures Plus(Logins(0, 0), Logins(0, 0)) == Logins(0, 0)
  {}

  lemma EmptyOn(stats: map<int, Logins>, day: int)
    requires stats == map[]
    ensures On(stats, day) == Logins(0, 0)
  {}

  lemma EmptyDay(s: Sys, day: int)
    requires s.db.stats == map[] && s.pruned == map[] && s.written == map[] && Fold(map[], day) == Logins(0, 0)
    ensures DayOk(s, day)
  {
    hide Fold, Plus;
    EmptyOn(s.db.stats, day);
    EmptyOn(s.pruned, day);
    NothingPlus();
  }

  lemma StartInv()
    ensures Inv(START)
  {
    hide DayOk;
    forall day ensures DayOk(START, day) { StartDay(day); }
  }

  // ---------------------------------------------------------------- main results

  /** A payload value as a row shows it: the text, or the fallback where there is none. */
  predicate Shows(f: Field, fallback: string, shown: string) {
    f == Text(shown) || (f == Missing && shown == fallback)
  }

  /** The row says what was enqueued, field by field. */
  predicate RowSays(id: Id, body: Body, row: Entry) {
    && row.id == id && row.event == body.event && row.createdAt == body.createdAt
    && Shows(body.result, "success", row.result) && Shows(body.risk, "low", row.risk)
  }

  /** The payloads that make a row. */
  predicate WellFormed(body: Body) {
    && body.event != "" && body.rest
    && body.result in {Missing, Text("success"), Text("failure")}
    && body.risk in {Missing, Text("low"), Text("medium"), Text("high"), Text("critical")}
  }

  lemma LogSays(id: Id, body: Body)
    ensures LogOf(id, body).Some? <==> WellFormed(body)
    ensures LogOf(id, body).Some? ==> RowSays(id, body, LogOf(id, body).value)
  {}

  /** At most one audit row per event is ever written; it stands under the event's own time, the
      event is well formed, and the row says what was enqueued. */
  lemma {:induction false} AtMostOneRow(es: seq<Event>, j: (Id, int), k: (Id, int))
    requires j in Run(es).written && k in Run(es).written && j.0 == k.0
    ensures j == k && k.0 in Run(es).used && k.1 == Run(es).used[k.0].createdAt
    ensures WellFormed(Run(es).used[k.0]) && RowSays(k.0, Run(es).used[k.0], Run(es).written[k])
  {
    Always(es);
    assert LogOk(Run(es), j) && LogOk(Run(es), k);
    hide LogOf;
    LogSays(k.0, Run(es).used[k.0]);
  }

  /** Event `i` is the first to enqueue the identifier. */
  predicate EnqueuedBy(es: seq<Event>, i: nat, id: Id) {
    i < |es| && es[i].EvEnqueue? && es[i].id == id && forall j | 0 <= j < i :: !(es[j].EvEnqueue? && es[j].id == id)
  }

  lemma UsedStep(s: Sys, e: Event, id: Id)
    ensures Step(s, e).used == if e.EvEnqueue? && e.id !in s.used then s.used[e.id := e.body] else s.used
  {
    hide Deliver, LogOf, Enqueue, Retain, ClaimRows;
  }

  /** What counts as enqueued is the body of the first event that enqueued the identifier. */
  lemma {:induction false} UsedExactly(es: seq<Event>, id: Id)
    ensures id in Run(es).used <==> exists i: nat :: EnqueuedBy(es, i, id)
    ensures forall i: nat | EnqueuedBy(es, i, id) :: id in Run(es).used && Run(es).used[id] == es[i].body
  {
    if es != [] {
      var front, e := es[..|es| - 1], es[|es| - 1];
      UsedExactly(front, id);
      UsedStep(Run(front), e, id);
      hide Step;
      if i: nat :| EnqueuedBy(front, i, id) {
        assert EnqueuedBy(es, i, id);
      } else if e.EvEnqueue? && e.id == id {
        forall j | 0 <= j < |front| ensures !(es[j].EvEnqueue? && es[j].id == id) { NotFirst(front, id, j); }
        assert EnqueuedBy(es, |front|, id);
      }
      forall i: nat | EnqueuedBy(es, i, id) && i < |front| ensures EnqueuedBy(front, i, id) {}
    }
  }

  /** If some event enqueues the identifier, one is the first. */
  lemma {:induction false} NotFirst(es: seq<Event>, id: Id, j: nat)
    requires j < |es| && forall i: nat :: !EnqueuedBy(es, i, id)
    ensures !(es[j].EvEnqueue? && es[j].id == id)
    decreases j
  {
    forall i: nat | i < j ensures !(es[i].EvEnqueue? && es[i].id == id) { NotFirst(es, id, i); }
    assert !EnqueuedBy(es, j, id);
  }

  /** The table holds the rows written: one is missing only if retention has passed its time. */
  lemma {:induction false} TableHoldsRows(es: seq<Event>, k: (Id, int))
    ensures k in Run(es).db.logs ==> k in Run(es).written && Run(es).db.logs[k] == Run(es).written[k]
    ensures k in Run(es).written && k !in Run(es).db.logs ==> Run(es).cutoff.Some? && k.1 < Run(es).cutoff.value
  {
    Always(es);
    assert TableOk(Run(es), k);
  }

  /** An enqueued event is waiting in the outbox or its row has been written, never both and never
      neither; a processed event has had its row; what was cleaned up had been delivered. */
  lemma {:induction false} DeliveredOrWaiting(es: seq<Event>, id: Id)
    requires id in Run(es).used
    ensures Undelivered(Run(es), id) <==> !Logged(Run(es), id)
    ensures id in Run(es).db.outbox && Run(es).db.outbox[id].status.Processed? ==> Logged(Run(es), id)
    ensures id !in Run(es).db.outbox ==> Logged(Run(es), id)
  {
    Always(es);
  }

  function Waiting(s: Sys): set<Id> {
    set id | id in s.db.outbox && Undelivered(s, id)
  }

  lemma KeysCount(keys: set<(Id, int)>, ids: set<Id>)
    requires forall k :: k in keys ==> k.0 in ids
    requires forall j, k :: j in keys && k in keys && j.0 == k.0 ==> j == k
    requires forall id :: id in ids ==> exists t :: (id, t) in keys
    ensures |keys| == |ids|
  {
    if ids == {} {
      assert keys == {};
    } else {
      var id :| id in ids;
      var t :| (id, t) in keys;
      forall i | i in ids - {id} ensures exists u :: (i, u) in keys - {(id, t)} {
        var u :| (i, u) in keys;
        assert (i, u) in keys - {(id, t)};
      }
      KeysCount(keys - {(id, t)}, ids - {id});
    }
  }

  function Delivered(s: Sys): set<Id> {
    set id | id in s.used && Logged(s, id)
  }

  lemma DeliveredCount(s: Sys)
    requires OnePlace(s)
    ensures |s.written| == |Delivered(s)|
  {
    var keys := s.written.Keys;
    forall k | k in keys ensures k.0 in Delivered(s) { assert LogOk(s, k); }
    forall j, k | j in keys && k in keys && j.0 == k.0 ensures j == k {
      assert LogOk(s, j) && LogOk(s, k);
    }
    forall id | id in Delivered(s) ensures exists t :: (id, t) in keys {
      assert (id, s.used[id].createdAt) in keys;
    }
    KeysCount(keys, Delivered(s));
  }

  lemma UsedSplit(s: Sys)
    requires BodiesKept(s) && OnePlace(s)
    ensures |s.used| == |Waiting(s)| + |Delivered(s)|
  {
    hide LogOk;
    assert s.used.Keys == Waiting(s) + Delivered(s);
    assert Waiting(s) !! Delivered(s);
  }

  /** Conservation: events enqueued = events waiting + rows written. */
  lemma {:induction false} Conservation(es: seq<Event>)
    ensures |Run(es).used| == |Waiting(Run(es))| + |Run(es).written|
  {
    Always(es);
    DeliveredCount(Run(es));
    UsedSplit(Run(es));
  }

  /** What a step may do to a row: write it once, and delete it for good. */
  predicate RowLater(s: Sys, t: Sys, k: (Id, int)) {
    && (k in s.written ==> k in t.written && t.written[k] == s.written[k])
    && (k in s.written && k !in s.db.logs ==> k !in t.db.logs)
  }

  lemma StepRow(s: Sys, e: Event, k: (Id, int))
    requires Inv(s)
    ensures RowLater(s, Step(s, e), k)
  {
    hide LogOf, Fold;
    match e
    case EvDeliver(worker, id, now, fate) =>
      if !fate.Aborted? && Delivers(s, worker, id) { DeliverWrites(s, worker, id, now); } else { NoDelivery(s, worker, id, now, fate); }
    case EvRetain(_, _) =>
    case EvPrune(_) =>
    case _ => OtherStep(s, e);
  }

  /** Retention deletes exactly the rows before its cutoff, unless a partition that it is to drop
      reaches beyond it. */
  lemma {:induction false} RetentionTakes(es: seq<Event>, cutoff: int, dropped: set<Range>, k: (Id, int))
    requires forall r | r in dropped :: r.1 <= cutoff
    ensures var logs, logs' := Run(es).db.logs, Run(es + [EvRetain(cutoff, dropped)]).db.logs;
      (k in logs' <==> k in logs && cutoff <= k.1) && (k in logs' ==> logs'[k] == logs[k])
  {
    assert (es + [EvRetain(cutoff, dropped)])[..|es|] == es;
  }

  /** A row, once written, is never changed; and once retention has deleted it, it never comes back. */
  lemma {:induction false} RowsNeverChange(es: seq<Event>, n: nat, k: (Id, int))
    requires n <= |es|
    ensures RowLater(Run(es[..n]), Run(es), k)
    decreases |es|
  {
    hide Step, Inv;
    if n == |es| {
      assert es[..n] == es;
    } else {
      var front := es[..|es| - 1];
      assert front[..n] == es[..n];
      RowsNeverChange(front, n, k);
      Always(front);
      StepRow(Run(front), es[|es| - 1], k);
    }
  }

  // ---------------------------------------------------------------- the login statistics

  /** The daily counters and what was pruned of them are the per-day counts of the rows written. */
  lemma {:induction false} StatsAreTheFold(es: seq<Event>, day: int)
    ensures Plus(On(Run(es).db.stats, day), On(Run(es).pruned, day)) == Fold(Run(es).written, day)
  {
    Always(es);
    assert DayOk(Run(es), day);
  }

  /** The events of a day whose row was written and that tell of a login: a user.login whose result
      is success, by default too. */
  ghost function LoginsOn(s: Sys, day: int): set<Id> {
    set id | id in s.used && Logged(s, id) && s.used[id].createdAt / DAY == day
             && s.used[id].event == "user.login" && s.used[id].result in {Missing, Text("success")}
  }

  /** And of a refused one: a user.login_failed whose result is failure, by name. */
  ghost function RefusalsOn(s: Sys, day: int): set<Id> {
    set id | id in s.used && Logged(s, id) && s.used[id].createdAt / DAY == day
             && s.used[id].event == "user.login_failed" && s.used[id].result == Text("failure")
  }

  lemma RowOfBody(s: Sys, k: (Id, int), day: int)
    requires LogOk(s, k)
    ensures k.0 in s.used && Logged(s, k.0)
    ensures OkOn(s.written[k], day) <==> k.0 in LoginsOn(s, day)
    ensures RefusedOn(s.written[k], day) <==> k.0 in RefusalsOn(s, day)
  {
    LogSays(k.0, s.used[k.0]);
    hide LogOf;
  }

  lemma LoginRows(s: Sys, day: int)
    requires OnePlace(s)
    ensures |OkRows(s.written, day)| == |LoginsOn(s, day)| && |RefusedRows(s.written, day)| == |RefusalsOn(s, day)|
  {
    hide LogOk, OkOn, RefusedOn;
    forall k | k in s.written
      ensures k.0 in s.used && k.1 == s.used[k.0].createdAt
      ensures (OkOn(s.written[k], day) <==> k.0 in LoginsOn(s, day)) && (RefusedOn(s.written[k], day) <==> k.0 in RefusalsOn(s, day))
    {
      RowOfBody(s, k, day);
      assert LogOk(s, k);
      RowAt(s, k);
    }
    forall id | id in LoginsOn(s, day) ensures exists t :: (id, t) in OkRows(s.written, day) {
      assert (id, s.used[id].createdAt) in OkRows(s.written, day);
    }
    forall id | id in RefusalsOn(s, day) ensures exists t :: (id, t) in RefusedRows(s.written, day) {
      assert (id, s.used[id].createdAt) in RefusedRows(s.written, day);
    }
    KeysCount(OkRows(s.written, day), LoginsOn(s, day));
    KeysCount(RefusedRows(s.written, day), RefusalsOn(s, day));
  }

  lemma RowAt(s: Sys, k: (Id, int))
    requires LogOk(s, k)
    ensures k.0 in s.used && k.1 == s.used[k.0].createdAt
  {}

  /** The daily counters and what was pruned of them count the delivered events themselves: those of
      the day that tell of a login, and those that tell of a refused one. */
  lemma {:induction false} LoginsAreCounted(es: seq<Event>, day: int)
    ensures Plus(On(Run(es).db.stats, day), On(Run(es).pruned, day)) == Logins(|LoginsOn(Run(es), day)|, |RefusalsOn(Run(es), day)|)
  {
    Always(es);
    StatsAreTheFold(es, day);
    hide Run, LoginsOn, RefusalsOn;
    LoginRows(Run(es), day);
  }

  /** A refresh forgets exactly the days before the last ninety. */
  lemma {:induction false} RefreshKeepsNinetyDays(es: seq<Event>, now: int, day: int)
    ensures On(Run(es + [EvPrune(now)]).db.stats, day) == if now / DAY - 90 < day then On(Run(es).db.stats, day) else Logins(0, 0)
  {
    assert (es + [EvPrune(now)])[..|es|] == es;
  }

  /** Event `j` prunes the day after a login of that day was counted. */
  predicate PrunedAfterCount(es: seq<Event>, j: nat, day: int)
    requires j < |es|
  {
    es[j].EvPrune? && day < HistoryStart(es[j].now) && Fold(Run(es[..j]).written, day) != Logins(0, 0)
  }

  ghost predicate EverPruned(es: seq<Event>, day: int) {
    exists j: nat :: j < |es| && PrunedAfterCount(es, j, day)
  }

  lemma EverPrunedSnoc(es: seq<Event>, day: int)
    requires es != []
    ensures EverPruned(es, day) <==> EverPruned(es[..|es| - 1], day) || PrunedAfterCount(es, |es| - 1, day)
  {
    hide HistoryStart, Fold;
    var front := es[..|es| - 1];
    forall j: nat | j < |front| ensures PrunedAfterCount(es, j, day) <==> PrunedAfterCount(front, j, day) {
      assert front[..j] == es[..j];
    }
    if EverPruned(es, day) {
      var j: nat :| j < |es| && PrunedAfterCount(es, j, day);
      if j < |front| { assert PrunedAfterCount(front, j, day); }
    }
    if EverPruned(front, day) {
      var j: nat :| j < |front| && PrunedAfterCount(front, j, day);
      assert PrunedAfterCount(es, j, day);
    }
  }

  lemma DeliverLeavesPruned(s: Sys, worker: Worker, id: Id, now: int, fate: Fate)
    ensures StepDeliver(s, worker, id, now, fate).pruned == s.pruned
  {
    hide LogOf, Deliver;
  }

  lemma StepPruned(s: Sys, e: Event, day: int)
    requires Inv(s)
    ensures On(Step(s, e).pruned, day) ==
      if e.EvPrune? && day < HistoryStart(e.now) then Fold(s.written, day) else On(s.pruned, day)
  {
    hide Fold, HistoryStart, StepClaim, StepFail, StepDeliver, StepPrune, StepRetain, On, BodiesKept, OnePlace, StatsOk, LogsOk;
    match e
    case EvDeliver(worker, id, now, fate) => DeliverLeavesPruned(s, worker, id, now, fate);
    case EvRetain(cutoff, dropped) => RetainLeavesPruned(s, cutoff, dropped);
    case EvPrune(now) =>
      PruneDay(s, now, day);
      DayFact(s, day);
    case _ => OtherStep(s, e);
  }

  lemma RetainLeavesPruned(s: Sys, cutoff: int, dropped: set<Range>)
    ensures StepRetain(s, cutoff, dropped).pruned == s.pruned
  {}

  lemma {:induction false} PrunedIff(es: seq<Event>, day: int)
    ensures On(Run(es).pruned, day) != Logins(0, 0) <==> EverPruned(es, day)
    decreases |es|
  {
    if es != [] {
      var front, e := es[..|es| - 1], es[|es| - 1];
      PrunedIff(front, day);
      Always(front);
      StepPruned(Run(front), e, day);
      EverPrunedSnoc(es, day);
      StatsAreTheFold(front, day);
      hide Step, Inv, Fold, HistoryStart, EverPruned;
    }
  }

  /** A day's counters are the counts of its rows exactly when no prune covered the day after
      something was counted on it. */
  lemma {:induction false} StatsExactly(es: seq<Event>, day: int)
    ensures On(Run(es).db.stats, day) == Fold(Run(es).written, day) <==> !EverPruned(es, day)
  {
    StatsAreTheFold(es, day);
    PrunedIff(es, day);
  }

  /** In particular on every day that all refreshes so far have kept. */
  lemma {:induction false} RetainedDaysExact(es: seq<Event>, day: int)
    requires forall j :: 0 <= j < |es| && es[j].EvPrune? ==> HistoryStart(es[j].now) <= day
    ensures On(Run(es).db.stats, day) == Fold(Run(es).written, day)
  {
    StatsExactly(es, day);
  }

  const LOGIN_BODY := Body(LOGIN, Missing, Missing, true, 0)

  /** A login is delivered; ninety days later the refresh forgets its day. */
  const FORGOTTEN := [EvPartition({(0, 10)}), EvEnqueue(0, LOGIN_BODY, 0), EvClaim(1, {0}, 0, MINUTE, Committed),
                      EvDeliver(1, 0, 0, Committed), EvPrune(90 * DAY)]

  lemma ForgottenQueued()
    ensures Run(FORGOTTEN[..2]) == START.(db := EMPTY.(outbox := map[0 := Row(LOGIN_BODY, Pending, 0, 0)], ranges := {(0, 10)}), used := map[0 := LOGIN_BODY])
  {
    var f := FORGOTTEN;
    assert f[..2][..1] == f[..1] && f[..1][..0] == [];
    assert Run([]) == START;
    var s1 := Step(START, f[0]);
    assert s1 == START.(db := EMPTY.(ranges := {(0, 10)}));
    assert Run(f[..1]) == s1;
    assert Run(f[..2]) == Step(s1, f[1]);
  }

  lemma ForgottenClaimed()
    ensures var s := Run(FORGOTTEN[..3]);
      Holds(s, 1, 0) && s.held[1][0] == LOGIN_BODY && Leased(s.db, 0, 1) && s.db.ranges == {(0, 10)} && s.db.logs == map[] && s.used == map[0 := LOGIN_BODY]
  {
    ForgottenQueued();
    assert FORGOTTEN[..3][..2] == FORGOTTEN[..2];
    var s := Run(FORGOTTEN[..2]);
    assert Run(FORGOTTEN[..3]) == Step(s, FORGOTTEN[2]);
    hide Run;
    assert 0 in s.db.outbox && Eligible(s.db.outbox[0], 0, MINUTE);
  }

  lemma ForgottenLogin()
    ensures Logged(Run(FORGOTTEN[..4]), 0) && Run(FORGOTTEN[..4]).used == map[0 := LOGIN_BODY]
  {
    ForgottenClaimed();
    assert FORGOTTEN[..4][..3] == FORGOTTEN[..3];
    var s := Run(FORGOTTEN[..3]);
    assert Run(FORGOTTEN[..4]) == Step(s, FORGOTTEN[3]);
    hide Run, Count;
    assert (0, 10) in s.db.ranges && Accepts(s.db.ranges, 0);
    assert LogOf(0, LOGIN_BODY) == Some(Entry(0, LOGIN, "success", "low", 0));
  }

  lemma ForgottenPruned()
    ensures EverPruned(FORGOTTEN, 0)
  {
    ForgottenLogin();
    Always(FORGOTTEN[..4]);
    hide Run;
    var s := Run(FORGOTTEN[..4]);
    assert LogOk(s, (0, 0));
    assert (0, 0) in OkRows(s.written, 0);
    assert PrunedAfterCount(FORGOTTEN, 4, 0);
  }

  /** The unrestricted statement fails: the row was written, its day counts nothing. */
  lemma PrunedDayDiffers()
    ensures On(Run(FORGOTTEN).db.stats, 0) != Fold(Run(FORGOTTEN).written, 0)
  {
    hide Run, EverPruned, On, Fold;
    ForgottenPruned();
    StatsExactly(FORGOTTEN, 0);
  }

  // ---------------------------------------------------------------- progress

  /** The earliest time at which a dispatcher may claim an event: its retry time, or its holder's
      lease running out. */
  function ClaimableAfter(row: Row, lease: int): int {
    if row.status.Processing? then row.status.lockedAt + lease else row.availableAt
  }

  predicate Claimable(s: Sys, id: Id, now: int, lease: int) {
    Undelivered(s, id) && ClaimableAfter(s.db.outbox[id], lease) < now
  }

  /** No event gets stuck: from any reachable state, whoever crashed with its lease, one claim whose
      batch contains the event, after the lease or the retry time, and one delivery write its row,
      exactly when its payload is well formed and some partition takes its time. */
  lemma {:induction false} NeverStuck(es: seq<Event>, ids: set<Id>, id: Id, worker: Worker, now: int, lease: int)
    requires id in ids && forall i :: i in ids ==> Claimable(Run(es), i, now, lease)
    ensures id in Run(es).used
    ensures var t := Run(es + [EvClaim(worker, ids, now, lease, Committed), EvDeliver(worker, id, now, Committed)]);
      (id, Run(es).used[id].createdAt) in t.db.logs <==>
      WellFormed(Run(es).used[id]) && exists r | r in Run(es).db.ranges :: r.0 <= Run(es).used[id].createdAt < r.1
  {
    hide Inv, Step, LogOf, Claimable;
    assert id in Run(es).used ==> (LogOf(id, Run(es).used[id]).Some? <==> WellFormed(Run(es).used[id])) by {
      if id in Run(es).used { LogSays(id, Run(es).used[id]); }
    }
    var claim, deliver := EvClaim(worker, ids, now, lease, Committed), EvDeliver(worker, id, now, Committed);
    Always(es);
    TwoSteps(es, claim, deliver);
    ClaimThenDeliver(Run(es), ids, id, worker, now, lease);
  }

  lemma {:induction false} TwoSteps(es: seq<Event>, e: Event, f: Event)
    ensures Run(es + [e, f]) == Step(Step(Run(es), e), f)
  {
    hide Step;
    assert (es + [e])[..|es|] == es;
    assert (es + [e, f])[..|es| + 1] == es + [e];
    assert Run(es + [e]) == Step(Run(es), e);
  }

  lemma ClaimOne(s: Sys, ids: set<Id>, id: Id, worker: Worker, now: int, lease: int)
    requires BodiesKept(s) && id in ids && forall i :: i in ids ==> Claimable(s, i, now, lease)
    ensures var t := StepClaim(s, worker, ids, now, lease, Committed);
      && Holds(t, worker, id) && id in s.used && t.held[worker][id] == s.used[id] && Leased(t.db, id, worker)
      && t == s.(db := t.db, held := t.held) && t.db == s.db.(outbox := t.db.outbox)
  {
    forall i | i in ids ensures i in s.db.outbox && Eligible(s.db.outbox[i], now, lease) { assert Claimable(s, i, now, lease); }
  }

  /** A held, leased event without a row gets it exactly when it can be written. */
  lemma DeliverOne(t: Sys, id: Id, worker: Worker, now: int)
    requires Holds(t, worker, id) && id in t.used && t.held[worker][id] == t.used[id] && Leased(t.db, id, worker)
    requires (id, t.used[id].createdAt) !in t.db.logs
    ensures (id, t.used[id].createdAt) in StepDeliver(t, worker, id, now, Committed).db.logs
      <==> LogOf(id, t.used[id]).Some? && Accepts(t.db.ranges, t.used[id].createdAt)
  {
    if LogOf(id, t.used[id]).Some? { LogKeepsIdentity(id, t.used[id]); }
    hide LogOf, Count, Accepts;
  }

  lemma ClaimThenDeliver(s: Sys, ids: set<Id>, id: Id, worker: Worker, now: int, lease: int)
    requires Inv(s) && id in ids && forall i :: i in ids ==> Claimable(s, i, now, lease)
    ensures id in s.used
    ensures var t := Step(Step(s, EvClaim(worker, ids, now, lease, Committed)), EvDeliver(worker, id, now, Committed));
      (id, s.used[id].createdAt) in t.db.logs <==> LogOf(id, s.used[id]).Some? && Accepts(s.db.ranges, s.used[id].createdAt)
  {
    ClaimOne(s, ids, id, worker, now, lease);
    assert Claimable(s, id, now, lease);
    assert !Logged(s, id) && TableOk(s, (id, s.used[id].createdAt));
    hide StepClaim, StepDeliver, LogOf, Leased, Inv, Accepts;
    DeliverOne(Step(s, EvClaim(worker, ids, now, lease, Committed)), id, worker, now);
  }
}

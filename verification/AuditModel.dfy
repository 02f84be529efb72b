/** The audit outbox of internal/audit/outbox.go: rows are claimed under a lease, copied into
    audit_logs and counted in login_stats_daily by any number of dispatchers, while retention
    deletes old rows and the statistics refresh prunes old days. Each committed transaction is one
    step; times are microseconds on one clock. */
module AuditModel {
  import opened Base

  type Id = nat
  type Worker = nat

  const LOGIN := "user.login"
  const LOGIN_FAILED := "user.login_failed"
  const RISKS := {"low", "medium", "high", "critical"}

  /** A payload value: absent or null, a string (trimmed), or another JSON value. */
  datatype Field = Missing | Text(text: string) | NoText

  /** The event as enqueued; no transaction changes it. `rest` says that the other payload fields
      have the types that an audit log needs. */
  datatype Body = Body(event: string, result: Field, risk: Field, rest: bool, createdAt: int)

  datatype Status = Pending | Processing(lockedAt: int, lockedBy: Worker) | Failed | Processed(at: int)

  datatype Row = Row(body: Body, status: Status, attempts: nat, availableAt: int)

  datatype Entry = Entry(id: Id, event: string, result: string, risk: string, createdAt: int)

  datatype Logins = Logins(successful: nat, failed: nat)

  /** The times of a partition's rows, the end excluded. */
  type Range = (int, int)

  /** `logs` has the primary key (id, created_at); `ranges` are its partitions, and there is no
      default one. */
  datatype Db = Db(outbox: map<Id, Row>, logs: map<(Id, int), Entry>, stats: map<int, Logins>, ranges: set<Range>)

  const EMPTY := Db(map[], map[], map[], {})

  /** Some partition takes a row of this time. */
  predicate Accepts(ranges: set<Range>, t: int) {
    exists r | r in ranges :: r.0 <= t < r.1
  }

  function TextOf(f: Field, fallback: string): Option<string> {
    match f
    case Missing => Some(fallback)
    case Text(t) => if t == "" then None else Some(t)
    case NoText => None
  }

  /** auditLogFromOutbox; None when the payload is malformed. */
  function LogOf(id: Id, body: Body): Option<Entry> {
    var result, risk := TextOf(body.result, "success"), TextOf(body.risk, "low");
    if body.event == "" || !body.rest || result.None? || risk.None? then None
    else if result.value !in {"success", "failure"} || risk.value !in RISKS then None
    else Some(Entry(id, body.event, result.value, risk.value, body.createdAt))
  }

  /** The UTC day of a time. */
  function Day(t: int): int {
    t / DAY
  }

  predicate LoggedIn(e: Entry) {
    e.event == LOGIN && e.result == "success"
  }

  predicate LoginRefused(e: Entry) {
    e.event == LOGIN_FAILED && e.result == "failure"
  }

  /** 2 to the n. */
  function Pow2(n: nat): nat {
    if n == 0 then 1 else 2 * Pow2(n - 1)
  }

  /** auditRetryDelay: one minute, doubling with each attempt up to the seventh. */
  function RetryDelay(attempt: int): int {
    var n := if attempt < 1 then 1 else if attempt > 7 then 7 else attempt;
    Pow2(n - 1) * MINUTE
  }

  // ---------------------------------------------------------------- transactions

  function Enqueue(db: Db, id: Id, body: Body, availableAt: int): Db {
    if id in db.outbox then db else db.(outbox := db.outbox[id := Row(body, Pending, 0, availableAt)])
  }

  predicate Eligible(row: Row, now: int, lease: int) {
    match row.status
    case Pending => row.availableAt <= now
    case Failed => row.availableAt <= now
    case Processing(lockedAt, _) => lockedAt < now - lease
    case Processed(_) => false
  }

  function Claimed(row: Row, worker: Worker, now: int): Row {
    row.(status := Processing(now, worker), attempts := row.attempts + 1)
  }

  function ClaimRows(db: Db, worker: Worker, ids: set<Id>, now: int): Db {
    db.(outbox := map id | id in db.outbox :: if id in ids then Claimed(db.outbox[id], worker, now) else db.outbox[id])
  }

  /** The lease that an update checks before it changes the row. */
  predicate Leased(db: Db, id: Id, worker: Worker) {
    id in db.outbox && db.outbox[id].status.Processing? && db.outbox[id].status.lockedBy == worker
  }

  function Count(stats: map<int, Logins>, e: Entry): map<int, Logins> {
    var day := Day(e.createdAt);
    var was := if day in stats then stats[day] else Logins(0, 0);
    if LoggedIn(e) then stats[day := Logins(was.successful + 1, was.failed)]
    else if LoginRefused(e) then stats[day := Logins(was.successful, was.failed + 1)]
    else stats
  }

  /** None when the lease is lost, or no partition takes the row: nothing is written then. */
  function Deliver(db: Db, e: Entry, worker: Worker, now: int): Option<Db> {
    if !Leased(db, e.id, worker) || !Accepts(db.ranges, e.createdAt) then None
    else
      var outbox := db.outbox[e.id := db.outbox[e.id].(status := Processed(now))];
      if (e.id, e.createdAt) in db.logs then Some(db.(outbox := outbox))
      else Some(db.(outbox := outbox, logs := db.logs[(e.id, e.createdAt) := e], stats := Count(db.stats, e)))
  }

  function MarkFailed(db: Db, id: Id, worker: Worker, retryAt: int): Option<Db> {
    if !Leased(db, id, worker) then None
    else Some(db.(outbox := db.outbox[id := db.outbox[id].(status := Failed, availableAt := retryAt)]))
  }

  function Cleanup(db: Db, ids: set<Id>): Db {
    db.(outbox := db.outbox - ids)
  }

  /** ApplyRetention: expired partitions are dropped, and the rows before the cutoff deleted. */
  function Retain(db: Db, cutoff: int, dropped: set<Range>): Db {
    db.(logs := map k | k in db.logs && k.1 >= cutoff :: db.logs[k], ranges := db.ranges - dropped)
  }

  /** The statistics refresh keeps this many days, today included. */
  const STATS_HISTORY_DAYS := 90

  function HistoryStart(now: int): int {
    Day(now) - (STATS_HISTORY_DAYS - 1)
  }

  function Prune(stats: map<int, Logins>, now: int): map<int, Logins> {
    map d | d in stats && d >= HistoryStart(now) :: stats[d]
  }

  // ---------------------------------------------------------------- runs

  /** A day's counters; a day without a row counts nothing. */
  function On(stats: map<int, Logins>, day: int): Logins {
    if day in stats then stats[day] else Logins(0, 0)
  }

  function Plus(a: Logins, b: Logins): Logins {
    Logins(a.successful + b.successful, a.failed + b.failed)
  }

  /** What was pruned so far, after one more prune. */
  function AddPruned(pruned: map<int, Logins>, stats: map<int, Logins>, now: int): map<int, Logins> {
    map d | d in pruned.Keys + stats.Keys ::
      if d < HistoryStart(now) then Plus(On(stats, d), On(pruned, d)) else On(pruned, d)
  }

  /** `used` are the events ever enqueued; `held` is what each dispatcher has in memory, which it
      may act on at any later time, its lease long gone. The rest records history: the audit rows
      ever written, the latest cutoff of retention, and the counts that prunes removed. */
  datatype Sys = Sys(db: Db, used: map<Id, Body>, held: map<Worker, map<Id, Body>>,
                     written: map<(Id, int), Entry>, cutoff: Option<int>, pruned: map<int, Logins>)

  datatype Event =
    | EvEnqueue(id: Id, body: Body, availableAt: int)
    | EvClaim(worker: Worker, ids: set<Id>, now: int, lease: int, fate: Fate)
    | EvDeliver(worker: Worker, id: Id, now: int, fate: Fate)
    | EvFail(worker: Worker, id: Id, retryAt: int, fate: Fate)
    | EvCleanup(ids: set<Id>, before: int)
    | EvPartition(ranges: set<Range>)
    | EvRetain(cutoff: int, dropped: set<Range>)
    | EvPrune(now: int)

  const START := Sys(EMPTY, map[], map[], map[], None, map[])

  function StepClaim(s: Sys, worker: Worker, ids: set<Id>, now: int, lease: int, fate: Fate): Sys {
    if fate.Aborted? || exists id | id in ids :: id !in s.db.outbox || !Eligible(s.db.outbox[id], now, lease) then s
    else
      var was := if worker in s.held then s.held[worker] else map[];
      var batch := map id | id in ids && id in s.db.outbox :: s.db.outbox[id].body;
      s.(db := ClaimRows(s.db, worker, ids, now), held := if fate.Committed? then s.held[worker := was + batch] else s.held)
  }

  predicate Holds(s: Sys, worker: Worker, id: Id) {
    worker in s.held && id in s.held[worker]
  }

  function StepDeliver(s: Sys, worker: Worker, id: Id, now: int, fate: Fate): Sys {
    if fate.Aborted? || !Holds(s, worker, id) then s
    else
      var log := LogOf(id, s.held[worker][id]);
      if log.None? then s
      else
        var key := (id, log.value.createdAt);
        var db := Deliver(s.db, log.value, worker, now);
        if db.None? then s
        else s.(db := db.value, written := if key in s.db.logs then s.written else s.written[key := log.value])
  }

  function StepFail(s: Sys, worker: Worker, id: Id, retryAt: int, fate: Fate): Sys {
    if fate.Aborted? || !Holds(s, worker, id) then s
    else
      var db := MarkFailed(s.db, id, worker, retryAt);
      if db.None? then s else s.(db := db.value)
  }

  predicate Stale(row: Row, before: int) {
    row.status.Processed? && row.status.at < before
  }

  function StepRetain(s: Sys, cutoff: int, dropped: set<Range>): Sys {
    if exists r | r in dropped :: r.1 > cutoff then s
    else s.(db := Retain(s.db, cutoff, dropped),
            cutoff := if s.cutoff.Some? && s.cutoff.value >= cutoff then s.cutoff else Some(cutoff))
  }

  function StepPrune(s: Sys, now: int): Sys {
    s.(db := s.db.(stats := Prune(s.db.stats, now)), pruned := AddPruned(s.pruned, s.db.stats, now))
  }

  function Step(s: Sys, e: Event): Sys {
    match e
    case EvEnqueue(id, body, availableAt) =>
      if id in s.used then s else s.(db := Enqueue(s.db, id, body, availableAt), used := s.used[id := body])
    case EvClaim(worker, ids, now, lease, fate) => StepClaim(s, worker, ids, now, lease, fate)
    case EvDeliver(worker, id, now, fate) => StepDeliver(s, worker, id, now, fate)
    case EvFail(worker, id, retryAt, fate) => StepFail(s, worker, id, retryAt, fate)
    case EvCleanup(ids, before) =>
      if exists id | id in ids :: id !in s.db.outbox || !Stale(s.db.outbox[id], before) then s
      else s.(db := Cleanup(s.db, ids))
    case EvPartition(ranges) => s.(db := s.db.(ranges := s.db.ranges + ranges))
    case EvRetain(cutoff, dropped) => StepRetain(s, cutoff, dropped)
    case EvPrune(now) => StepPrune(s, now)
  }

  function Run(es: seq<Event>): Sys
    decreases |es|
  {
    if es == [] then START else Step(Run(es[..|es| - 1]), es[|es| - 1])
  }
}

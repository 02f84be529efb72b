/** The email outbox of internal/account: encrypted messages queued with a deadline, sent under a
    lease, and counted by UTC day, while the statistics refresh prunes old days and messages are
    deleted with their user. Each committed transaction is one step; times are microseconds on one
    clock. */
module EmailModel {
  import opened Base

  type Id = nat
  type Worker = nat

  datatype Status =
    | Pending
    | Sending(lockedAt: int, lockedBy: Worker)
    | Failed
    | Sent(at: int)
    | Rejected(at: int)
    | Expired

  datatype Row = Row(cipher: string, status: Status, attempts: nat, availableAt: int, expiresAt: int, createdAt: int)

  datatype Daily = Daily(enqueued: nat, sent: nat, failedAttempts: nat, rejected: nat, expired: nat)

  /** `minutes` counts the failed attempts of a minute. */
  datatype Db = Db(rows: map<Id, Row>, stats: map<int, Daily>, minutes: map<int, nat>)

  const EMPTY := Db(map[], map[], map[])
  const NOTHING := Daily(0, 0, 0, 0, 0)

  function Day(t: int): int {
    t / DAY
  }

  predicate Terminal(row: Row) {
    row.status.Sent? || row.status.Rejected? || row.status.Expired?
  }

  /** A day's counters; a day without a row counts nothing. */
  function On(stats: map<int, Daily>, day: int): Daily {
    if day in stats then stats[day] else NOTHING
  }

  function Plus(a: Daily, b: Daily): Daily {
    Daily(a.enqueued + b.enqueued, a.sent + b.sent, a.failedAttempts + b.failedAttempts,
          a.rejected + b.rejected, a.expired + b.expired)
  }

  /** AddMailDailyTx. */
  function AddDaily(stats: map<int, Daily>, t: int, delta: Daily): map<int, Daily> {
    if delta == NOTHING then stats else stats[Day(t) := Plus(On(stats, Day(t)), delta)]
  }

  function Minute(t: int): int {
    t / MINUTE
  }

  /** AddMailFailureMinuteTx, for one attempt. */
  function AddMinute(minutes: map<int, nat>, t: int): map<int, nat> {
    minutes[Minute(t) := 1 + if Minute(t) in minutes then minutes[Minute(t)] else 0]
  }

  // ---------------------------------------------------------------- transactions

  /** insertOutboxEmail; the table wants a deadline after the creation. */
  function Enqueue(db: Db, id: Id, cipher: string, availableAt: int, expiresAt: int, createdAt: int): Option<Db> {
    if id in db.rows || expiresAt <= createdAt then None
    else Some(db.(rows := db.rows[id := Row(cipher, Pending, 0, availableAt, expiresAt, createdAt)],
                  stats := AddDaily(db.stats, createdAt, NOTHING.(enqueued := 1))))
  }

  predicate Eligible(row: Row, now: int, lease: int) {
    row.expiresAt > now &&
    match row.status
    case Pending => row.availableAt <= now
    case Failed => row.availableAt <= now
    case Sending(lockedAt, _) => lockedAt < now - lease
    case _ => false
  }

  function Claimed(row: Row, worker: Worker, now: int): Row {
    row.(status := Sending(now, worker), attempts := row.attempts + 1)
  }

  function ClaimRows(db: Db, worker: Worker, ids: set<Id>, now: int): Db {
    db.(rows := map id | id in db.rows :: if id in ids then Claimed(db.rows[id], worker, now) else db.rows[id])
  }

  predicate Leased(db: Db, id: Id, worker: Worker) {
    id in db.rows && db.rows[id].status.Sending? && db.rows[id].status.lockedBy == worker
  }

  function MarkSent(db: Db, id: Id, worker: Worker, now: int): Option<Db> {
    if !Leased(db, id, worker) then None
    else Some(db.(rows := db.rows[id := db.rows[id].(status := Sent(now), cipher := "")],
                  stats := AddDaily(db.stats, now, NOTHING.(sent := 1))))
  }

  /** A failure after the deadline expires the message; it counts on the day of the deadline. */
  function MarkFailed(db: Db, id: Id, worker: Worker, retryAt: int, now: int): Option<Db> {
    if !Leased(db, id, worker) then None
    else
      var row := db.rows[id];
      var counted := AddDaily(db.stats, now, NOTHING.(failedAttempts := 1));
      var minutes := AddMinute(db.minutes, now);
      if row.expiresAt <= now
      then Some(Db(db.rows[id := row.(status := Expired, cipher := "")],
                   AddDaily(counted, row.expiresAt, NOTHING.(expired := 1)), minutes))
      else Some(Db(db.rows[id := row.(status := Failed, availableAt := retryAt)], counted, minutes))
  }

  function MarkRejected(db: Db, id: Id, worker: Worker, now: int): Option<Db> {
    if !Leased(db, id, worker) then None
    else Some(Db(db.rows[id := db.rows[id].(status := Rejected(now), cipher := "")],
                 AddDaily(db.stats, now, NOTHING.(failedAttempts := 1, rejected := 1)), AddMinute(db.minutes, now)))
  }

  predicate Overdue(row: Row, now: int) {
    !Terminal(row) && row.expiresAt <= now
  }

  /** One message of the expiry job; its day is that of its deadline. */
  function ExpireOne(db: Db, id: Id, now: int): Db {
    if id !in db.rows || !Overdue(db.rows[id], now) then db
    else db.(rows := db.rows[id := db.rows[id].(status := Expired, cipher := "")],
             stats := AddDaily(db.stats, db.rows[id].expiresAt, NOTHING.(expired := 1)))
  }

  /** The expiry job, one message after the other. */
  function ExpireAll(db: Db, ids: seq<Id>, now: int): Db {
    if ids == [] then db else ExpireOne(ExpireAll(db, ids[..|ids| - 1], now), ids[|ids| - 1], now)
  }

  /** The statistics refresh keeps this many days, today included. */
  const STATS_HISTORY_DAYS := 90

  function HistoryStart(now: int): int {
    Day(now) - (STATS_HISTORY_DAYS - 1)
  }

  function Prune(stats: map<int, Daily>, now: int): map<int, Daily> {
    map d | d in stats && d >= HistoryStart(now) :: stats[d]
  }

  /** How long the failures of a minute are kept. */
  const MINUTES_KEPT := 2 * DAY

  function PruneMinutes(minutes: map<int, nat>, now: int): map<int, nat> {
    map m | m in minutes && m * MINUTE >= now - MINUTES_KEPT :: minutes[m]
  }

  // ---------------------------------------------------------------- runs

  /** `pruned` records what the prunes removed, day by day, and `deleted` the messages that went
      with their user, as they last were. */
  datatype Sys = Sys(db: Db, pruned: map<int, Daily>, deleted: map<Id, Row>)

  const START := Sys(EMPTY, map[], map[])

  /** What was pruned so far, after one more prune. */
  function AddPruned(pruned: map<int, Daily>, stats: map<int, Daily>, now: int): map<int, Daily> {
    pruned + map d | d in stats && d < HistoryStart(now) :: Plus(stats[d], On(pruned, d))
  }

  datatype Event =
    | EvEnqueue(id: Id, cipher: string, availableAt: int, expiresAt: int, createdAt: int)
    | EvClaim(worker: Worker, ids: set<Id>, now: int, lease: int)
    | EvSent(worker: Worker, id: Id, now: int)
    | EvFailed(worker: Worker, id: Id, retryAt: int, now: int)
    | EvRejected(worker: Worker, id: Id, now: int)
    | EvExpire(due: seq<Id>, now: int)
    | EvPrune(now: int)
    | EvDelete(ids: set<Id>)

  function Or(o: Option<Db>, db: Db): Db {
    if o.Some? then o.value else db
  }

  /** Any worker may report on any message at any time: the lease decides. A transaction that did
      not commit is no step, and one whose commit was uncertain is a step. */
  function DbStep(db: Db, e: Event): Db {
    match e
    case EvEnqueue(id, cipher, availableAt, expiresAt, createdAt) =>
      if cipher == "" then db else Or(Enqueue(db, id, cipher, availableAt, expiresAt, createdAt), db)
    case EvClaim(worker, ids, now, lease) =>
      if exists id | id in ids :: id !in db.rows || !Eligible(db.rows[id], now, lease) then db
      else ClaimRows(db, worker, ids, now)
    case EvSent(worker, id, now) => Or(MarkSent(db, id, worker, now), db)
    case EvFailed(worker, id, retryAt, now) => Or(MarkFailed(db, id, worker, retryAt, now), db)
    case EvRejected(worker, id, now) => Or(MarkRejected(db, id, worker, now), db)
    case EvExpire(due, now) => ExpireAll(db, due, now)
    case EvPrune(now) => db.(stats := Prune(db.stats, now), minutes := PruneMinutes(db.minutes, now))
    case EvDelete(ids) => db.(rows := db.rows - ids)
  }

  /** Users, and with them any set of messages, may be deleted at any time; identifiers are never
      used again. */
  function Step(s: Sys, e: Event): Sys {
    if e.EvEnqueue? && e.id in s.deleted then s
    else Sys(DbStep(s.db, e),
             if e.EvPrune? then AddPruned(s.pruned, s.db.stats, e.now) else s.pruned,
             if e.EvDelete? then s.deleted + map id | id in e.ids && id in s.db.rows :: s.db.rows[id] else s.deleted)
  }

  function Run(es: seq<Event>): Sys
    decreases |es|
  {
    if es == [] then START else Step(Run(es[..|es| - 1]), es[|es| - 1])
  }
}

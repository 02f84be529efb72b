/** Email conservation: in every reachable state the daily counters, with what the statistics refresh
    pruned of them, are the counts of the messages they stand for, those deleted with their user
    included. So summed over the days enqueued = sent + rejected + expired + outstanding + deleted
    while outstanding. The ciphertext is gone exactly from terminal rows, and terminal rows never
    change. */
module EmailProofs {
  import opened Base
  import opened EmailModel

  /** The counters that stand for sets of rows. */
  datatype Kind = Enqueues | Sends | Rejections | Expiries

  function Of(d: Daily, k: Kind): nat {
    match k
    case Enqueues => d.enqueued
    case Sends => d.sent
    case Rejections => d.rejected
    case Expiries => d.expired
  }

  /** Whether a row counts as `k`, and on which day. */
  predicate Counts(row: Row, k: Kind) {
    match k
    case Enqueues => true
    case Sends => row.status.Sent?
    case Rejections => row.status.Rejected?
    case Expiries => row.status.Expired?
  }

  function DayOf(row: Row, k: Kind): int
    requires Counts(row, k)
  {
    match k
    case Enqueues => Day(row.createdAt)
    case Sends => Day(row.status.at)
    case Rejections => Day(row.status.at)
    case Expiries => Day(row.expiresAt)
  }

  predicate CountsOn(row: Row, k: Kind, day: int) {
    Counts(row, k) && DayOf(row, k) == day
  }

  function RowsOn(rows: map<Id, Row>, k: Kind, day: int): set<Id> {
    set id | id in rows && CountsOn(rows[id], k, day)
  }

  /** `gone` is what was pruned, `dead` the messages that were deleted. */
  predicate DayOk(db: Db, gone: map<int, Daily>, dead: map<Id, Row>, k: Kind, day: int) {
    Of(On(db.stats, day), k) + Of(On(gone, day), k) == |RowsOn(dead + db.rows, k, day)|
  }

  /** The table's check: no more rejections than failed attempts. */
  predicate DayChecked(db: Db, day: int) {
    On(db.stats, day).rejected <= On(db.stats, day).failedAttempts
  }

  predicate CipherOk(row: Row) {
    row.cipher == "" <==> Terminal(row)
  }

  ghost predicate Inv(db: Db, gone: map<int, Daily>, dead: map<Id, Row>) {
    && (forall k, day :: DayOk(db, gone, dead, k, day))
    && (forall day :: DayChecked(db, day))
    && (forall id :: id in db.rows ==> CipherOk(db.rows[id]) && id !in dead)
  }

  // ---------------------------------------------------------------- one row

  function Hit(row: Row, k: Kind, day: int): int {
    if CountsOn(row, k, day) then 1 else 0
  }

  lemma Without(s: set<Id>, id: Id)
    ensures |s - {id}| == |s| - if id in s then 1 else 0
  {
    assert if id in s then s == (s - {id}) + {id} else s == s - {id};
  }

  /** Replacing a row moves a day's count by what the two rows count for. */
  lemma RowChanges(rows: map<Id, Row>, id: Id, row: Row, k: Kind, day: int)
    ensures |RowsOn(rows[id := row], k, day)|
         == |RowsOn(rows, k, day)| + Hit(row, k, day) - if id in rows then Hit(rows[id], k, day) else 0
  {
    hide CountsOn;
    var was, now := RowsOn(rows, k, day), RowsOn(rows[id := row], k, day);
    assert was - {id} == now - {id};
    assert id in now <==> Hit(row, k, day) == 1;
    assert id in was <==> id in rows && Hit(rows[id], k, day) == 1;
    Without(was, id);
    Without(now, id);
  }

  /** The counters of `day` moved as the row `id` did when it became `row`. */
  predicate Accounts(db: Db, id: Id, row: Row, stats: map<int, Daily>, k: Kind, day: int) {
    Of(On(stats, day), k) == Of(On(db.stats, day), k) + Hit(row, k, day) - if id in db.rows then Hit(db.rows[id], k, day) else 0
  }

  predicate ChecksStay(db: Db, stats: map<int, Daily>, day: int) {
    On(stats, day).rejected - On(db.stats, day).rejected <= On(stats, day).failedAttempts - On(db.stats, day).failedAttempts
  }

  /** A transaction on one row keeps the invariant when its counters say what the row became. */
  lemma OneRowKeeps(db: Db, gone: map<int, Daily>, dead: map<Id, Row>, id: Id, row: Row, stats: map<int, Daily>, minutes: map<int, nat>)
    requires Inv(db, gone, dead) && CipherOk(row) && id !in dead
    requires forall k, day :: Accounts(db, id, row, stats, k, day)
    requires forall day :: ChecksStay(db, stats, day)
    ensures Inv(Db(db.rows[id := row], stats, minutes), gone, dead)
  {
    hide RowsOn, Hit;
    var t := Db(db.rows[id := row], stats, minutes);
    assert dead + t.rows == (dead + db.rows)[id := row];
    forall k, day ensures DayOk(t, gone, dead, k, day) {
      assert DayOk(db, gone, dead, k, day) && Accounts(db, id, row, stats, k, day);
      RowChanges(dead + db.rows, id, row, k, day);
    }
    forall day ensures DayChecked(t, day) { assert DayChecked(db, day) && ChecksStay(db, stats, day); }
  }

  lemma Alive(db: Db, gone: map<int, Daily>, dead: map<Id, Row>, id: Id)
    requires Inv(db, gone, dead) && id in db.rows
    ensures CipherOk(db.rows[id]) && id !in dead
  {}

  /** What one addition to the counters does to any day. */
  lemma Added(stats: map<int, Daily>, t: int, delta: Daily, day: int)
    requires delta != NOTHING
    ensures On(AddDaily(stats, t, delta), day) == if Day(t) == day then Plus(On(stats, day), delta) else On(stats, day)
  {
    hide Day;
  }

  lemma EnqueueKeeps(db: Db, gone: map<int, Daily>, dead: map<Id, Row>, id: Id, cipher: string, availableAt: int, expiresAt: int, createdAt: int)
    requires Inv(db, gone, dead) && cipher != "" && id !in dead
    ensures Inv(Or(Enqueue(db, id, cipher, availableAt, expiresAt, createdAt), db), gone, dead)
  {
    hide Inv, AddDaily, Day, On;
    if id !in db.rows && expiresAt > createdAt {
      var row := Row(cipher, Pending, 0, availableAt, expiresAt, createdAt);
      var stats := AddDaily(db.stats, createdAt, NOTHING.(enqueued := 1));
      forall k, day ensures Accounts(db, id, row, stats, k, day) { Added(db.stats, createdAt, NOTHING.(enqueued := 1), day); }
      forall day ensures ChecksStay(db, stats, day) { Added(db.stats, createdAt, NOTHING.(enqueued := 1), day); }
      OneRowKeeps(db, gone, dead, id, row, stats, db.minutes);
    }
  }

  lemma SentKeeps(db: Db, gone: map<int, Daily>, dead: map<Id, Row>, id: Id, worker: Worker, now: int)
    requires Inv(db, gone, dead)
    ensures Inv(Or(MarkSent(db, id, worker, now), db), gone, dead)
  {
    hide Inv, AddDaily, Day, On, AddMinute;
    if Leased(db, id, worker) {
      Alive(db, gone, dead, id);
      var row := db.rows[id].(status := Sent(now), cipher := "");
      var stats := AddDaily(db.stats, now, NOTHING.(sent := 1));
      forall k, day ensures Accounts(db, id, row, stats, k, day) { Added(db.stats, now, NOTHING.(sent := 1), day); }
      forall day ensures ChecksStay(db, stats, day) { Added(db.stats, now, NOTHING.(sent := 1), day); }
      OneRowKeeps(db, gone, dead, id, row, stats, db.minutes);
    }
  }

  lemma RejectedKeeps(db: Db, gone: map<int, Daily>, dead: map<Id, Row>, id: Id, worker: Worker, now: int)
    requires Inv(db, gone, dead)
    ensures Inv(Or(MarkRejected(db, id, worker, now), db), gone, dead)
  {
    hide Inv, AddDaily, Day, On, AddMinute;
    if Leased(db, id, worker) {
      Alive(db, gone, dead, id);
      var row := db.rows[id].(status := Rejected(now), cipher := "");
      var delta := NOTHING.(failedAttempts := 1, rejected := 1);
      var stats := AddDaily(db.stats, now, delta);
      forall k, day ensures Accounts(db, id, row, stats, k, day) { Added(db.stats, now, delta, day); }
      forall day ensures ChecksStay(db, stats, day) { Added(db.stats, now, delta, day); }
      OneRowKeeps(db, gone, dead, id, row, stats, AddMinute(db.minutes, now));
    }
  }

  /** The two counters of a failure after the deadline. */
  lemma LateFailureKeeps(db: Db, gone: map<int, Daily>, dead: map<Id, Row>, id: Id, worker: Worker, now: int)
    requires Inv(db, gone, dead) && Leased(db, id, worker) && db.rows[id].expiresAt <= now
    ensures Inv(MarkFailed(db, id, worker, 0, now).value, gone, dead)
  {
    hide Inv, AddDaily, Day, On, AddMinute;
    Alive(db, gone, dead, id);
    var row := db.rows[id].(status := Expired, cipher := "");
    var counted := AddDaily(db.stats, now, NOTHING.(failedAttempts := 1));
    var stats := AddDaily(counted, row.expiresAt, NOTHING.(expired := 1));
    forall k, day ensures Accounts(db, id, row, stats, k, day) {
      Added(db.stats, now, NOTHING.(failedAttempts := 1), day);
      Added(counted, row.expiresAt, NOTHING.(expired := 1), day);
    }
    forall day ensures ChecksStay(db, stats, day) {
      Added(db.stats, now, NOTHING.(failedAttempts := 1), day);
      Added(counted, row.expiresAt, NOTHING.(expired := 1), day);
    }
    OneRowKeeps(db, gone, dead, id, row, stats, AddMinute(db.minutes, now));
  }

  lemma RetryKeeps(db: Db, gone: map<int, Daily>, dead: map<Id, Row>, id: Id, worker: Worker, retryAt: int, now: int)
    requires Inv(db, gone, dead) && Leased(db, id, worker) && now < db.rows[id].expiresAt
    ensures Inv(MarkFailed(db, id, worker, retryAt, now).value, gone, dead)
  {
    hide Inv, AddDaily, Day, On, AddMinute;
    Alive(db, gone, dead, id);
    var row := db.rows[id].(status := Failed, availableAt := retryAt);
    var stats := AddDaily(db.stats, now, NOTHING.(failedAttempts := 1));
    forall k, day ensures Accounts(db, id, row, stats, k, day) {
      Added(db.stats, now, NOTHING.(failedAttempts := 1), day);
    }
    forall day ensures ChecksStay(db, stats, day) {
      Added(db.stats, now, NOTHING.(failedAttempts := 1), day);
    }
    OneRowKeeps(db, gone, dead, id, row, stats, AddMinute(db.minutes, now));
  }

  lemma FailedKeeps(db: Db, gone: map<int, Daily>, dead: map<Id, Row>, id: Id, worker: Worker, retryAt: int, now: int)
    requires Inv(db, gone, dead)
    ensures Inv(Or(MarkFailed(db, id, worker, retryAt, now), db), gone, dead)
  {
    hide Inv, AddDaily, Day, On;
    if Leased(db, id, worker) {
      if db.rows[id].expiresAt <= now {
        LateFailureKeeps(db, gone, dead, id, worker, now);
      } else {
        RetryKeeps(db, gone, dead, id, worker, retryAt, now);
      }
    }
  }

  lemma ExpireOneKeeps(db: Db, gone: map<int, Daily>, dead: map<Id, Row>, id: Id, now: int)
    requires Inv(db, gone, dead)
    ensures Inv(ExpireOne(db, id, now), gone, dead)
  {
    hide Inv, AddDaily, Day, On;
    if id in db.rows && Overdue(db.rows[id], now) {
      Alive(db, gone, dead, id);
      var row := db.rows[id].(status := Expired, cipher := "");
      var stats := AddDaily(db.stats, row.expiresAt, NOTHING.(expired := 1));
      forall k, day ensures Accounts(db, id, row, stats, k, day) {
        Added(db.stats, row.expiresAt, NOTHING.(expired := 1), day);
      }
      forall day ensures ChecksStay(db, stats, day) {
        Added(db.stats, row.expiresAt, NOTHING.(expired := 1), day);
      }
      OneRowKeeps(db, gone, dead, id, row, stats, db.minutes);
    }
  }

  lemma {:induction false} ExpireAllKeeps(db: Db, gone: map<int, Daily>, dead: map<Id, Row>, ids: seq<Id>, now: int)
    requires Inv(db, gone, dead)
    ensures Inv(ExpireAll(db, ids, now), gone, dead)
  {
    if ids != [] {
      ExpireAllKeeps(db, gone, dead, ids[..|ids| - 1], now);
      ExpireOneKeeps(ExpireAll(db, ids[..|ids| - 1], now), gone, dead, ids[|ids| - 1], now);
    }
  }

  lemma ClaimKeeps(db: Db, gone: map<int, Daily>, dead: map<Id, Row>, worker: Worker, ids: set<Id>, now: int, lease: int)
    requires Inv(db, gone, dead)
    ensures Inv(DbStep(db, EvClaim(worker, ids, now, lease)), gone, dead)
  {
    var t := DbStep(db, EvClaim(worker, ids, now, lease));
    forall k, day ensures DayOk(t, gone, dead, k, day) {
      assert DayOk(db, gone, dead, k, day);
      assert RowsOn(dead + t.rows, k, day) == RowsOn(dead + db.rows, k, day);
    }
    forall day ensures DayChecked(t, day) { assert DayChecked(db, day); }
    forall id | id in t.rows ensures CipherOk(t.rows[id]) && id !in dead { assert CipherOk(db.rows[id]); }
  }

  lemma PruneOn(stats: map<int, Daily>, now: int, day: int)
    ensures On(Prune(stats, now), day) == if day < HistoryStart(now) then NOTHING else On(stats, day)
  {
    hide HistoryStart;
  }

  lemma AddPrunedOn(gone: map<int, Daily>, stats: map<int, Daily>, now: int, day: int)
    ensures On(AddPruned(gone, stats, now), day) ==
      if day < HistoryStart(now) && day in stats then Plus(stats[day], On(gone, day)) else On(gone, day)
  {
    hide HistoryStart, Plus;
  }

  lemma OfOn(stats: map<int, Daily>, k: Kind, day: int)
    ensures Of(On(stats, day), k) == if day in stats then Of(stats[day], k) else 0
  {}

  /** A prune moves a day's counters, or leaves them. */
  lemma PruneDay(s: Sys, now: int, k: Kind, day: int)
    ensures var t := Step(s, EvPrune(now));
      && On(t.db.stats, day) == (if day < HistoryStart(now) then NOTHING else On(s.db.stats, day))
      && Of(On(t.pruned, day), k) == Of(On(s.pruned, day), k) + if day < HistoryStart(now) then Of(On(s.db.stats, day), k) else 0
  {
    hide HistoryStart, On, Prune, PruneMinutes, AddPruned;
    PruneOn(s.db.stats, now, day);
    AddPrunedOn(s.pruned, s.db.stats, now, day);
    OfOn(s.db.stats, k, day);
  }

  lemma PruneLeavesRows(s: Sys, now: int)
    ensures Step(s, EvPrune(now)).db.rows == s.db.rows && Step(s, EvPrune(now)).deleted == s.deleted
  {
    hide Prune, PruneMinutes, AddPruned;
  }

  lemma PruneDayOk(s: Sys, now: int, k: Kind, day: int)
    requires DayOk(s.db, s.pruned, s.deleted, k, day)
    ensures var t := Step(s, EvPrune(now)); DayOk(t.db, t.pruned, t.deleted, k, day)
  {
    hide On, HistoryStart, RowsOn, Step;
    PruneDay(s, now, k, day);
    PruneLeavesRows(s, now);
  }

  lemma PruneChecked(s: Sys, now: int, day: int)
    requires DayChecked(s.db, day)
    ensures DayChecked(Step(s, EvPrune(now)).db, day)
  {
    hide On, HistoryStart, Step;
    PruneDay(s, now, Rejections, day);
  }

  ghost predicate SysInv(s: Sys) {
    Inv(s.db, s.pruned, s.deleted)
  }

  lemma PruneKeeps(s: Sys, now: int)
    requires SysInv(s)
    ensures SysInv(Step(s, EvPrune(now)))
  {
    var t := Step(s, EvPrune(now));
    PruneLeavesRows(s, now);
    hide DayOk, DayChecked, Step;
    forall k, day ensures DayOk(t.db, t.pruned, t.deleted, k, day) { PruneDayOk(s, now, k, day); }
    forall day ensures DayChecked(t.db, day) { PruneChecked(s, now, day); }
  }

  /** Every message there ever was. */
  function Ever(s: Sys): map<Id, Row> {
    s.deleted + s.db.rows
  }

  lemma DeleteMoves(s: Sys, ids: set<Id>)
    ensures var t := Step(s, EvDelete(ids));
      && t.db.stats == s.db.stats && t.pruned == s.pruned && t.db.rows == s.db.rows - ids
      && ((forall id :: id in s.db.rows ==> id !in s.deleted) ==> Ever(t) == Ever(s))
  {}

  lemma DeleteKeeps(s: Sys, ids: set<Id>)
    requires SysInv(s)
    ensures SysInv(Step(s, EvDelete(ids)))
  {
    var t := Step(s, EvDelete(ids));
    DeleteMoves(s, ids);
    hide RowsOn, On;
    forall k, day ensures DayOk(t.db, t.pruned, t.deleted, k, day) { assert DayOk(s.db, s.pruned, s.deleted, k, day); }
    forall day ensures DayChecked(t.db, day) { assert DayChecked(s.db, day); }
  }

  lemma DbStepKeeps(db: Db, gone: map<int, Daily>, dead: map<Id, Row>, e: Event)
    requires Inv(db, gone, dead) && !e.EvPrune? && !e.EvDelete? && (e.EvEnqueue? ==> e.id !in dead)
    ensures Inv(DbStep(db, e), gone, dead)
  {
    hide Inv;
    match e
    case EvEnqueue(id, cipher, availableAt, expiresAt, createdAt) =>
      if cipher != "" { EnqueueKeeps(db, gone, dead, id, cipher, availableAt, expiresAt, createdAt); }
    case EvClaim(worker, ids, now, lease) => ClaimKeeps(db, gone, dead, worker, ids, now, lease);
    case EvSent(worker, id, now) => SentKeeps(db, gone, dead, id, worker, now);
    case EvFailed(worker, id, retryAt, now) => FailedKeeps(db, gone, dead, id, worker, retryAt, now);
    case EvRejected(worker, id, now) => RejectedKeeps(db, gone, dead, id, worker, now);
    case EvExpire(due, now) => ExpireAllKeeps(db, gone, dead, due, now);
  }

  lemma StepKeeps(s: Sys, e: Event)
    requires SysInv(s)
    ensures SysInv(Step(s, e))
  {
    hide Inv, DbStep, AddPruned;
    if e.EvPrune? { PruneKeeps(s, e.now); }
    else if e.EvDelete? { DeleteKeeps(s, e.ids); }
    else if !(e.EvEnqueue? && e.id in s.deleted) { DbStepKeeps(s.db, s.pruned, s.deleted, e); }
  }

  lemma {:induction false} Always(es: seq<Event>)
    ensures SysInv(Run(es))
    decreases |es|
  {
    hide SysInv, Step;
    if es == [] {
      StartInv();
    } else {
      Always(es[..|es| - 1]);
      StepKeeps(Run(es[..|es| - 1]), es[|es| - 1]);
    }
  }

  lemma StartInv()
    ensures SysInv(START)
  {
    forall k, day ensures DayOk(EMPTY, map[], map[], k, day) { NoMessages(k, day); }
  }

  lemma NoMessages(k: Kind, day: int)
    ensures DayOk(EMPTY, map[], map[], k, day)
  {
    assert RowsOn(map[] + EMPTY.rows, k, day) == {};
  }

  // ---------------------------------------------------------------- sums over the days

  ghost function Pick(days: set<int>): (d: int)
    requires |days| > 0
    ensures d in days
  {
    assert (forall d :: d !in days) ==> days == {};
    var d :| d in days; d
  }

  /** A counter summed over some days. */
  ghost function Total(stats: map<int, Daily>, k: Kind, days: set<int>): nat
    decreases |days|
  {
    if |days| == 0 then 0 else Of(On(stats, Pick(days)), k) + Total(stats, k, days - {Pick(days)})
  }

  function RowsIn(rows: map<Id, Row>, k: Kind, days: set<int>): set<Id> {
    set id | id in rows && Counts(rows[id], k) && DayOf(rows[id], k) in days
  }

  lemma RowsInSplit(rows: map<Id, Row>, k: Kind, days: set<int>, d: int)
    requires d in days
    ensures |RowsIn(rows, k, days)| == |RowsOn(rows, k, d)| + |RowsIn(rows, k, days - {d})|
  {
    hide DayOf, Counts;
    assert RowsIn(rows, k, days) == RowsOn(rows, k, d) + RowsIn(rows, k, days - {d});
    assert RowsOn(rows, k, d) !! RowsIn(rows, k, days - {d});
  }

  /** Two tables that together count the rows of every day count them all. */
  lemma {:induction false} TotalIn(a: map<int, Daily>, b: map<int, Daily>, rows: map<Id, Row>, k: Kind, days: set<int>)
    requires forall day :: DayAdds(a, b, rows, k, day)
    ensures Total(a, k, days) + Total(b, k, days) == |RowsIn(rows, k, days)|
    decreases |days|
  {
    hide On, RowsOn;
    if |days| == 0 {
      assert RowsIn(rows, k, days) == {};
    } else {
      var d := Pick(days);
      RowsInSplit(rows, k, days, d);
      TotalIn(a, b, rows, k, days - {d});
      assert DayAdds(a, b, rows, k, d);
    }
  }

  predicate DayAdds(a: map<int, Daily>, b: map<int, Daily>, rows: map<Id, Row>, k: Kind, day: int) {
    Of(On(a, day), k) + Of(On(b, day), k) == |RowsOn(rows, k, day)|
  }

  lemma {:induction false} TotalNothing(k: Kind, days: set<int>)
    ensures Total(map[], k, days) == 0
    decreases |days|
  {
    if |days| > 0 { TotalNothing(k, days - {Pick(days)}); }
  }

  function Counting(rows: map<Id, Row>, k: Kind): set<Id> {
    set id | id in rows && Counts(rows[id], k)
  }

  /** The days that have a row in the statistics, or had one. */
  function Days(s: Sys): set<int> {
    s.db.stats.Keys + s.pruned.Keys
  }

  /** A day on which a message counts is one of them. */
  lemma DaysCovered(s: Sys, k: Kind, id: Id)
    requires SysInv(s) && id in Counting(Ever(s), k)
    ensures DayOf(Ever(s)[id], k) in Days(s)
  {
    hide DayOf;
    var day := DayOf(Ever(s)[id], k);
    assert DayOk(s.db, s.pruned, s.deleted, k, day);
    assert id in RowsOn(Ever(s), k, day);
  }

  lemma TotalIsRows(s: Sys, k: Kind)
    requires SysInv(s)
    ensures AllDays(s, s.db.stats, k) + AllDays(s, s.pruned, k) == |Counting(Ever(s), k)|
  {
    forall day ensures DayAdds(s.db.stats, s.pruned, Ever(s), k, day) { assert DayOk(s.db, s.pruned, s.deleted, k, day); }
    TotalIn(s.db.stats, s.pruned, Ever(s), k, Days(s));
    forall id | id in Counting(Ever(s), k) ensures DayOf(Ever(s)[id], k) in Days(s) { DaysCovered(s, k, id); }
    hide SysInv, DayOf;
    assert RowsIn(Ever(s), k, Days(s)) == Counting(Ever(s), k);
  }

  lemma Disjoint(a: set<Id>, b: set<Id>, c: set<Id>, d: set<Id>, all: set<Id>)
    requires forall id :: id in all <==> id in a || id in b || id in c || id in d
    requires a !! b && a !! c && a !! d && b !! c && b !! d && c !! d
    ensures |all| == |a| + |b| + |c| + |d|
  {
    assert all == (a + b) + (c + d);
    assert (a + b) !! (c + d);
  }

  function Outstanding(rows: map<Id, Row>): set<Id> {
    set id | id in rows && !Terminal(rows[id])
  }

  /** Every row is sent, rejected, expired or outstanding, and only one of them. */
  lemma FourWays(rows: map<Id, Row>)
    ensures |Counting(rows, Enqueues)|
         == |Counting(rows, Sends)| + |Counting(rows, Rejections)| + |Counting(rows, Expiries)| + |Outstanding(rows)|
  {
    Disjoint(Counting(rows, Sends), Counting(rows, Rejections), Counting(rows, Expiries), Outstanding(rows),
             Counting(rows, Enqueues));
  }

  lemma UnionOutstanding(dead: map<Id, Row>, rows: map<Id, Row>)
    requires forall id :: id in rows ==> id !in dead
    ensures |Outstanding(dead + rows)| == |Outstanding(rows)| + |Outstanding(dead)|
  {
    hide Terminal;
    assert Outstanding(dead + rows) == Outstanding(rows) + Outstanding(dead);
    assert Outstanding(rows) !! Outstanding(dead);
  }

  lemma OutstandingSplit(s: Sys)
    requires SysInv(s)
    ensures |Outstanding(Ever(s))| == |Outstanding(s.db.rows)| + |Outstanding(s.deleted)|
  {
    hide DayOk, DayChecked, Outstanding;
    UnionOutstanding(s.deleted, s.db.rows);
  }

  // ---------------------------------------------------------------- conservation

  /** A counter, or what was pruned of it, summed over every day. */
  ghost function AllDays(s: Sys, stats: map<int, Daily>, k: Kind): nat {
    Total(stats, k, Days(s))
  }

  /** What a counter counted, pruned days included. */
  ghost function Counted(s: Sys, k: Kind): nat {
    AllDays(s, s.db.stats, k) + AllDays(s, s.pruned, k)
  }

  /** Summed over all days, what was enqueued was sent, rejected, expired, is outstanding, or was
      deleted while it was outstanding. */
  lemma {:induction false} Conservation(es: seq<Event>)
    ensures var s := Run(es);
      Counted(s, Enqueues) == Counted(s, Sends) + Counted(s, Rejections) + Counted(s, Expiries)
                              + |Outstanding(s.db.rows)| + |Outstanding(s.deleted)|
  {
    var s := Run(es);
    Always(es);
    TotalIsRows(s, Enqueues);
    TotalIsRows(s, Sends);
    TotalIsRows(s, Rejections);
    TotalIsRows(s, Expiries);
    FourWays(Ever(s));
    OutstandingSplit(s);
  }

  /** A day's counters with what was pruned of them are the messages enqueued, sent, rejected or, over
      both expiry paths, due on that day, deleted ones included; and a day never shows more rejections
      than failed attempts. */
  lemma {:induction false} DailyCounters(es: seq<Event>, k: Kind, day: int)
    ensures Of(On(Run(es).db.stats, day), k) + Of(On(Run(es).pruned, day), k) == |RowsOn(Ever(Run(es)), k, day)|
    ensures On(Run(es).db.stats, day).rejected <= On(Run(es).db.stats, day).failedAttempts
  {
    Always(es);
    assert DayOk(Run(es).db, Run(es).pruned, Run(es).deleted, k, day) && DayChecked(Run(es).db, day);
  }

  lemma UnionOn(dead: map<Id, Row>, rows: map<Id, Row>, k: Kind, day: int)
    requires forall id :: id in rows ==> id !in dead
    ensures |RowsOn(dead + rows, k, day)| == |RowsOn(rows, k, day)| + |RowsOn(dead, k, day)|
  {
    hide CountsOn;
    assert RowsOn(dead + rows, k, day) == RowsOn(rows, k, day) + RowsOn(dead, k, day);
    assert RowsOn(rows, k, day) !! RowsOn(dead, k, day);
  }

  lemma OnSplit(s: Sys, k: Kind, day: int)
    requires SysInv(s)
    ensures |RowsOn(Ever(s), k, day)| == |RowsOn(s.db.rows, k, day)| + |RowsOn(s.deleted, k, day)|
  {
    hide RowsOn, DayOk, DayChecked;
    UnionOn(s.deleted, s.db.rows, k, day);
  }

  /** A day's counter is the number of its rows in the table exactly when what was pruned of it is
      the number of messages counted on it that were deleted. */
  lemma {:induction false} DailyExactly(es: seq<Event>, k: Kind, day: int)
    ensures Of(On(Run(es).db.stats, day), k) == |RowsOn(Run(es).db.rows, k, day)|
       <==> Of(On(Run(es).pruned, day), k) == |RowsOn(Run(es).deleted, k, day)|
  {
    Always(es);
    DailyCounters(es, k, day);
    OnSplit(Run(es), k, day);
  }

  // ---------------------------------------------------------------- pruned and deleted

  /** Event `j` prunes the day after a message counted on it. */
  predicate PrunedAfterCount(es: seq<Event>, j: nat, k: Kind, day: int)
    requires j < |es|
  {
    es[j].EvPrune? && day < HistoryStart(es[j].now) && RowsOn(Ever(Run(es[..j])), k, day) != {}
  }

  ghost predicate EverPruned(es: seq<Event>, k: Kind, day: int) {
    exists j: nat :: j < |es| && PrunedAfterCount(es, j, k, day)
  }

  lemma {:induction false} EverPrunedSnoc(es: seq<Event>, k: Kind, day: int)
    requires es != []
    ensures EverPruned(es, k, day) <==> EverPruned(es[..|es| - 1], k, day) || PrunedAfterCount(es, |es| - 1, k, day)
  {
    hide HistoryStart, RowsOn, Run;
    var front := es[..|es| - 1];
    forall j: nat | j < |front| ensures PrunedAfterCount(es, j, k, day) <==> PrunedAfterCount(front, j, k, day) {
      assert front[..j] == es[..j];
    }
    if EverPruned(es, k, day) {
      var j: nat :| j < |es| && PrunedAfterCount(es, j, k, day);
      if j < |front| { assert PrunedAfterCount(front, j, k, day); }
    }
    if EverPruned(front, k, day) {
      var j: nat :| j < |front| && PrunedAfterCount(front, j, k, day);
      assert PrunedAfterCount(es, j, k, day);
    }
  }

  lemma StepPruned(s: Sys, e: Event, k: Kind, day: int)
    requires DayOk(s.db, s.pruned, s.deleted, k, day)
    ensures Of(On(Step(s, e).pruned, day), k) ==
      if e.EvPrune? && day < HistoryStart(e.now) then |RowsOn(Ever(s), k, day)| else Of(On(s.pruned, day), k)
  {
    hide DbStep, On, HistoryStart, RowsOn, AddPruned;
    if e.EvPrune? { PruneDay(s, e.now, k, day); }
  }

  lemma DayFact(s: Sys, k: Kind, day: int)
    requires SysInv(s)
    ensures DayOk(s.db, s.pruned, s.deleted, k, day)
  {}

  lemma {:induction false} PrunedIff(es: seq<Event>, k: Kind, day: int)
    ensures Of(On(Run(es).pruned, day), k) > 0 <==> EverPruned(es, k, day)
    decreases |es|
  {
    hide Step, SysInv, HistoryStart, EverPruned, RowsOn;
    if es == [] {
      NothingPruned(k, day);
    } else {
      var front, e := es[..|es| - 1], es[|es| - 1];
      PrunedIff(front, k, day);
      Always(front);
      DayFact(Run(front), k, day);
      StepPruned(Run(front), e, k, day);
      EverPrunedSnoc(es, k, day);
    }
  }

  lemma NothingPruned(k: Kind, day: int)
    ensures Of(On(START.pruned, day), k) == 0 && !EverPruned([], k, day)
  {}

  /** Event `j` deletes a message that counted on the day. */
  predicate DeletedAfterCount(es: seq<Event>, j: nat, k: Kind, day: int)
    requires j < |es|
  {
    es[j].EvDelete? && es[j].ids * RowsOn(Run(es[..j]).db.rows, k, day) != {}
  }

  ghost predicate EverDeleted(es: seq<Event>, k: Kind, day: int) {
    exists j: nat :: j < |es| && DeletedAfterCount(es, j, k, day)
  }

  lemma {:induction false} EverDeletedSnoc(es: seq<Event>, k: Kind, day: int)
    requires es != []
    ensures EverDeleted(es, k, day) <==> EverDeleted(es[..|es| - 1], k, day) || DeletedAfterCount(es, |es| - 1, k, day)
  {
    hide RowsOn, Run;
    var front := es[..|es| - 1];
    forall j: nat | j < |front| ensures DeletedAfterCount(es, j, k, day) <==> DeletedAfterCount(front, j, k, day) {
      assert front[..j] == es[..j];
    }
    if EverDeleted(es, k, day) {
      var j: nat :| j < |es| && DeletedAfterCount(es, j, k, day);
      if j < |front| { assert DeletedAfterCount(front, j, k, day); }
    }
    if EverDeleted(front, k, day) {
      var j: nat :| j < |front| && DeletedAfterCount(front, j, k, day);
      assert DeletedAfterCount(es, j, k, day);
    }
  }

  lemma StepDeleted(s: Sys, e: Event, k: Kind, day: int)
    requires SysInv(s)
    ensures RowsOn(Step(s, e).deleted, k, day) == RowsOn(s.deleted, k, day) + if e.EvDelete? then e.ids * RowsOn(s.db.rows, k, day) else {}
  {
    forall id | id in s.db.rows ensures id !in s.deleted { Alive(s.db, s.pruned, s.deleted, id); }
    hide DbStep, AddPruned, CountsOn, SysInv;
  }

  lemma {:induction false} DeletedIff(es: seq<Event>, k: Kind, day: int)
    ensures RowsOn(Run(es).deleted, k, day) != {} <==> EverDeleted(es, k, day)
    decreases |es|
  {
    hide Step, SysInv, EverDeleted, RowsOn;
    if es == [] {
      NothingDeleted(k, day);
    } else {
      var front, e := es[..|es| - 1], es[|es| - 1];
      DeletedIff(front, k, day);
      Always(front);
      StepDeleted(Run(front), e, k, day);
      EverDeletedSnoc(es, k, day);
    }
  }

  lemma NothingDeleted(k: Kind, day: int)
    ensures RowsOn(START.deleted, k, day) == {} && !EverDeleted([], k, day)
  {}

  /** On a day that was never pruned after a count, the counter is the number of its rows exactly
      when no message counted on it was ever deleted. */
  lemma {:induction false} NeverPrunedExactly(es: seq<Event>, k: Kind, day: int)
    requires !EverPruned(es, k, day)
    ensures Of(On(Run(es).db.stats, day), k) == |RowsOn(Run(es).db.rows, k, day)| <==> !EverDeleted(es, k, day)
  {
    hide RowsOn, On, Run, EverPruned, EverDeleted;
    DailyExactly(es, k, day);
    PrunedIff(es, k, day);
    DeletedIff(es, k, day);
  }

  /** In particular on every day that all refreshes so far have kept. */
  lemma {:induction false} RetainedDaysExact(es: seq<Event>, k: Kind, day: int)
    requires forall j :: 0 <= j < |es| && es[j].EvPrune? ==> HistoryStart(es[j].now) <= day
    ensures Of(On(Run(es).db.stats, day), k) == |RowsOn(Run(es).db.rows, k, day)| <==> !EverDeleted(es, k, day)
  {
    NeverPrunedExactly(es, k, day);
  }

  const QUEUED := EvEnqueue(0, "x", 0, 1, 0)

  /** A message is queued; ninety days later the refresh forgets that day. */
  const FORGOTTEN := [QUEUED, EvPrune(90 * DAY)]

  /** A message is queued, and deleted with its user. */
  const CASCADED := [QUEUED, EvDelete({0})]

  lemma OneQueued()
    ensures Run([QUEUED]).db.rows == map[0 := Row("x", Pending, 0, 0, 1, 0)]
    ensures 0 in RowsOn(Run([QUEUED]).db.rows, Enqueues, 0) && 0 in RowsOn(Ever(Run([QUEUED])), Enqueues, 0)
  {
    assert [QUEUED][..0] == [];
    assert Run([QUEUED]) == Step(START, QUEUED);
  }

  lemma ForgottenPruned()
    ensures EverPruned(FORGOTTEN, Enqueues, 0) && !EverDeleted(FORGOTTEN, Enqueues, 0)
  {
    OneQueued();
    assert FORGOTTEN[..1] == [QUEUED];
    hide Run;
    assert PrunedAfterCount(FORGOTTEN, 1, Enqueues, 0);
  }

  /** The unrestricted statement fails: one message is enqueued, its day counts none. */
  lemma PrunedDayDiffers()
    ensures Of(On(Run(FORGOTTEN).db.stats, 0), Enqueues) != |RowsOn(Run(FORGOTTEN).db.rows, Enqueues, 0)|
  {
    hide Run, EverPruned, EverDeleted, On, RowsOn;
    ForgottenPruned();
    DailyExactly(FORGOTTEN, Enqueues, 0);
    PrunedIff(FORGOTTEN, Enqueues, 0);
    DeletedIff(FORGOTTEN, Enqueues, 0);
  }

  lemma CascadedDeleted()
    ensures EverDeleted(CASCADED, Enqueues, 0) && !EverPruned(CASCADED, Enqueues, 0)
  {
    OneQueued();
    assert CASCADED[..1] == [QUEUED];
    hide Run;
    assert 0 in {0} * RowsOn(Run([QUEUED]).db.rows, Enqueues, 0);
    assert DeletedAfterCount(CASCADED, 1, Enqueues, 0);
  }

  /** It also fails on a day that nothing pruned: the message is gone, its day still counts it. */
  lemma DeletedDayDiffers()
    ensures !EverPruned(CASCADED, Enqueues, 0)
    ensures Of(On(Run(CASCADED).db.stats, 0), Enqueues) != |RowsOn(Run(CASCADED).db.rows, Enqueues, 0)|
  {
    hide Run, EverPruned, EverDeleted, On, RowsOn;
    CascadedDeleted();
    NeverPrunedExactly(CASCADED, Enqueues, 0);
  }

  // ---------------------------------------------------------------- rows

  /** The ciphertext is empty exactly on terminal rows. */
  lemma {:induction false} CipherGoneIffTerminal(es: seq<Event>, id: Id)
    requires id in Run(es).db.rows
    ensures Run(es).db.rows[id].cipher == "" <==> Terminal(Run(es).db.rows[id])
  {
    Always(es);
    Alive(Run(es).db, Run(es).pruned, Run(es).deleted, id);
  }

  /** What may become of a row: it keeps its creation time, and once terminal it is left alone. */
  predicate RowLater(a: Row, b: Row) {
    b.createdAt == a.createdAt && (Terminal(a) ==> b == a)
  }

  lemma {:induction false} ExpireAllLater(db: Db, ids: seq<Id>, now: int, id: Id)
    requires id in db.rows
    ensures id in ExpireAll(db, ids, now).rows && RowLater(db.rows[id], ExpireAll(db, ids, now).rows[id])
  {
    hide AddDaily;
    if ids != [] { ExpireAllLater(db, ids[..|ids| - 1], now, id); }
  }

  lemma DbStepLater(db: Db, e: Event, id: Id)
    requires id in db.rows && !e.EvDelete?
    ensures id in DbStep(db, e).rows && RowLater(db.rows[id], DbStep(db, e).rows[id])
  {
    hide AddDaily, AddMinute, ExpireAll;
    if e.EvExpire? { ExpireAllLater(db, e.due, e.now, id); }
  }

  /** A step loses no message, deletes none twice, and brings none back. */
  predicate MessageLater(s: Sys, t: Sys, id: Id) {
    && (id in Ever(s) ==> id in Ever(t) && RowLater(Ever(s)[id], Ever(t)[id]))
    && (id in s.deleted ==> id in t.deleted && t.deleted[id] == s.deleted[id] && id !in t.db.rows)
  }

  lemma StepLater(s: Sys, e: Event, id: Id)
    requires SysInv(s)
    ensures MessageLater(s, Step(s, e), id)
  {
    if id in s.db.rows { Alive(s.db, s.pruned, s.deleted, id); }
    if id in s.db.rows && !e.EvDelete? { DbStepLater(s.db, e, id); }
    DeletedStays(s, e, id);
    hide SysInv, DbStep, AddPruned;
    if e.EvDelete? { assert DbStep(s.db, e).rows == s.db.rows - e.ids by { DeleteMoves(s, e.ids); } }
  }

  lemma {:induction false} ExpireAllKeys(db: Db, ids: seq<Id>, now: int)
    ensures ExpireAll(db, ids, now).rows.Keys == db.rows.Keys
  {
    hide AddDaily;
    if ids != [] { ExpireAllKeys(db, ids[..|ids| - 1], now); }
  }

  lemma DeletedStays(s: Sys, e: Event, id: Id)
    requires SysInv(s)
    ensures id in s.deleted ==> id !in Step(s, e).db.rows
  {
    if id in s.deleted && id in s.db.rows { Alive(s.db, s.pruned, s.deleted, id); }
    hide SysInv, AddDaily, AddMinute, Eligible, ExpireAll, AddPruned;
    if e.EvExpire? { ExpireAllKeys(s.db, e.due, e.now); }
  }

  lemma LaterTransitive(s: Sys, t: Sys, u: Sys, id: Id)
    requires MessageLater(s, t, id) && MessageLater(t, u, id)
    ensures MessageLater(s, u, id)
  {}

  /** A sent, rejected or expired row is never changed: it stays as it is, or was deleted so; and a
      deleted message never comes back. */
  lemma {:induction false} TerminalForever(es: seq<Event>, n: nat, id: Id)
    requires n <= |es|
    ensures MessageLater(Run(es[..n]), Run(es), id)
    decreases |es|
  {
    hide Step, SysInv;
    if n == |es| {
      assert es[..n] == es;
      Always(es);
      AliveOnce(Run(es), id);
    } else {
      var front := es[..|es| - 1];
      assert front[..n] == es[..n];
      TerminalForever(front, n, id);
      Always(front);
      StepLater(Run(front), es[|es| - 1], id);
      hide Run, MessageLater;
      LaterTransitive(Run(front[..n]), Run(front), Step(Run(front), es[|es| - 1]), id);
    }
  }

  lemma AliveOnce(s: Sys, id: Id)
    requires SysInv(s)
    ensures MessageLater(s, s, id)
  {
    if id in s.db.rows { Alive(s.db, s.pruned, s.deleted, id); }
  }

  // ---------------------------------------------------------------- the table alone

  /** The messages that had counted as `k` on a day when a refresh pruned it. */
  function Forgotten(es: seq<Event>, k: Kind): set<Id>
    decreases |es|
  {
    if es == [] then {}
    else
      var front, e := es[..|es| - 1], es[|es| - 1];
      Forgotten(front, k) + if e.EvPrune? then CountedBefore(Ever(Run(front)), k, HistoryStart(e.now)) else {}
  }

  function CountedBefore(rows: map<Id, Row>, k: Kind, start: int): set<Id> {
    set id | id in rows && Counts(rows[id], k) && DayOf(rows[id], k) < start
  }

  function Only(rows: map<Id, Row>, some: set<Id>): map<Id, Row> {
    map id | id in rows && id in some :: rows[id]
  }

  lemma CountsLater(s: Sys, t: Sys, id: Id, k: Kind)
    requires MessageLater(s, t, id) && id in Ever(s) && Counts(Ever(s)[id], k)
    ensures id in Ever(t) && Counts(Ever(t)[id], k) && DayOf(Ever(t)[id], k) == DayOf(Ever(s)[id], k)
  {
    hide Day;
  }

  lemma {:induction false} ForgottenCount(es: seq<Event>, k: Kind, id: Id)
    requires id in Forgotten(es, k)
    ensures id in Ever(Run(es)) && Counts(Ever(Run(es))[id], k)
    decreases |es|
  {
    hide Step, SysInv, DayOf, HistoryStart, Ever;
    var front, e := es[..|es| - 1], es[|es| - 1];
    if id in Forgotten(front, k) { ForgottenCount(front, k, id); }
    Always(front);
    StepLater(Run(front), e, id);
    CountsLater(Run(front), Run(es), id, k);
  }

  /** A step that is no prune leaves what was forgotten of a day. */
  lemma ForgottenStays(s: Sys, e: Event, some: set<Id>, k: Kind, day: int)
    requires SysInv(s) && forall id :: id in some ==> id in Ever(s) && Counts(Ever(s)[id], k)
    ensures RowsOn(Only(Ever(Step(s, e)), some), k, day) == RowsOn(Only(Ever(s), some), k, day)
  {
    var t := Step(s, e);
    forall id | id in some ensures id in Ever(t) && CountsOn(Ever(t)[id], k, day) == CountsOn(Ever(s)[id], k, day) {
      StepLater(s, e, id);
      CountsLater(s, t, id, k);
    }
    hide Step, SysInv, CountsOn, Ever;
  }

  /** A prune forgets every message that counted on a day before the history. */
  lemma ForgottenGrows(rows: map<Id, Row>, some: set<Id>, k: Kind, start: int, day: int)
    ensures var more := some + CountedBefore(rows, k, start);
      RowsOn(Only(rows, more), k, day) == if day < start then RowsOn(rows, k, day) else RowsOn(Only(rows, some), k, day)
  {
    hide DayOf, Counts;
  }

  lemma ForgottenPrune(s: Sys, now: int, some: set<Id>, k: Kind, day: int)
    requires SysInv(s) && Of(On(s.pruned, day), k) == |RowsOn(Only(Ever(s), some), k, day)|
    ensures var t := Step(s, EvPrune(now));
      Of(On(t.pruned, day), k) == |RowsOn(Only(Ever(t), some + CountedBefore(Ever(s), k, HistoryStart(now))), k, day)|
  {
    DayFact(s, k, day);
    PruneLeavesRows(s, now);
    hide SysInv, Step, On, HistoryStart, RowsOn, Only, CountedBefore;
    StepPruned(s, EvPrune(now), k, day);
    ForgottenGrows(Ever(s), some, k, HistoryStart(now), day);
  }

  lemma NothingForgotten(k: Kind, day: int)
    ensures Of(On(START.pruned, day), k) == |RowsOn(Only(Ever(START), {}), k, day)|
  {
    assert Only(Ever(START), {}) == map[];
    assert RowsOn(map[], k, day) == {};
  }

  lemma {:induction false} PrunedRows(es: seq<Event>, k: Kind, day: int)
    ensures Of(On(Run(es).pruned, day), k) == |RowsOn(Only(Ever(Run(es)), Forgotten(es, k)), k, day)|
    decreases |es|
  {
    hide Step, SysInv, On, RowsOn, Only, CountedBefore, Ever;
    if es == [] {
      NothingForgotten(k, day);
    } else {
      var front, e := es[..|es| - 1], es[|es| - 1];
      PrunedRows(front, k, day);
      Always(front);
      if e.EvPrune? {
        ForgottenPrune(Run(front), e.now, Forgotten(front, k), k, day);
      } else {
        forall id | id in Forgotten(front, k) ensures id in Ever(Run(front)) && Counts(Ever(Run(front))[id], k) { ForgottenCount(front, k, id); }
        hide Counts;
        assert Forgotten(es, k) == Forgotten(front, k);
        ForgottenStays(Run(front), e, Forgotten(front, k), k, day);
        DayFact(Run(front), k, day);
        StepPruned(Run(front), e, k, day);
      }
    }
  }

  /** What was pruned of a counter, over all days, is the number of messages it forgot. */
  lemma {:induction false} PrunedAdds(es: seq<Event>, k: Kind, day: int)
    ensures DayAdds(Run(es).pruned, map[], Only(Ever(Run(es)), Forgotten(es, k)), k, day)
  {
    PrunedRows(es, k, day);
    OfOn(map[], k, day);
    hide Run, On, RowsOn, Only, Forgotten;
  }

  lemma {:induction false} ForgottenIn(es: seq<Event>, k: Kind)
    ensures RowsIn(Only(Ever(Run(es)), Forgotten(es, k)), k, Days(Run(es))) == Forgotten(es, k)
  {
    var s := Run(es);
    Always(es);
    hide Run, SysInv, Ever, Days;
    forall id | id in Forgotten(es, k) ensures id in Ever(s) && Counts(Ever(s)[id], k) && DayOf(Ever(s)[id], k) in Days(s) {
      ForgottenCount(es, k, id);
      DaysCovered(s, k, id);
    }
    hide Forgotten, DayOf, Counts;
  }

  lemma {:induction false} PrunedTotal(es: seq<Event>, k: Kind)
    ensures AllDays(Run(es), Run(es).pruned, k) == |Forgotten(es, k)|
  {
    hide DayAdds, Run, Only, Forgotten, RowsIn, Days, On;
    var s := Run(es);
    var rows := Only(Ever(s), Forgotten(es, k));
    forall day ensures DayAdds(s.pruned, map[], rows, k, day) { PrunedAdds(es, k, day); }
    TotalIn(s.pruned, map[], rows, k, Days(s));
    TotalNothing(k, Days(s));
    ForgottenIn(es, k);
  }

  /** The table alone balances exactly when as many messages were enqueued on forgotten days as were
      sent, rejected or expired on forgotten days or deleted while outstanding. */
  lemma {:induction false} TableBalancesExactly(es: seq<Event>)
    ensures var s := Run(es);
      (AllDays(s, s.db.stats, Enqueues) == AllDays(s, s.db.stats, Sends) + AllDays(s, s.db.stats, Rejections)
                                         + AllDays(s, s.db.stats, Expiries) + |Outstanding(s.db.rows)|)
      <==>
      (|Forgotten(es, Enqueues)| == |Forgotten(es, Sends)| + |Forgotten(es, Rejections)| + |Forgotten(es, Expiries)| + |Outstanding(s.deleted)|)
  {
    hide Run, AllDays, Forgotten;
    Conservation(es);
    PrunedTotal(es, Enqueues);
    PrunedTotal(es, Sends);
    PrunedTotal(es, Rejections);
    PrunedTotal(es, Expiries);
  }
}

/** The imperative form of the email outbox store, proved against the transactions of EmailModel.
    The expiry job is the interesting one: it updates its rows at once and fills one bucket per day,
    which is the same as expiring and counting the messages one after the other. */
module EmailStore {
  import opened Base
  import opened EmailModel

  const MAX_EXPIRY_BATCH := 5000

  datatype Bucket = Bucket(expiresAt: int, count: nat)

  /** How many of the messages are due on `day`. */
  function DueOn(rows: map<Id, Row>, ids: seq<Id>, day: int): nat
    requires forall i :: 0 <= i < |ids| ==> ids[i] in rows
  {
    if ids == [] then 0
    else DueOn(rows, ids[..|ids| - 1], day) + if Day(rows[ids[|ids| - 1]].expiresAt) == day then 1 else 0
  }

  function IdSet(ids: seq<Id>): set<Id> {
    set i | 0 <= i < |ids| :: ids[i]
  }

  /** The messages whose deadline has passed, with their deadlines. */
  function Deadlines(rows: map<Id, Row>, now: int): map<Id, int> {
    map id | id in rows && Overdue(rows[id], now) :: rows[id].expiresAt
  }

  /** An account action token: its encrypted payload goes when it expires unused. */
  datatype Token = Token(consumed: bool, revoked: Option<string>, expiresAt: int, payload: string)

  predicate TokenOverdue(t: Token, now: int) {
    !t.consumed && t.revoked.None? && t.expiresAt <= now
  }

  function TokenDeadlines(tokens: map<Id, Token>, now: int): map<Id, int> {
    map id | id in tokens && TokenOverdue(tokens[id], now) :: tokens[id].expiresAt
  }

  function ExpiredTokens(tokens: map<Id, Token>, some: set<Id>): map<Id, Token> {
    map id | id in tokens :: if id in some then tokens[id].(revoked := Some("expired"), payload := "") else tokens[id]
  }

  /** The order of both expiry queries: expires_at, id. */
  predicate NotAfter(deadlines: map<Id, int>, a: Id, b: Id)
    requires a in deadlines && b in deadlines
  {
    deadlines[a] < deadlines[b] || (deadlines[a] == deadlines[b] && a <= b)
  }

  /** Due, and not locked by another transaction. */
  predicate Open(deadlines: map<Id, int>, busy: set<Id>, id: Id) {
    id in deadlines && id !in busy
  }

  /** The first `limit` that are open, each once. */
  ghost predicate FirstDue(deadlines: map<Id, int>, busy: set<Id>, ids: seq<Id>, limit: nat) {
    && |ids| <= limit
    && (forall i :: 0 <= i < |ids| ==> Open(deadlines, busy, ids[i]))
    && (forall i, j :: 0 <= i < j < |ids| ==> ids[i] != ids[j])
    && (forall id, i :: Open(deadlines, busy, id) && id !in IdSet(ids) && 0 <= i < |ids| ==> NotAfter(deadlines, ids[i], id))
    && (|ids| < limit ==> forall id :: Open(deadlines, busy, id) ==> id in IdSet(ids))
  }

  predicate Due(rows: map<Id, Row>, id: Id, now: int) {
    id in rows && Overdue(rows[id], now)
  }

  function ExpiredRow(row: Row): Row {
    row.(status := Expired, cipher := "")
  }

  function ExpiredRows(rows: map<Id, Row>, some: set<Id>): map<Id, Row> {
    map id | id in rows :: if id in some then ExpiredRow(rows[id]) else rows[id]
  }

  lemma IdSetSnoc(ids: seq<Id>, id: Id)
    ensures IdSet(ids + [id]) == IdSet(ids) + {id}
  {
    forall x | x in IdSet(ids) ensures x in IdSet(ids + [id]) {
      var i :| 0 <= i < |ids| && ids[i] == x;
      assert (ids + [id])[i] == x;
    }
    assert (ids + [id])[|ids|] == id;
  }

  ghost predicate AllDue(rows: map<Id, Row>, ids: seq<Id>, now: int) {
    && (forall i :: 0 <= i < |ids| ==> Due(rows, ids[i], now))
    && (forall i, j :: 0 <= i < j < |ids| ==> ids[i] != ids[j])
  }

  /** What expiring the messages one by one does to the rows. */
  lemma {:induction false} OneByOneRows(db: Db, ids: seq<Id>, now: int)
    requires AllDue(db.rows, ids, now)
    ensures ExpireAll(db, ids, now).rows == ExpiredRows(db.rows, IdSet(ids)) && ExpireAll(db, ids, now).minutes == db.minutes
  {
    hide AddDaily;
    if ids != [] {
      var front, id := ids[..|ids| - 1], ids[|ids| - 1];
      OneByOneRows(db, front, now);
      IdSetSnoc(front, id);
      assert front + [id] == ids;
      assert id !in IdSet(front);
    }
  }

  /** What a day's counters become when `n` more messages due on it have expired. */
  function More(was: Daily, n: nat): Daily {
    if n == 0 then was else was.(expired := was.expired + n)
  }

  /** The counters after the messages were counted, whatever the way. */
  ghost predicate Tallied(before: map<int, Daily>, after: map<int, Daily>, rows: map<Id, Row>, ids: seq<Id>)
    requires forall i :: 0 <= i < |ids| ==> ids[i] in rows
  {
    forall day :: Tally(before, after, day, DueOn(rows, ids, day))
  }

  predicate Tally(before: map<int, Daily>, after: map<int, Daily>, day: int, n: nat) {
    && (day in after <==> day in before || n > 0)
    && On(after, day) == More(On(before, day), n)
  }

  lemma Adding(was: map<int, Daily>, t: int, n: nat, day: int)
    requires n > 0
    ensures var after := AddDaily(was, t, NOTHING.(expired := n));
      && (day in after <==> day in was || Day(t) == day)
      && On(after, day) == if Day(t) == day then More(On(was, day), n) else On(was, day)
  {
    hide Day;
  }

  lemma AddedTally(before: map<int, Daily>, was: map<int, Daily>, t: int, day: int, n: nat)
    requires Tally(before, was, day, n)
    ensures Tally(before, AddDaily(was, t, NOTHING.(expired := 1)), day, n + if Day(t) == day then 1 else 0)
  {
    hide Day, AddDaily, On;
    Adding(was, t, 1, day);
  }

  lemma {:induction false} OneByOneStats(db: Db, ids: seq<Id>, now: int)
    requires AllDue(db.rows, ids, now)
    ensures Tallied(db.stats, ExpireAll(db, ids, now).stats, db.rows, ids)
  {
    if ids != [] {
      var front, id := ids[..|ids| - 1], ids[|ids| - 1];
      OneByOneRows(db, front, now);
      OneByOneStats(db, front, now);
      var was := ExpireAll(db, front, now);
      assert id !in IdSet(front);
      assert was.rows[id] == db.rows[id];
      hide AddDaily, Day, On;
      forall day ensures Tally(db.stats, ExpireAll(db, ids, now).stats, day, DueOn(db.rows, ids, day)) {
        assert Tally(db.stats, was.stats, day, DueOn(db.rows, front, day));
        AddedTally(db.stats, was.stats, db.rows[id].expiresAt, day, DueOn(db.rows, front, day));
      }
    }
  }

  /** The tally determines the table. */
  lemma TallyDetermines(before: map<int, Daily>, a: map<int, Daily>, b: map<int, Daily>, rows: map<Id, Row>, ids: seq<Id>)
    requires forall i :: 0 <= i < |ids| ==> ids[i] in rows
    requires Tallied(before, a, rows, ids) && Tallied(before, b, rows, ids)
    ensures a == b
  {
    forall day ensures (day in a <==> day in b) && (day in a ==> a[day] == b[day]) {
      assert Tally(before, a, day, DueOn(rows, ids, day)) && Tally(before, b, day, DueOn(rows, ids, day));
    }
  }

  /** The bucket of a day holds how many messages are due on it and one of their deadlines. */
  predicate BucketOk(buckets: map<int, Bucket>, rows: map<Id, Row>, ids: seq<Id>, day: int)
    requires forall i :: 0 <= i < |ids| ==> ids[i] in rows
  {
    if day in buckets
    then Day(buckets[day].expiresAt) == day && buckets[day].count == DueOn(rows, ids, day) > 0
    else DueOn(rows, ids, day) == 0
  }

  /** The first that is open and not in `taken`. */
  method NextDue(deadlines: map<Id, int>, busy: set<Id>, taken: set<Id>) returns (o: Option<Id>)
    ensures o.None? ==> forall id :: Open(deadlines, busy, id) ==> id in taken
    ensures o.Some? ==> Open(deadlines, busy, o.value) && o.value !in taken
    ensures o.Some? ==> forall id :: Open(deadlines, busy, id) && id !in taken ==> NotAfter(deadlines, o.value, id)
  {
    o := None;
    var left := deadlines.Keys - taken - busy;
    while left != {}
      invariant left <= deadlines.Keys - taken - busy
      invariant o.Some? ==> Open(deadlines, busy, o.value) && o.value !in taken
      invariant forall id :: Open(deadlines, busy, id) && id !in taken && id !in left ==> o.Some? && NotAfter(deadlines, o.value, id)
      decreases left
    {
      var id :| id in left;
      left := left - {id};
      if o.None? || NotAfter(deadlines, id, o.value) { o := Some(id); }
    }
  }

  /** The query of both expiry statements. */
  method DueBatch(deadlines: map<Id, int>, busy: set<Id>, limit: nat) returns (ids: seq<Id>)
    ensures FirstDue(deadlines, busy, ids, limit)
  {
    ids := [];
    while |ids| < limit
      invariant |ids| <= limit && FirstDue(deadlines, busy, ids, |ids|)
    {
      var o := NextDue(deadlines, busy, IdSet(ids));
      if o.None? { return; }
      IdSetSnoc(ids, o.value);
      ids := ids + [o.value];
    }
  }

  /** The messages still to be sent in time. */
  function Live(rows: map<Id, Row>, now: int): set<Id> {
    set id | id in rows && !Terminal(rows[id]) && now < rows[id].expiresAt
  }

  class Store {
    var rows: map<Id, Row>
    var stats: map<int, Daily>
    var minutes: map<int, nat>
    var tokens: map<Id, Token>

    ghost function View(): Db
      reads this
    {
      Db(rows, stats, minutes)
    }

    constructor ()
      ensures View() == EMPTY && tokens == map[]
    {
      rows, stats, minutes, tokens := map[], map[], map[], map[];
    }

    method AddMailDaily(t: int, delta: Daily)
      modifies this`stats
      ensures stats == AddDaily(old(stats), t, delta)
    {
      if delta == NOTHING { return; }
      var was := if Day(t) in stats then stats[Day(t)] else NOTHING;
      stats := stats[Day(t) := Plus(was, delta)];
    }

    method AddMailFailureMinute(t: int)
      modifies this`minutes
      ensures minutes == AddMinute(old(minutes), t)
    {
      var was := if Minute(t) in minutes then minutes[Minute(t)] else 0;
      minutes := minutes[Minute(t) := was + 1];
    }

    method InsertOutboxEmail(id: Id, cipher: string, availableAt: int, expiresAt: int, createdAt: int) returns (ok: bool)
      modifies this`rows, this`stats, this`minutes
      ensures ok <==> Enqueue(old(View()), id, cipher, availableAt, expiresAt, createdAt).Some?
      ensures View() == Or(Enqueue(old(View()), id, cipher, availableAt, expiresAt, createdAt), old(View()))
    {
      if id in rows || expiresAt <= createdAt { return false; }
      rows := rows[id := Row(cipher, Pending, 0, availableAt, expiresAt, createdAt)];
      AddMailDaily(createdAt, NOTHING.(enqueued := 1));
      return true;
    }

    method MarkEmailSent(id: Id, worker: Worker, now: int) returns (ok: bool)
      modifies this`rows, this`stats, this`minutes
      ensures ok <==> MarkSent(old(View()), id, worker, now).Some?
      ensures View() == Or(MarkSent(old(View()), id, worker, now), old(View()))
    {
      if id !in rows || !rows[id].status.Sending? || rows[id].status.lockedBy != worker { return false; }
      rows := rows[id := rows[id].(status := Sent(now), cipher := "")];
      AddMailDaily(now, NOTHING.(sent := 1));
      return true;
    }

    method MarkEmailFailed(id: Id, worker: Worker, retryAt: int, now: int) returns (ok: bool)
      modifies this`rows, this`stats, this`minutes
      ensures ok <==> MarkFailed(old(View()), id, worker, retryAt, now).Some?
      ensures View() == Or(MarkFailed(old(View()), id, worker, retryAt, now), old(View()))
    {
      hide AddDaily, AddMinute;
      if id !in rows || !rows[id].status.Sending? || rows[id].status.lockedBy != worker { return false; }
      var row := rows[id];
      var late := row.expiresAt <= now;
      rows := rows[id := if late then ExpiredRow(row) else row.(status := Failed, availableAt := retryAt)];
      AddMailDaily(now, NOTHING.(failedAttempts := 1));
      AddMailFailureMinute(now);
      if late { AddMailDaily(row.expiresAt, NOTHING.(expired := 1)); }
      return true;
    }

    method MarkEmailRejected(id: Id, worker: Worker, now: int) returns (ok: bool)
      modifies this`rows, this`stats, this`minutes
      ensures ok <==> MarkRejected(old(View()), id, worker, now).Some?
      ensures View() == Or(MarkRejected(old(View()), id, worker, now), old(View()))
    {
      if id !in rows || !rows[id].status.Sending? || rows[id].status.lockedBy != worker { return false; }
      rows := rows[id := rows[id].(status := Rejected(now), cipher := "")];
      AddMailDaily(now, NOTHING.(failedAttempts := 1, rejected := 1));
      AddMailFailureMinute(now);
      return true;
    }

    /** One bucket per day on which some of the messages are due. */
    method FillBuckets(ids: seq<Id>) returns (buckets: map<int, Bucket>)
      requires forall i :: 0 <= i < |ids| ==> ids[i] in rows
      ensures forall day :: BucketOk(buckets, rows, ids, day)
    {
      buckets := map[];
      var i := 0;
      while i < |ids|
        invariant 0 <= i <= |ids|
        invariant forall day :: BucketOk(buckets, rows, ids[..i], day)
      {
        var expiresAt := rows[ids[i]].expiresAt;
        var day := Day(expiresAt);
        var count := if day in buckets then buckets[day].count else 0;
        ghost var was := buckets;
        buckets := buckets[day := Bucket(expiresAt, count + 1)];
        assert ids[..i + 1][..i] == ids[..i];
        ghost var done := ids[..i + 1];
        forall d ensures BucketOk(buckets, rows, done, d) { assert BucketOk(was, rows, ids[..i], d); }
        i := i + 1;
      }
      assert ids[..i] == ids;
    }

    /** Adds every bucket to its day. */
    method AddBuckets(buckets: map<int, Bucket>, ghost was: map<Id, Row>, ghost ids: seq<Id>)
      requires forall i :: 0 <= i < |ids| ==> ids[i] in was
      requires forall day :: BucketOk(buckets, was, ids, day)
      modifies this`stats
      ensures Tallied(old(stats), stats, was, ids)
    {
      hide On, Day, AddDaily;
      var left := buckets.Keys;
      forall day ensures Tally(old(stats), stats, day, if day in left then 0 else DueOn(was, ids, day)) {
        assert BucketOk(buckets, was, ids, day);
      }
      while left != {}
        invariant left <= buckets.Keys
        invariant forall day :: Tally(old(stats), stats, day, if day in left then 0 else DueOn(was, ids, day))
        decreases left
      {
        assert (forall d :: d !in left) ==> left == {};
        var day :| day in left;
        ghost var prior, todo := stats, left;
        AddMailDaily(buckets[day].expiresAt, NOTHING.(expired := buckets[day].count));
        left := left - {day};
        assert BucketOk(buckets, was, ids, day);
        forall d ensures Tally(old(stats), stats, d, if d in left then 0 else DueOn(was, ids, d)) {
          assert Tally(old(stats), prior, d, if d in todo then 0 else DueOn(was, ids, d));
          Adding(prior, buckets[day].expiresAt, buckets[day].count, d);
        }
      }
    }

    /** The expiry job: tokens lose their payload, and messages are expired and counted, by buckets
        that count what expiring one message after the other would. `busy` are the messages, and
        `busyTokens` the tokens, that other transactions have locked. */
    method ExpireEmailArtifacts(now: int, limit: nat, busy: set<Id>, busyTokens: set<Id>)
      returns (r: Result<nat, ()>, ghost ids: seq<Id>, ghost tokenIds: seq<Id>)
      modifies this
      ensures r.Ok? <==> 1 <= limit <= MAX_EXPIRY_BATCH
      ensures r.Err? ==> View() == old(View()) && tokens == old(tokens)
      ensures r.Ok? ==> FirstDue(Deadlines(old(rows), now), busy, ids, limit) && View() == ExpireAll(old(View()), ids, now)
      ensures r.Ok? ==> FirstDue(TokenDeadlines(old(tokens), now), busyTokens, tokenIds, limit)
                        && tokens == ExpiredTokens(old(tokens), IdSet(tokenIds))
      ensures r.Ok? ==> r.value == |tokenIds| + |ids|
    {
      if limit < 1 || limit > MAX_EXPIRY_BATCH { return Err(()), [], []; }
      var revoked := DueBatch(TokenDeadlines(tokens, now), busyTokens, limit);
      tokens := ExpiredTokens(tokens, IdSet(revoked));
      var batch := DueBatch(Deadlines(rows, now), busy, limit);
      assert forall i :: 0 <= i < |batch| ==> Open(Deadlines(rows, now), busy, batch[i]);
      var buckets := FillBuckets(batch);
      OneByOneRows(View(), batch, now);
      OneByOneStats(View(), batch, now);
      var taken := IdSet(batch);
      rows := map id | id in rows :: if id in taken then ExpiredRow(rows[id]) else rows[id];
      AddBuckets(buckets, old(rows), batch);
      TallyDetermines(old(stats), stats, ExpireAll(old(View()), batch, now).stats, old(rows), batch);
      return Ok(|revoked| + |batch|), batch, revoked;
    }

    /** How many messages are still to be sent in time, and the age of the oldest. */
    method EmailOutboxBacklog(now: int) returns (backlog: nat, oldest: int)
      ensures backlog == |Live(rows, now)| && oldest >= 0
      ensures forall id :: id in Live(rows, now) ==> now - rows[id].createdAt <= oldest
      ensures oldest > 0 ==> exists id :: id in Live(rows, now) && rows[id].createdAt == now - oldest
    {
      backlog, oldest := 0, 0;
      var left := rows.Keys;
      assert Live(rows, now) - left == {};
      while left != {}
        invariant left <= rows.Keys && oldest >= 0
        invariant backlog == |Live(rows, now) - left|
        invariant forall id :: id in Live(rows, now) && id !in left ==> now - rows[id].createdAt <= oldest
        invariant oldest > 0 ==> exists id :: id in Live(rows, now) && rows[id].createdAt == now - oldest
        decreases left
      {
        var id :| id in left;
        if !Terminal(rows[id]) && now < rows[id].expiresAt {
          assert Live(rows, now) - (left - {id}) == (Live(rows, now) - left) + {id};
          backlog := backlog + 1;
          if now - rows[id].createdAt > oldest { oldest := now - rows[id].createdAt; }
        } else {
          assert Live(rows, now) - (left - {id}) == Live(rows, now) - left;
        }
        left := left - {id};
      }
      assert Live(rows, now) - left == Live(rows, now);
    }
  }
}

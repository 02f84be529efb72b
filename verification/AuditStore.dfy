/** The imperative form of the audit outbox store and its dispatcher: tables updated in place,
    proved against the transactions of AuditModel. */
module AuditStore {
  import opened Base
  import opened AuditModel

  const MAX_BATCH := 100

  /** What a dispatcher gets for a claimed row. */
  datatype Item = Item(id: Id, body: Body, attempts: nat)

  /** The order of the claim query: available_at, created_at. */
  predicate NotAfter(a: Row, b: Row) {
    a.availableAt < b.availableAt || (a.availableAt == b.availableAt && a.body.createdAt <= b.body.createdAt)
  }

  /** `id` may be claimed: it is not among the rows that another transaction has locked. */
  predicate Open(outbox: map<Id, Row>, busy: set<Id>, id: Id, now: int, lease: int) {
    id in outbox && id !in busy && Eligible(outbox[id], now, lease)
  }

  function Ids(batch: seq<Item>): set<Id> {
    set i | 0 <= i < |batch| :: batch[i].id
  }

  predicate ItemOf(outbox: map<Id, Row>, busy: set<Id>, item: Item, now: int, lease: int) {
    && Open(outbox, busy, item.id, now, lease)
    && item.body == outbox[item.id].body && item.attempts == outbox[item.id].attempts + 1
  }

  /** The batch is the first `limit` claimable rows in the query's order, each once. */
  ghost predicate FirstOnes(outbox: map<Id, Row>, busy: set<Id>, batch: seq<Item>, limit: nat, now: int, lease: int) {
    && |batch| <= limit
    && (forall i :: 0 <= i < |batch| ==> ItemOf(outbox, busy, batch[i], now, lease))
    && (forall i, j :: 0 <= i < j < |batch| ==> batch[i].id != batch[j].id && NotAfter(outbox[batch[i].id], outbox[batch[j].id]))
    && (forall id, i :: Open(outbox, busy, id, now, lease) && id !in Ids(batch) && 0 <= i < |batch| ==> NotAfter(outbox[batch[i].id], outbox[id]))
    && (|batch| < limit ==> forall id :: Open(outbox, busy, id, now, lease) ==> id in Ids(batch))
  }

  /** The delivery committed, whatever the dispatcher was told. */
  predicate Written(ranges: set<Range>, item: Item, fate: Fate) {
    LogOf(item.id, item.body).Some? && Accepts(ranges, item.body.createdAt) && !fate.Aborted?
  }

  /** How many deliveries the dispatcher saw succeed. */
  function Seen(ranges: set<Range>, batch: seq<Item>, fate: Id -> Fate): nat {
    if batch == [] then 0
    else
      var last := batch[|batch| - 1];
      Seen(ranges, batch[..|batch| - 1], fate) + if Written(ranges, last, fate(last.id)) && fate(last.id).Committed? then 1 else 0
  }

  /** What one dispatch leaves of a claimed row: it is processed and has its audit row, or it waits
      for its retry. */
  predicate Settled(before: Db, after: Db, item: Item, fate: Fate, now: int, later: int) {
    && item.id in before.outbox && item.id in after.outbox
    && var row := before.outbox[item.id];
    if Written(before.ranges, item, fate)
    then after.outbox[item.id] == Row(row.body, Processed(later), row.attempts + 1, row.availableAt)
         && (item.id, item.body.createdAt) in after.logs
    else after.outbox[item.id] == Row(row.body, Failed, row.attempts + 1, now + RetryDelay(row.attempts + 1))
  }

  predicate LogsKept(before: Db, after: Db) {
    forall k :: k in before.logs ==> k in after.logs && after.logs[k] == before.logs[k]
  }

  /** Only the item's row changed. */
  predicate Elsewhere(before: Db, after: Db, ids: set<Id>) {
    && after.outbox.Keys == before.outbox.Keys && after.ranges == before.ranges
    && (forall id :: id in before.outbox && id !in ids ==> after.outbox[id] == before.outbox[id])
  }

  /** The first `n` items of the batch are settled, the others are still claimed. */
  ghost predicate Reached(before: Db, after: Db, batch: seq<Item>, n: nat, worker: Worker, fate: Id -> Fate, now: int, later: int)
    requires n <= |batch|
  {
    && Elsewhere(before, after, Ids(batch)) && LogsKept(before, after)
    && (forall j :: 0 <= j < n ==> Settled(before, after, batch[j], fate(batch[j].id), now, later))
    && (forall j :: n <= j < |batch| ==> batch[j].id in before.outbox && after.outbox[batch[j].id] == Claimed(before.outbox[batch[j].id], worker, now))
  }

  /** What DispatchItem does. */
  predicate Dispatched(was: Db, after: Db, item: Item, worker: Worker, fate: Fate, now: int, later: int) {
    if Written(was.ranges, item, fate)
    then Deliver(was, LogOf(item.id, item.body).value, worker, later) == Some(after)
    else MarkFailed(was, item.id, worker, now + RetryDelay(item.attempts)) == Some(after)
  }

  lemma IdsSnoc(batch: seq<Item>, item: Item)
    ensures Ids(batch + [item]) == Ids(batch) + {item.id}
  {
    forall id | id in Ids(batch) ensures id in Ids(batch + [item]) {
      var i :| 0 <= i < |batch| && batch[i].id == id;
      assert (batch + [item])[i].id == id;
    }
    assert (batch + [item])[|batch|] == item;
  }

  /** Dispatching one item settles it, given the row it was claimed from, and touches nothing else. */
  lemma DispatchedItem(before: Row, was: Db, after: Db, item: Item, worker: Worker, fate: Fate, now: int, later: int)
    requires Dispatched(was, after, item, worker, fate, now, later)
    requires item.id in was.outbox && was.outbox[item.id] == Claimed(before, worker, now)
    requires item.attempts == before.attempts + 1
    ensures Elsewhere(was, after, {item.id}) && LogsKept(was, after)
    ensures Settled(was.(outbox := was.outbox[item.id := before]), after, item, fate, now, later)
  {
    hide RetryDelay;
  }

  /** After the claim nothing is settled yet. */
  lemma ReachedStart(before: Db, busy: set<Id>, batch: seq<Item>, worker: Worker, fate: Id -> Fate, limit: nat, now: int, lease: int, later: int)
    requires FirstOnes(before.outbox, busy, batch, limit, now, lease)
    ensures Reached(before, ClaimRows(before, worker, Ids(batch), now), batch, 0, worker, fate, now, later)
  {
    hide NotAfter, Eligible, Claimed, Settled;
    forall j | 0 <= j < |batch| ensures batch[j].id in before.outbox && batch[j].id in Ids(batch) {
      assert ItemOf(before.outbox, busy, batch[j], now, lease);
    }
  }

  /** The next item is as it was claimed. */
  lemma NextLeased(before: Db, after: Db, busy: set<Id>, batch: seq<Item>, n: nat, worker: Worker, fate: Id -> Fate, limit: nat, now: int, lease: int, later: int)
    requires FirstOnes(before.outbox, busy, batch, limit, now, lease) && n < |batch|
    requires Reached(before, after, batch, n, worker, fate, now, later)
    ensures Leased(after, batch[n].id, worker) && batch[n].body == after.outbox[batch[n].id].body
    ensures batch[n].id in before.outbox && batch[n].attempts == before.outbox[batch[n].id].attempts + 1
  {
    hide NotAfter, Eligible, Settled;
    assert ItemOf(before.outbox, busy, batch[n], now, lease);
  }

  lemma SettledStays(before: Db, was: Db, after: Db, item: Item, other: Id, fate: Fate, now: int, later: int)
    requires Settled(before, was, item, fate, now, later) && other != item.id
    requires Elsewhere(was, after, {other}) && LogsKept(was, after)
    ensures Settled(before, after, item, fate, now, later)
  {
    hide RetryDelay, LogOf, Written;
  }

  lemma ReachedNext(before: Db, was: Db, after: Db, batch: seq<Item>, n: nat, worker: Worker, fate: Id -> Fate, now: int, later: int)
    requires n < |batch| && Reached(before, was, batch, n, worker, fate, now, later)
    requires Dispatched(was, after, batch[n], worker, fate(batch[n].id), now, later)
    requires forall i, j :: 0 <= i < j < |batch| ==> batch[i].id != batch[j].id
    requires batch[n].id in before.outbox && batch[n].attempts == before.outbox[batch[n].id].attempts + 1
    ensures Reached(before, after, batch, n + 1, worker, fate, now, later)
  {
    var item := batch[n];
    DispatchedItem(before.outbox[item.id], was, after, item, worker, fate(item.id), now, later);
    SettledFrom(before, was, after, item, fate(item.id), now, later);
    hide Settled, Dispatched, Claimed;
    assert item.id in Ids(batch);
    forall j | 0 <= j < n ensures Settled(before, after, batch[j], fate(batch[j].id), now, later) {
      SettledStays(before, was, after, batch[j], item.id, fate(batch[j].id), now, later);
    }
  }

  lemma SettledFrom(before: Db, was: Db, after: Db, item: Item, fate: Fate, now: int, later: int)
    requires item.id in before.outbox && was.ranges == before.ranges
    requires Settled(was.(outbox := was.outbox[item.id := before.outbox[item.id]]), after, item, fate, now, later)
    ensures Settled(before, after, item, fate, now, later)
  {
    hide RetryDelay, LogOf, Written;
  }

  class Store {
    var outbox: map<Id, Row>
    var logs: map<(Id, int), Entry>
    var stats: map<int, Logins>
    var ranges: set<Range>

    ghost function View(): Db
      reads this
    {
      Db(outbox, logs, stats, ranges)
    }

    constructor ()
      ensures View() == EMPTY
    {
      outbox, logs, stats, ranges := map[], map[], map[], {};
    }

    /** The first claimable row that is not in `taken`. */
    method Next(busy: set<Id>, taken: set<Id>, now: int, lease: int) returns (o: Option<Id>)
      ensures o.None? ==> forall id :: Open(outbox, busy, id, now, lease) ==> id in taken
      ensures o.Some? ==> Open(outbox, busy, o.value, now, lease) && o.value !in taken
      ensures o.Some? ==> forall id :: Open(outbox, busy, id, now, lease) && id !in taken ==> NotAfter(outbox[o.value], outbox[id])
    {
      o := None;
      var left := outbox.Keys - taken - busy;
      while left != {}
        invariant left <= outbox.Keys - taken - busy
        invariant o.Some? ==> Open(outbox, busy, o.value, now, lease) && o.value !in taken
        invariant forall id :: Open(outbox, busy, id, now, lease) && id !in taken && id !in left ==>
          o.Some? && NotAfter(outbox[o.value], outbox[id])
        decreases left
      {
        var id :| id in left;
        left := left - {id};
        if Eligible(outbox[id], now, lease) && (o.None? || NotAfter(outbox[id], outbox[o.value])) { o := Some(id); }
      }
    }

    /** The claim's query. */
    method Candidates(busy: set<Id>, limit: nat, now: int, lease: int) returns (batch: seq<Item>)
      ensures FirstOnes(outbox, busy, batch, limit, now, lease)
    {
      batch := [];
      while |batch| < limit
        invariant |batch| <= limit && FirstOnes(outbox, busy, batch, |batch|, now, lease)
      {
        var o := Next(busy, Ids(batch), now, lease);
        if o.None? { return; }
        var item := Item(o.value, outbox[o.value].body, outbox[o.value].attempts + 1);
        IdsSnoc(batch, item);
        batch := batch + [item];
      }
    }

    method ClaimAuditBatch(worker: Worker, limit: nat, now: int, lease: int, busy: set<Id>) returns (r: Result<seq<Item>, ()>)
      modifies this`outbox
      ensures r.Ok? <==> 1 <= limit <= MAX_BATCH && lease > 0
      ensures r.Err? ==> View() == old(View())
      ensures r.Ok? ==> FirstOnes(old(outbox), busy, r.value, limit, now, lease) && View() == ClaimRows(old(View()), worker, Ids(r.value), now)
    {
      if limit < 1 || limit > MAX_BATCH || lease <= 0 { return Err(()); }
      var batch := Candidates(busy, limit, now, lease);
      var taken := Ids(batch);
      outbox := map id | id in outbox :: if id in taken then Claimed(outbox[id], worker, now) else outbox[id];
      return Ok(batch);
    }

    method UpdateLoginAggregate(e: Entry)
      modifies this`stats
      ensures stats == Count(old(stats), e)
    {
      var successful, failed := 0, 0;
      if e.event == LOGIN && e.result == "success" {
        successful := 1;
      } else if e.event == LOGIN_FAILED && e.result == "failure" {
        failed := 1;
      } else {
        return;
      }
      var day := Day(e.createdAt);
      var was := if day in stats then stats[day] else Logins(0, 0);
      stats := stats[day := Logins(was.successful + successful, was.failed + failed)];
    }

    /** False when the lease is lost, or no partition takes the row: the transaction is undone. */
    method DeliverAuditEvent(e: Entry, worker: Worker, now: int) returns (ok: bool)
      modifies this`outbox, this`logs, this`stats
      ensures ok <==> Deliver(old(View()), e, worker, now).Some?
      ensures View() == if ok then Deliver(old(View()), e, worker, now).value else old(View())
    {
      if e.id !in outbox || !outbox[e.id].status.Processing? || outbox[e.id].status.lockedBy != worker { return false; }
      var undo := outbox;
      outbox := outbox[e.id := outbox[e.id].(status := Processed(now))];
      if !Accepts(ranges, e.createdAt) {
        outbox := undo;
        return false;
      }
      if (e.id, e.createdAt) !in logs {
        logs := logs[(e.id, e.createdAt) := e];
        UpdateLoginAggregate(e);
      }
      return true;
    }

    method MarkAuditEventFailed(id: Id, worker: Worker, retryAt: int) returns (ok: bool)
      modifies this`outbox
      ensures ok <==> MarkFailed(old(View()), id, worker, retryAt).Some?
      ensures View() == if ok then MarkFailed(old(View()), id, worker, retryAt).value else old(View())
    {
      if id !in outbox || !outbox[id].status.Processing? || outbox[id].status.lockedBy != worker { return false; }
      outbox := outbox[id := outbox[id].(status := Failed, availableAt := retryAt)];
      return true;
    }

    /** One claimed item: deliver it, and schedule a retry when that failed or seemed to. The retry
        after an uncertain commit finds the lease gone and changes nothing. */
    method DispatchItem(item: Item, worker: Worker, fate: Fate, now: int, later: int) returns (done: bool)
      requires Leased(View(), item.id, worker) && item.body == outbox[item.id].body
      modifies this
      ensures done <==> Written(ranges, item, fate) && fate.Committed?
      ensures Dispatched(old(View()), View(), item, worker, fate, now, later)
    {
      done := false;
      var log := LogOf(item.id, item.body);
      if log.Some? && !fate.Aborted? {
        var ok := DeliverAuditEvent(log.value, worker, later);
        if ok && fate.Committed? { return true; }
      }
      var _ := MarkAuditEventFailed(item.id, worker, now + RetryDelay(item.attempts));
    }

    /** One pass of the dispatcher: every claimable row up to the limit is delivered or scheduled for
        a retry, and no other row changes. */
    method DispatchOnce(worker: Worker, limit: nat, now: int, lease: int, busy: set<Id>, fate: Id -> Fate, later: int)
      returns (processed: nat, batch: seq<Item>)
      requires 1 <= limit <= MAX_BATCH && lease > 0
      modifies this
      ensures FirstOnes(old(outbox), busy, batch, limit, now, lease)
      ensures Elsewhere(old(View()), View(), Ids(batch)) && LogsKept(old(View()), View())
      ensures forall j :: 0 <= j < |batch| ==> Settled(old(View()), View(), batch[j], fate(batch[j].id), now, later)
      ensures processed == Seen(ranges, batch, fate)
    {
      hide Settled, Dispatched, Written, NotAfter, Leased, ItemOf, Open;
      var r := ClaimAuditBatch(worker, limit, now, lease, busy);
      batch, processed := r.value, 0;
      ReachedStart(old(View()), busy, batch, worker, fate, limit, now, lease, later);
      var i := 0;
      while i < |batch|
        invariant 0 <= i <= |batch|
        invariant Reached(old(View()), View(), batch, i, worker, fate, now, later)
        invariant processed == Seen(ranges, batch[..i], fate)
      {
        hide Reached;
        var item := batch[i];
        ghost var was := View();
        NextLeased(old(View()), was, busy, batch, i, worker, fate, limit, now, lease, later);
        var done := DispatchItem(item, worker, fate(item.id), now, later);
        ReachedNext(old(View()), was, View(), batch, i, worker, fate, now, later);
        assert batch[..i + 1][..i] == batch[..i];
        if done { processed := processed + 1; }
        i := i + 1;
      }
      assert batch[..i] == batch;
    }
  }
}

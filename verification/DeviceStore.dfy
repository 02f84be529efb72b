/** The imperative form of the device authorization store: Redis keys set and deleted in place,
    the allocation loop of Create, and the token endpoint's sequence of store calls. Each method is
    proved against the scripts of DeviceModel. */
module DeviceStore {
  import opened Base
  import opened DeviceModel

  /** One round of random values: the digests of the two codes, and the record version. */
  datatype Draw = Draw(device: DeviceId, version: nat, digest: Digest, now: int)

  const ATTEMPTS := 8

  /** The draw meets no key that is still there. */
  predicate Free(r: Redis, d: Draw) {
    d.device !in Purge(r, d.now).records && d.digest !in Purge(r, d.now).index
  }

  /** `k` is the first of the draws that is free; |draws| if none is. */
  predicate FirstFree(r: Redis, draws: seq<Draw>, k: nat)
    requires k <= |draws|
  {
    (forall i :: 0 <= i < k ==> !Free(r, draws[i])) && (k < |draws| ==> Free(r, draws[k]))
  }

  /** The draw became the record `rec`, and the create script says what is stored. */
  predicate Stores(before: Redis, after: Redis, d: Draw, request: Request, ttl: int, interval: int, rec: Rec) {
    && rec == NewRecord(d.device, d.version, d.digest, request, interval, d.now)
    && (after, true) == CreateScript(Purge(before, d.now), rec, TtlOf(ttl), d.now)
  }

  predicate InOrder(draws: seq<Draw>) {
    forall i, j :: 0 <= i < j < |draws| ==> draws[i].now <= draws[j].now
  }

  lemma PurgeTwice(r: Redis, t: int, u: int)
    requires t <= u
    ensures Purge(Purge(r, t), u) == Purge(r, u)
  {
    assert Purge(Purge(r, t), u).records == Purge(r, u).records;
    assert Purge(Purge(r, t), u).index == Purge(r, u).index;
  }

  class Store {
    var records: map<DeviceId, Stored>
    var index: map<Digest, Entry>

    ghost function View(): Redis
      reads this
    {
      Redis(records, index)
    }

    /** A record is kept under the device code it belongs to. */
    ghost predicate Valid()
      reads this
    {
      forall d :: d in records ==> records[d].rec.device == d
    }

    constructor ()
      ensures Valid() && View() == START.redis
    {
      records, index := map[], map[];
    }

    /** Redis drops the keys whose time is over. */
    method Expire(now: int)
      requires Valid()
      modifies this
      ensures Valid()
      ensures View() == Purge(old(View()), now)
    {
      records := map d | d in records && now <= records[d].expireAt :: records[d];
      index := map g | g in index && now <= index[g].expireAt :: index[g];
    }

    /** One attempt: a new pending record and its index entry, unless a key of theirs is there. */
    method Attempt(d: Draw, request: Request, ttl: int, interval: int) returns (o: Option<Rec>)
      requires Valid()
      modifies this
      ensures Valid()
      ensures o.Some? <==> Free(old(View()), d)
      ensures o.None? ==> View() == Purge(old(View()), d.now)
      ensures o.Some? ==> Stores(old(View()), View(), d, request, ttl, interval, o.value)
    {
      var life := TtlOf(ttl);
      Expire(d.now);
      if d.device in records || d.digest in index { return None; }
      var rec := NewRecord(d.device, d.version, d.digest, request, interval, d.now);
      records := records[d.device := Stored(rec, d.now + life)];
      index := index[d.digest := Entry(d.device, d.now + life)];
      return Some(rec);
    }

    /** Takes the first draw that meets no live key, and gives up after ATTEMPTS of them. */
    method Create(draws: seq<Draw>, request: Request, ttl: int, interval: int) returns (o: Option<Rec>)
      requires Valid() && |draws| == ATTEMPTS && InOrder(draws)
      modifies this
      ensures Valid()
      ensures o.None? <==> FirstFree(old(View()), draws, ATTEMPTS)
      ensures o.None? ==> View() == Purge(old(View()), draws[ATTEMPTS - 1].now)
      ensures o.Some? ==> exists k :: 0 <= k < ATTEMPTS && FirstFree(old(View()), draws, k) && Stores(old(View()), View(), draws[k], request, ttl, interval, o.value)
    {
      var i := 0;
      while i < ATTEMPTS
        invariant 0 <= i <= ATTEMPTS && Valid()
        invariant forall j :: 0 <= j < i ==> !Free(old(View()), draws[j])
        invariant View() == if i == 0 then old(View()) else Purge(old(View()), draws[i - 1].now)
      {
        if i > 0 { PurgeTwice(old(View()), draws[i - 1].now, draws[i].now); }
        o := Attempt(draws[i], request, ttl, interval);
        if o.Some? {
          assert FirstFree(old(View()), draws, i);
          return;
        }
        i := i + 1;
      }
      o := None;
    }

    method FindPendingByUserCode(digest: Digest, now: int) returns (o: Option<Rec>)
      requires Valid()
      modifies this
      ensures Valid()
      ensures View() == Purge(old(View()), now)
      ensures o == FindPending(View(), digest, now)
    {
      Expire(now);
      if digest !in index || index[digest].device !in records { return None; }
      var s := records[index[digest].device];
      if s.expireAt <= now { return None; }
      if s.rec.status != Pending || s.rec.digest != digest { return None; }
      return Some(s.rec);
    }

    method Poll(device: DeviceId, client: nat, now: int) returns (a: Answer)
      requires Valid()
      modifies this
      ensures Valid()
      ensures (View(), a) == PollScript(Purge(old(View()), now), device, client, now)
    {
      Expire(now);
      if device !in records { return NotFound; }
      var value, expireAt := records[device].rec, records[device].expireAt;
      if value.request.client != client { return NotFound; }
      if value.status == Denied {
        records := records - {device};
        return AccessDenied;
      }
      if value.status == Approved { return Granted(value); }
      var interval, early := value.interval, now < value.nextPoll;
      if early { interval := interval + SLOW_DOWN_STEP; }
      value := value.(interval := interval, nextPoll := now + interval * 1_000);
      var ttl := expireAt - now;
      if ttl <= 0 {
        records := records - {device};
        return NotFound;
      }
      records := records[device := Stored(value, now + ttl)];
      return if early then SlowDown(interval) else AuthorizationPending(interval);
    }

    /** ApproveWithAuthentication with an approval, Deny without one. */
    method Decide(current: Rec, approval: Option<Approval>, now: int) returns (v: Verdict)
      requires Valid()
      modifies this
      ensures Valid()
      ensures (View(), v) == DecideScript(Purge(old(View()), now), current,
          current.(status := if approval.Some? then Approved else Denied, approval := approval), now)
    {
      Expire(now);
      var replacement := current.(status := if approval.Some? then Approved else Denied, approval := approval);
      if current.device !in records { return Gone; }
      var value, ttl := records[current.device].rec, records[current.device].expireAt - now;
      if value.version != current.version || value.status != Pending { return Mismatch; }
      if replacement.device != value.device || replacement.digest != value.digest { return Mismatch; }
      if ttl <= 0 {
        records := records - {current.device};
        index := index - {current.digest};
        return Gone;
      }
      records := records[current.device := Stored(replacement, now + ttl)];
      index := index - {current.digest};
      return Done;
    }

    method ConsumeApproved(current: Rec, now: int) returns (v: Verdict)
      requires Valid()
      modifies this
      ensures Valid()
      ensures (View(), v) == ConsumeScript(Purge(old(View()), now), current)
    {
      Expire(now);
      if current.device !in records { return Gone; }
      var value := records[current.device].rec;
      if value.version != current.version || value.status != Approved { return Mismatch; }
      records := records - {current.device};
      index := index - {current.digest};
      return Done;
    }
  }

  /** The token endpoint's exchange of a device code: poll, check, consume, issue. `allowed` is what
      the checks on client, scopes, claims and user say about an approved record. A record is handed
      to the issuer only when it was approved for this client, passed the checks and was still there
      to be consumed; from then on the code is gone. */
  method Exchange(store: Store, device: DeviceId, client: nat, allowed: Rec -> bool, polled: int, consumed: int)
    returns (o: Option<Rec>)
    requires store.Valid() && polled <= consumed
    modifies store
    ensures store.Valid()
    ensures o.Some? <==>
      && device in Purge(old(store.View()), consumed).records
      && old(store.records)[device].rec.status == Approved
      && old(store.records)[device].rec.request.client == client
      && allowed(old(store.records)[device].rec)
    ensures o.Some? ==> o.value == old(store.records)[device].rec && device !in store.records
  {
    var answer := store.Poll(device, client, polled);
    if !answer.Granted? { return None; }
    if !allowed(answer.rec) { return None; }
    var verdict := store.ConsumeApproved(answer.rec, consumed);
    if verdict != Done { return None; }
    return Some(answer.rec);
  }
}

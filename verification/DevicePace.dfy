/** When the user-code index is complete, and how fast a device may poll. */
module DevicePace {
  import opened Base
  import opened DeviceModel
  import opened DeviceProofs

  // ---------------------------------------------------------------- every pending record can be found

  predicate Waiting(r: Redis, d: DeviceId) {
    d in r.records && r.records[d].rec.status == Pending
  }

  predicate Approves(r: Redis, d: DeviceId, g: Digest) {
    d in r.records && r.records[d].rec.status == Approved && r.records[d].rec.digest == g
  }

  /** The record has its user-code entry, which lives as long as the record. */
  predicate Findable(r: Redis, d: DeviceId) {
    && d in r.records
    && r.records[d].rec.digest in r.index && r.index[r.records[d].rec.digest] == Entry(d, r.records[d].expireAt)
  }

  ghost predicate Complete(r: Redis) {
    forall d | Waiting(r, d) :: Findable(r, d)
  }

  /** No approved record shares its user code with a pending one. */
  ghost predicate CodesApart(r: Redis) {
    forall a, p | Waiting(r, p) :: !Approves(r, a, r.records[p].rec.digest)
  }

  ghost predicate Searchable(r: Redis) {
    Complete(r) && CodesApart(r)
  }

  /** The event does not hand out a user code that a live approved record still carries. */
  ghost predicate NoReuse(s: Sys, e: Event) {
    e.EvCreate? && s.clock <= e.now ==> forall d :: !Approves(Purge(s.redis, e.now), d, e.digest)
  }

  ghost predicate CodesNotReused(es: seq<Event>) {
    forall i | 0 <= i < |es| :: NoReuse(Run(es[..i]), es[i])
  }

  lemma PurgeSearchable(r: Redis, now: int)
    requires Searchable(r)
    ensures Searchable(Purge(r, now))
  {
    var r' := Purge(r, now);
    forall d | Waiting(r', d) ensures Findable(r', d) { assert Waiting(r, d) && Findable(r, d); }
    forall a, p | Waiting(r', p) ensures !Approves(r', a, r'.records[p].rec.digest) {
      assert Waiting(r, p) && !Approves(r, a, r.records[p].rec.digest);
    }
  }

  lemma CreateSearchable(r: Redis, rec: Rec, ttl: int, now: int)
    requires Searchable(r) && rec.status == Pending
    requires forall d :: !Approves(r, d, rec.digest)
    ensures Searchable(CreateScript(r, rec, ttl, now).0)
  {
    var r' := CreateScript(r, rec, ttl, now).0;
    forall d | Waiting(r', d) ensures Findable(r', d) {
      assert Waiting(r, d) ==> Findable(r, d);
    }
    forall a, p | Waiting(r', p) ensures !Approves(r', a, r'.records[p].rec.digest) {
      assert Waiting(r, p) ==> !Approves(r, a, r.records[p].rec.digest);
      assert !Approves(r, a, rec.digest);
    }
  }

  lemma PollSearchable(r: Redis, device: DeviceId, client: nat, now: int)
    requires Searchable(r)
    ensures Searchable(PollScript(r, device, client, now).0)
  {
    var r' := PollScript(r, device, client, now).0;
    forall d | Waiting(r', d) ensures Findable(r', d) { assert Waiting(r, d) && Findable(r, d); }
    forall a, p | Waiting(r', p) ensures !Approves(r', a, r'.records[p].rec.digest) {
      assert Waiting(r, p) && !Approves(r, a, r.records[p].rec.digest);
    }
  }

  /** Two pending records never share a user code: the index tells which one has it. */
  lemma PendingCodesDiffer(r: Redis, x: DeviceId, y: DeviceId)
    requires Complete(r) && Waiting(r, x) && Waiting(r, y) && r.records[x].rec.digest == r.records[y].rec.digest
    ensures x == y
  {
    assert Findable(r, x) && Findable(r, y);
  }

  lemma DecideSearchable(r: Redis, current: Rec, replacement: Rec, now: int)
    requires Searchable(r)
    requires current.device in r.records ==> r.records[current.device].rec.digest == current.digest
    ensures Searchable(DecideScript(r, current, replacement, now).0)
  {
    var r' := DecideScript(r, current, replacement, now).0;
    if r' != r {
      assert Waiting(r, current.device);
      forall d | Waiting(r', d) ensures Findable(r', d) {
        assert Findable(r, d);
        if r.records[d].rec.digest == current.digest { PendingCodesDiffer(r, d, current.device); }
      }
      forall a, p | Waiting(r', p) ensures !Approves(r', a, r'.records[p].rec.digest) {
        assert !Approves(r, a, r.records[p].rec.digest);
        if r.records[p].rec.digest == current.digest { PendingCodesDiffer(r, p, current.device); }
      }
    }
  }

  lemma ConsumeSearchable(r: Redis, current: Rec)
    requires Searchable(r)
    requires current.device in r.records ==> r.records[current.device].rec == current
    ensures Searchable(ConsumeScript(r, current).0)
  {
    var r' := ConsumeScript(r, current).0;
    forall d | Waiting(r', d) ensures Findable(r', d) {
      assert Waiting(r, d) && Findable(r, d);
      assert !Approves(r, current.device, r.records[d].rec.digest);
    }
    forall a, p | Waiting(r', p) ensures !Approves(r', a, r'.records[p].rec.digest) {
      assert Waiting(r, p) && !Approves(r, a, r.records[p].rec.digest);
    }
  }

  lemma HeldFact(s: Sys, t: Thread)
    requires Redeemable(s) && t in s.held
    ensures s.held[t].device in s.redis.records ==> s.redis.records[s.held[t].device].rec == s.held[t]
  {
    assert HeldOk(s, s.held[t]);
  }

  lemma SearchableStep(s: Sys, e: Event)
    requires Redeemable(s) && Searchable(s.redis) && NoReuse(s, e)
    ensures Searchable(Step(s, e).redis)
  {
    if s.clock <= e.now {
      var p := s.(redis := Purge(s.redis, e.now), clock := e.now);
      PurgeKeeps(s, e.now);
      PurgeSearchable(s.redis, e.now);
      hide Redeemable, Searchable, Purge;
      match e
      case EvCreate(d, v, g, q, ttl, i, now) => CreateSearchable(p.redis, NewRecord(d, v, g, q, i, now), TtlOf(ttl), now);
      case EvView(_, _, _) =>
      case EvApprove(t, a, now) => if t in p.forms { FormFact(p, t); DecideSearchable(p.redis, p.forms[t], p.forms[t].(status := Approved, approval := Some(a)), now); }
      case EvDeny(t, now) => if t in p.forms { FormFact(p, t); DecideSearchable(p.redis, p.forms[t], p.forms[t].(status := Denied, approval := None), now); }
      case EvPoll(t, device, client, now) => PollSearchable(p.redis, device, client, now);
      case EvConsume(t, issue, now) => if t in p.held { HeldFact(p, t); ConsumeSearchable(p.redis, p.held[t]); }
    }
  }

  /** As long as no user code is handed out again while an approved record carries it, every
      pending record can be found by its user code, in every reachable state. */
  lemma {:induction false} PendingAlwaysFindable(es: seq<Event>)
    requires CodesNotReused(es)
    ensures Searchable(Run(es).redis)
  {
    if es != [] {
      var front := es[..|es| - 1];
      forall i | 0 <= i < |front| ensures NoReuse(Run(front[..i]), front[i]) {
        assert front[..i] == es[..i];
      }
      PendingAlwaysFindable(front);
      AlwaysRedeemable(front);
      assert NoReuse(Run(es[..|es| - 1]), es[|es| - 1]);
      SearchableStep(Run(front), es[|es| - 1]);
    }
  }

  /** Records are stored under their own identifier. */
  predicate Keyed(r: Redis) {
    forall d | d in r.records :: r.records[d].rec.device == d
  }

  lemma FindExactly(r: Redis, now: int, g: Digest, d: DeviceId)
    requires IndexOk(r, now) && Keyed(r)
    requires forall x | x in r.index && r.index[x].device in r.records :: r.records[r.index[x].device].expireAt == r.index[x].expireAt
    ensures (FindPending(r, g, now).Some? && FindPending(r, g, now).value.device == d) <==>
      (Waiting(r, d) && r.records[d].rec.digest == g && r.records[d].expireAt > now && Findable(r, d))
  {
    assert EntryOk(r, now, g);
  }

  /** FindPendingByUserCode finds a record exactly when it is pending under that code, has time
      left and has its entry. */
  lemma {:induction false} FindPendingExactly(es: seq<Event>, g: Digest, d: DeviceId)
    ensures var r, now := Run(es).redis, Run(es).clock;
      (FindPending(r, g, now).Some? && FindPending(r, g, now).value.device == d) <==>
      (Waiting(r, d) && r.records[d].rec.digest == g && r.records[d].expireAt > now && Findable(r, d))
  {
    AlwaysRedeemable(es);
    IndexAlwaysSound(es);
    assert Keyed(Run(es).redis) by {
      forall x | x in Run(es).redis.records ensures Run(es).redis.records[x].rec.device == x {
        assert RecordOk(Run(es), x, Run(es).redis.records[x].rec);
      }
    }
    hide Redeemable, IndexOk, Run;
    FindExactly(Run(es).redis, Run(es).clock, g, d);
  }

  // ---------------------------------------------------------------- the condition is exact

  predicate NoCreate(es: seq<Event>) {
    forall i | 0 <= i < |es| :: !es[i].EvCreate?
  }

  /** A pending record with time left that its user code does not find. */
  ghost predicate Orphaned(s: Sys, d: DeviceId) {
    && Waiting(s.redis, d) && s.clock < s.redis.records[d].expireAt
    && !(FindPending(s.redis, s.redis.records[d].rec.digest, s.clock).Some?
         && FindPending(s.redis, s.redis.records[d].rec.digest, s.clock).value.device == d)
  }

  lemma {:induction false} RunOne(es: seq<Event>, e: Event)
    ensures Run(es + [e]) == Step(Run(es), e)
  {
    assert (es + [e])[..|es|] == es;
  }

  lemma {:induction false} SearchableOn(es: seq<Event>, more: seq<Event>)
    requires Searchable(Run(es).redis) && NoCreate(more)
    ensures Searchable(Run(es + more).redis)
    decreases |more|
  {
    hide Step, Run, Searchable;
    if more == [] {
      assert es + more == es;
    } else {
      var front, e := more[..|more| - 1], more[|more| - 1];
      SearchableOn(es, front);
      assert es + more == (es + front) + [e];
      RunOne(es + front, e);
      AlwaysRedeemable(es + front);
      SearchableStep(Run(es + front), e);
    }
  }

  lemma {:induction false} SearchableFinds(es: seq<Event>, d: DeviceId)
    requires Searchable(Run(es).redis)
    ensures !Orphaned(Run(es), d)
  {
    var s := Run(es);
    if Waiting(s.redis, d) && s.clock < s.redis.records[d].expireAt {
      assert Findable(s.redis, d);
      FindPendingExactly(es, s.redis.records[d].rec.digest, d);
    }
  }

  /** The creation was accepted: the device code is now used, and was not before. */
  predicate Accepted(s: Sys, e: Event) {
    e.EvCreate? && e.device !in s.used && e.device in Step(s, e).used
  }

  lemma AcceptedCreate(s: Sys, e: Event)
    requires Accepted(s, e)
    ensures var p, s' := Purge(s.redis, e.now), Step(s, e);
      && s.clock <= e.now && s'.clock == e.now && Purge(s'.redis, e.now) == s'.redis && e.device !in p.records
      && (forall d | d in p.records :: d in s'.redis.records && s'.redis.records[d] == p.records[d])
      && Waiting(s'.redis, e.device) && s'.redis.records[e.device].rec.digest == e.digest
      && e.now < s'.redis.records[e.device].expireAt
  {
    assert s.clock <= e.now;
    assert Purge(Step(s, e).redis, e.now).records == Step(s, e).redis.records;
    assert Purge(Step(s, e).redis, e.now).index == Step(s, e).redis.index;
  }

  lemma PollThenConsume(s: Sys, a: DeviceId, d: DeviceId)
    requires a in s.redis.records && s.redis.records[a].rec.device == a && a != d
    requires Approves(s.redis, a, s.redis.records[a].rec.digest) && Purge(s.redis, s.clock) == s.redis
    requires Waiting(s.redis, d) && s.redis.records[d].rec.digest == s.redis.records[a].rec.digest
    requires s.clock < s.redis.records[d].expireAt
    ensures var poll := EvPoll(0, a, s.redis.records[a].rec.request.client, s.clock);
      Orphaned(Step(Step(s, poll), EvConsume(0, true, s.clock)), d)
  {
    var poll := EvPoll(0, a, s.redis.records[a].rec.request.client, s.clock);
    var s1 := Step(s, poll);
    assert s1.redis == s.redis && s1.clock == s.clock && s1.held[0] == s.redis.records[a].rec;
    hide Purge;
    assert Waiting(Step(s1, EvConsume(0, true, s.clock)).redis, d);
  }

  lemma {:induction false} Redeemed(es: seq<Event>, e: Event, a: DeviceId) returns (more: seq<Event>)
    requires Accepted(Run(es), e) && Approves(Purge(Run(es).redis, e.now), a, e.digest)
    ensures NoCreate(more) && Orphaned(Run(es + [e] + more), e.device)
  {
    AlwaysRedeemable(es + [e]);
    RunOne(es, e);
    AcceptedCreate(Run(es), e);
    var s := Run(es + [e]);
    assert a in Run(es).redis.records;
    assert RecordOk(s, a, s.redis.records[a].rec);
    hide Run, Step, Purge, Orphaned, Redeemable;
    PollThenConsume(s, a, e.device);
    var poll := EvPoll(0, a, s.redis.records[a].rec.request.client, s.clock);
    RunOne(es + [e], poll);
    RunOne(es + [e] + [poll], EvConsume(0, true, s.clock));
    more := [poll] + [EvConsume(0, true, s.clock)];
    assert es + [e] + more == es + [e] + [poll] + [EvConsume(0, true, s.clock)];
  }

  /** The condition is exact: when a code has been handed out in a reachable state in which every
      pending record could be found, some continuation that hands out no other makes a pending
      record with time left unfindable if and only if an approved record carried the code. */
  lemma {:induction false} ReuseExactly(es: seq<Event>, e: Event)
    requires Searchable(Run(es).redis) && Accepted(Run(es), e)
    ensures (exists more, d :: NoCreate(more) && Orphaned(Run(es + [e] + more), d))
      <==> (exists a :: Approves(Purge(Run(es).redis, e.now), a, e.digest))
  {
    hide Run, Step, Purge, Orphaned, NoCreate, Searchable;
    if a :| Approves(Purge(Run(es).redis, e.now), a, e.digest) {
      var more := Redeemed(es, e, a);
    } else {
      AlwaysRedeemable(es);
      RunOne(es, e);
      SearchableStep(Run(es), e);
      forall more, d | NoCreate(more) ensures !Orphaned(Run(es + [e] + more), d) {
        SearchableOn(es + [e], more);
        SearchableFinds(es + [e] + more, d);
      }
    }
  }

  /** In its very last millisecond an entry may outlive its record: a poll then deletes the
      record only. */
  lemma LastMillisecond() returns (es: seq<Event>)
    ensures var s := Run(es); 0 in s.redis.index && s.redis.index[0].device !in s.redis.records && s.redis.index[0].expireAt == s.clock
  {
    var q := Request(0, [], 1, 1);
    var e0, e1 := EvCreate(0, 0, 0, q, 10_000, 5_000, 0), EvPoll(0, 0, 0, 10_000);
    es := [e0, e1];
    assert es[..1] == [e0] && [e0][..0] == [];
    assert Run([]) == START;
    var s := Run([e0]);
    assert s == Step(START, e0);
    assert 0 in s.redis.records && s.redis.records[0].expireAt == 10_000;
  }

  const ASKED := Request(0, [], 1, 1)
  const GIVEN := Approval(9, 1, [], [], 1)

  /** A code handed out again after its first record was approved, and that record redeemed. */
  const REUSE := [EvCreate(0, 10, 5, ASKED, 0, 0, 0), EvView(0, 0, 1), EvApprove(0, GIVEN, 2),
                  EvCreate(1, 11, 5, ASKED, 0, 0, 3), EvPoll(0, 0, 0, 6_000), EvConsume(0, true, 6_001)]

  const FIRST := NewRecord(0, 10, 5, ASKED, 0, 0)
  const AGREED := FIRST.(status := Approved, approval := Some(GIVEN))
  const SECOND_REC := NewRecord(1, 11, 5, ASKED, 0, 3)
  const LATER := 3 + DEFAULT_TTL
  const ORIGIN := Origin(5, ASKED, FIRST.interval, DEFAULT_TTL)

  const BOTH: map<DeviceId, Stored> := map[0 := Stored(AGREED, DEFAULT_TTL), 1 := Stored(SECOND_REC, LATER)]
  const USED_BOTH: map<DeviceId, Origin> := map[0 := ORIGIN, 1 := Origin(5, ASKED, SECOND_REC.interval, LATER)]

  lemma NothingPurged(r: Redis, now: int)
    requires forall d :: d in r.records ==> now <= r.records[d].expireAt
    requires forall g :: g in r.index ==> now <= r.index[g].expireAt
    ensures Purge(r, now) == r
  {
    assert Purge(r, now).records == r.records && Purge(r, now).index == r.index;
  }

  lemma ReuseViewed()
    ensures Run(REUSE[..2]) == START.(redis := Redis(map[0 := Stored(FIRST, DEFAULT_TTL)], map[5 := Entry(0, DEFAULT_TTL)]),
                                      clock := 1, used := map[0 := ORIGIN], forms := map[0 := FIRST])
  {
    assert REUSE[..2][..1] == REUSE[..1] && REUSE[..1][..0] == [];
    assert Run([]) == START;
    NothingPurged(START.redis, 0);
    var s1 := Step(START, REUSE[0]);
    assert s1 == START.(redis := Redis(map[0 := Stored(FIRST, DEFAULT_TTL)], map[5 := Entry(0, DEFAULT_TTL)]), used := map[0 := ORIGIN]);
    assert Run(REUSE[..1]) == s1;
    NothingPurged(s1.redis, 1);
    assert Run(REUSE[..2]) == Step(s1, REUSE[1]);
  }

  lemma ReuseAgreed()
    ensures Run(REUSE[..3]) == START.(redis := Redis(map[0 := Stored(AGREED, DEFAULT_TTL)], map[]), clock := 2,
                                      used := map[0 := ORIGIN], forms := map[0 := FIRST], decisions := [(0, Some(GIVEN))])
  {
    ReuseViewed();
    var s := Run(REUSE[..2]);
    assert REUSE[..3][..2] == REUSE[..2];
    assert Run(REUSE[..3]) == Step(s, REUSE[2]) by { hide Step, Purge; }
    NothingPurged(s.redis, 2);
    hide Run, Purge;
    assert map[5 := Entry(0, DEFAULT_TTL)] - {5} == map[];
    assert s.redis.records[0 := Stored(AGREED, DEFAULT_TTL)] == map[0 := Stored(AGREED, DEFAULT_TTL)];
  }

  /** A creation that meets no key, when none has expired. */
  lemma Created(s: Sys, e: Event, rec: Rec)
    requires e.EvCreate? && s.clock <= e.now && Purge(s.redis, e.now) == s.redis && e.device !in s.used
    requires rec == NewRecord(e.device, e.version, e.digest, e.request, e.interval, e.now)
    requires e.device !in s.redis.records && e.digest !in s.redis.index
    ensures Step(s, e) == s.(
      redis := Redis(s.redis.records[e.device := Stored(rec, e.now + TtlOf(e.ttl))], s.redis.index[e.digest := Entry(e.device, e.now + TtlOf(e.ttl))]),
      clock := e.now, used := s.used[e.device := Origin(e.digest, e.request, rec.interval, e.now + TtlOf(e.ttl))])
  {
    hide Purge;
  }

  lemma ReuseCreated()
    ensures Run(REUSE[..4]) == START.(redis := Redis(BOTH, map[5 := Entry(1, LATER)]), clock := 3,
                                      used := USED_BOTH, forms := map[0 := FIRST], decisions := [(0, Some(GIVEN))])
  {
    ReuseAgreed();
    var s := Run(REUSE[..3]);
    assert REUSE[..4][..3] == REUSE[..3];
    assert Run(REUSE[..4]) == Step(s, REUSE[3]) by { hide Step, Purge; }
    NothingPurged(s.redis, 3);
    hide Run, Purge, Step, NewRecord;
    Created(s, REUSE[3], SECOND_REC);
    assert s.redis.records[1 := Stored(SECOND_REC, LATER)] == BOTH;
    assert s.used[1 := Origin(5, ASKED, SECOND_REC.interval, LATER)] == USED_BOTH;
  }

  lemma ReusePolled()
    ensures var s := Run(REUSE[..5]);
      s.redis == Redis(BOTH, map[5 := Entry(1, LATER)]) && s.clock == 6_000 && s.held == map[0 := AGREED]
  {
    ReuseCreated();
    var s := Run(REUSE[..4]);
    assert REUSE[..5][..4] == REUSE[..4];
    assert Run(REUSE[..5]) == Step(s, REUSE[4]) by { hide Step, Purge; }
    NothingPurged(s.redis, 6_000);
    hide Run, Purge;
  }

  /** A run from the start in which redeeming one device makes another, still pending one,
      unfindable: they were given the same code. */
  lemma ReusedCodeOrphans()
    ensures var s := Run(REUSE);
      Waiting(s.redis, 1) && s.clock < s.redis.records[1].expireAt && FindPending(s.redis, s.redis.records[1].rec.digest, s.clock).None?
  {
    ReusePolled();
    var s := Run(REUSE[..5]);
    assert REUSE[..5] == REUSE[..|REUSE| - 1];
    assert Run(REUSE) == Step(s, REUSE[5]) by { hide Step, Purge; }
    NothingPurged(s.redis, 6_001);
    hide Run, Purge, NewRecord;
    assert Step(s, REUSE[5]).redis == Redis(BOTH - {0}, map[5 := Entry(1, LATER)] - {5});
    assert 1 in BOTH - {0} && (BOTH - {0})[1] == Stored(SECOND_REC, LATER);
  }

  // ---------------------------------------------------------------- polling pace

  function SlowDowns(polls: seq<PollLog>, d: DeviceId): nat {
    if polls == [] then 0
    else
      var last := polls[|polls| - 1];
      SlowDowns(polls[..|polls| - 1], d) + if last.device == d && last.answer.SlowDown? then 1 else 0
  }

  /** The interval that a poll's answer told the device to keep. */
  function Told(a: Answer): Option<nat> {
    match a
    case AuthorizationPending(n) => Some(n)
    case SlowDown(n) => Some(n)
    case _ => None
  }

  /** Until poll `i` was answered with an interval, later polls wait for it. */
  ghost predicate Paced(polls: seq<PollLog>, i: nat, j: nat)
    requires i < |polls| && j < |polls|
  {
    i < j && polls[i].device == polls[j].device && Told(polls[i].answer).Some? && polls[j].answer.AuthorizationPending? ==>
      polls[j].at - polls[i].at >= Told(polls[i].answer).value * 1_000
  }

  /** A waiting record's next poll time and interval respect every answer its device has got. */
  ghost predicate Respects(s: Sys, p: PollLog) {
    Told(p.answer).Some? ==>
      && p.device in s.used && p.at <= s.clock
      && (Waiting(s.redis, p.device) ==>
            && s.redis.records[p.device].rec.nextPoll >= p.at + Told(p.answer).value * 1_000
            && s.redis.records[p.device].rec.interval >= Told(p.answer).value)
  }

  ghost predicate IntervalOk(s: Sys, d: DeviceId) {
    && (d !in s.used ==> SlowDowns(s.polls, d) == 0)
    && (Waiting(s.redis, d) ==>
          d in s.used && s.redis.records[d].rec.interval == s.used[d].interval + SLOW_DOWN_STEP * SlowDowns(s.polls, d))
  }

  ghost predicate PaceOk(s: Sys) {
    && (forall i, j | 0 <= i < |s.polls| && 0 <= j < |s.polls| :: Paced(s.polls, i, j))
    && (forall i | 0 <= i < |s.polls| :: Respects(s, s.polls[i]))
    && (forall d :: IntervalOk(s, d))
  }

  /** A step that answers no poll and keeps or drops each waiting record, or adds one for a new
      device code with its initial interval. */
  ghost predicate Silent(s: Sys, s': Sys) {
    && s'.polls == s.polls && s.clock <= s'.clock
    && (forall d | d in s.used :: d in s'.used && s'.used[d] == s.used[d])
    && (forall d | Waiting(s'.redis, d) ::
          || (Waiting(s.redis, d) && s'.redis.records[d].rec == s.redis.records[d].rec)
          || (d !in s.used && d in s'.used && s'.redis.records[d].rec.interval == s'.used[d].interval))
  }

  lemma SilentPace(s: Sys, s': Sys)
    requires PaceOk(s) && Silent(s, s')
    ensures PaceOk(s')
  {
    forall i | 0 <= i < |s'.polls| ensures Respects(s', s'.polls[i]) { assert Respects(s, s.polls[i]); }
    forall d ensures IntervalOk(s', d) { assert IntervalOk(s, d); }
  }

  lemma SlowDownsNext(polls: seq<PollLog>, p: PollLog, d: DeviceId)
    ensures SlowDowns(polls + [p], d) == SlowDowns(polls, d) + if p.device == d && p.answer.SlowDown? then 1 else 0
  {
    assert (polls + [p])[..|polls|] == polls;
  }

  lemma PollPaced(s: Sys, t: Thread, device: DeviceId, client: nat)
    requires PaceOk(s)
    ensures var s' := StepPoll(s, t, device, client, s.clock);
      forall i, j | 0 <= i < |s'.polls| && 0 <= j < |s'.polls| :: Paced(s'.polls, i, j)
  {
    var s' := StepPoll(s, t, device, client, s.clock);
    forall i, j | 0 <= i < |s'.polls| && 0 <= j < |s'.polls| ensures Paced(s'.polls, i, j) {
      if i < j && j < |s.polls| {
        assert Paced(s.polls, i, j);
      } else if i < j {
        assert Respects(s, s.polls[i]);
      }
    }
  }

  lemma PollRespects(s: Sys, t: Thread, device: DeviceId, client: nat, i: nat)
    requires PaceOk(s) && i < |StepPoll(s, t, device, client, s.clock).polls|
    ensures var s' := StepPoll(s, t, device, client, s.clock); Respects(s', s'.polls[i])
  {
    assert i < |s.polls| ==> Respects(s, s.polls[i]);
    assert IntervalOk(s, device);
  }

  lemma PollPace(s: Sys, t: Thread, device: DeviceId, client: nat)
    requires PaceOk(s)
    ensures PaceOk(StepPoll(s, t, device, client, s.clock))
  {
    var s' := StepPoll(s, t, device, client, s.clock);
    PollPaced(s, t, device, client);
    forall i | 0 <= i < |s'.polls| ensures Respects(s', s'.polls[i]) { PollRespects(s, t, device, client, i); }
    forall d ensures IntervalOk(s', d) {
      assert IntervalOk(s, d);
      SlowDownsNext(s.polls, s'.polls[|s.polls|], d);
    }
  }

  lemma PurgeSilent(s: Sys, now: int)
    requires s.clock <= now
    ensures Silent(s, s.(redis := Purge(s.redis, now), clock := now))
  {}

  lemma CreateSilent(s: Sys, e: Event)
    requires e.EvCreate?
    ensures Silent(s, StepCreate(s, e))
  {}

  lemma DecideSilent(s: Sys, t: Thread, approval: Option<Approval>, now: int)
    ensures Silent(s, StepDecide(s, t, approval, now))
  {}

  lemma PaceStep(s: Sys, e: Event)
    requires PaceOk(s)
    ensures PaceOk(Step(s, e))
  {
    if s.clock <= e.now {
      var p := s.(redis := Purge(s.redis, e.now), clock := e.now);
      PurgeSilent(s, e.now);
      SilentPace(s, p);
      hide PaceOk, Silent, Purge;
      match e
      case EvCreate(_, _, _, _, _, _, _) => CreateSilent(p, e); SilentPace(p, StepCreate(p, e));
      case EvView(_, _, _) => ViewSilent(p, Step(s, e)); SilentPace(p, Step(s, e));
      case EvApprove(t, a, now) => DecideSilent(p, t, Some(a), now); SilentPace(p, StepDecide(p, t, Some(a), now));
      case EvDeny(t, now) => DecideSilent(p, t, None, now); SilentPace(p, StepDecide(p, t, None, now));
      case EvPoll(t, device, client, now) => PollPace(p, t, device, client);
      case EvConsume(t, issue, now) => ConsumeSilent(p, t, issue); SilentPace(p, StepConsume(p, t, issue));
    }
  }

  lemma ViewSilent(s: Sys, s': Sys)
    requires s'.redis == s.redis && s'.polls == s.polls && s'.clock == s.clock && s'.used == s.used
    ensures Silent(s, s')
  {}

  lemma ConsumeSilent(s: Sys, t: Thread, issue: bool)
    ensures Silent(s, StepConsume(s, t, issue))
  {}

  lemma {:induction false} PaceAlways(es: seq<Event>)
    ensures PaceOk(Run(es))
  {
    if es != [] {
      PaceAlways(es[..|es| - 1]);
      PaceStep(Run(es[..|es| - 1]), es[|es| - 1]);
    }
  }

  /** Whenever a poll is answered authorization_pending, at least the interval told by any earlier
      answer to that device has passed since that answer; and while a record is pending its interval
      is the initial one plus five seconds for every slow_down so far. */
  lemma {:induction false} PollingPace(es: seq<Event>, i: nat, j: nat, d: DeviceId)
    requires i < j < |Run(es).polls|
    ensures var polls := Run(es).polls;
      polls[i].device == polls[j].device && Told(polls[i].answer).Some? && polls[j].answer.AuthorizationPending? ==>
        polls[j].at - polls[i].at >= Told(polls[i].answer).value * 1_000
    ensures var s := Run(es);
      Waiting(s.redis, d) ==>
        d in s.used && s.redis.records[d].rec.interval == s.used[d].interval + SLOW_DOWN_STEP * SlowDowns(s.polls, d)
  {
    PaceAlways(es);
    assert Paced(Run(es).polls, i, j) && IntervalOk(Run(es), d);
  }
}

/** What every call of the device grant answers and achieves, from the history of the run alone: who
    created the code and when, what was decided, told, consumed, and how much time is left. */
module DeviceAnswers {
  import opened Base
  import opened DeviceModel
  import opened DeviceProofs
  import opened DevicePace

  // ---------------------------------------------------------------- reading a history

  predicate Consumed(s: Sys, d: DeviceId) {
    exists k | 0 <= k < |s.consumptions| :: s.consumptions[k].device == d
  }

  /** A poll has told the device that it was denied. */
  predicate ToldDenied(s: Sys, d: DeviceId) {
    exists k | 0 <= k < |s.polls| :: s.polls[k].device == d && s.polls[k].answer == AccessDenied
  }

  /** The device code has been created and its life is not over at `now`. */
  predicate TimeLeft(s: Sys, d: DeviceId, now: int) {
    d in s.used && now < s.used[d].expireAt
  }

  /** Event `i` created the device code. */
  ghost predicate CreatedBy(es: seq<Event>, i: nat, d: DeviceId) {
    && i < |es| && es[i].EvCreate? && es[i].device == d
    && d !in Run(es[..i]).used && d in Run(es[..i + 1]).used
  }

  /** Five seconds unless the client's setting says otherwise, and never less than one. */
  function FirstWait(asked: int): int {
    if asked <= 0 then 5_000 else if asked < 1_000 then 1_000 else asked
  }

  /** When and what interval the device was last told, if ever. */
  function LastTold(polls: seq<PollLog>, d: DeviceId): Option<(int, nat)> {
    if polls == [] then None
    else
      var last := polls[|polls| - 1];
      if last.device == d && Told(last.answer).Some? then Some((last.at, Told(last.answer).value)) else LastTold(polls[..|polls| - 1], d)
  }

  /** From when a poll is in time: the told interval after it was told, or the first wait after the
      creation `e`. */
  function DueAt(e: Event, polls: seq<PollLog>, d: DeviceId): int
    requires e.EvCreate?
  {
    var told := LastTold(polls, d);
    if told.Some? then told.value.0 + told.value.1 * 1_000 else e.now + FirstWait(e.interval)
  }

  /** The interval the device has to keep at present, in seconds; the first one is rounded. */
  function Present(e: Event, polls: seq<PollLog>, d: DeviceId): int
    requires e.EvCreate?
  {
    var told := LastTold(polls, d);
    if told.Some? then told.value.1 else (FirstWait(e.interval) + 500) / 1_000
  }

  // ---------------------------------------------------------------- a record is there as long as it should be

  ghost predicate LiveOk(s: Sys) {
    && (forall d | d in s.used && s.clock < s.used[d].expireAt :: d in s.redis.records <==> !Consumed(s, d) && !ToldDenied(s, d))
    && (forall k | 0 <= k < |s.polls| && s.polls[k].answer.AccessDenied? ::
          s.polls[k].device in s.used && (s.polls[k].device, None) in s.decisions)
  }

  lemma PurgeLive(s: Sys, now: int)
    requires LiveOk(s) && ExpiryOk(s) && s.clock <= now
    ensures LiveOk(s.(redis := Purge(s.redis, now), clock := now)) && ExpiryOk(s.(redis := Purge(s.redis, now), clock := now))
  {
    var p := s.(redis := Purge(s.redis, now), clock := now);
    assert forall d :: Consumed(p, d) == Consumed(s, d) && ToldDenied(p, d) == ToldDenied(s, d);
  }

  lemma CreateLive(s: Sys, e: Event)
    requires LiveOk(s) && Redeemable(s) && e.EvCreate?
    ensures LiveOk(StepCreate(s, e))
  {
    var s' := StepCreate(s, e);
    assert forall d :: Consumed(s', d) == Consumed(s, d) && ToldDenied(s', d) == ToldDenied(s, d);
    forall k | 0 <= k < |s.consumptions| ensures s.consumptions[k].device in s.used { assert ConsumedOk(s, s.consumptions[k]); }
    hide Redeemable;
  }

  lemma DecideLive(s: Sys, t: Thread, approval: Option<Approval>, now: int)
    requires LiveOk(s) && ExpiryOk(s) && s.clock == now
    ensures LiveOk(StepDecide(s, t, approval, now))
  {
    var s' := StepDecide(s, t, approval, now);
    assert forall d :: Consumed(s', d) == Consumed(s, d) && ToldDenied(s', d) == ToldDenied(s, d);
  }

  lemma PollLive(s: Sys, t: Thread, device: DeviceId, client: nat)
    requires LiveOk(s) && ExpiryOk(s) && Redeemable(s)
    ensures LiveOk(StepPoll(s, t, device, client, s.clock))
  {
    assert device in s.redis.records ==> RecordOk(s, device, s.redis.records[device].rec);
    hide Redeemable;
    var s' := StepPoll(s, t, device, client, s.clock);
    var last := s'.polls[|s.polls|];
    assert forall d :: Consumed(s', d) == Consumed(s, d);
    forall d ensures ToldDenied(s', d) <==> ToldDenied(s, d) || (last.device == d && last.answer == AccessDenied) {
      if k :| 0 <= k < |s.polls| && s.polls[k].device == d && s.polls[k].answer == AccessDenied { assert s'.polls[k] == s.polls[k]; }
    }
  }

  lemma ConsumeLive(s: Sys, t: Thread, issue: bool)
    requires LiveOk(s) && Redeemable(s)
    ensures LiveOk(StepConsume(s, t, issue))
  {
    var s' := StepConsume(s, t, issue);
    assert forall d :: ToldDenied(s', d) == ToldDenied(s, d);
    if s'.consumptions != s.consumptions {
      var last := s'.consumptions[|s.consumptions|];
      forall d ensures Consumed(s', d) <==> Consumed(s, d) || last.device == d {
        if k :| 0 <= k < |s.consumptions| && s.consumptions[k].device == d { assert s'.consumptions[k] == s.consumptions[k]; }
      }
    }
  }

  lemma ViewLive(s: Sys, s': Sys)
    requires LiveOk(s) && s' == s.(forms := s'.forms)
    ensures LiveOk(s')
  {
    assert forall d :: Consumed(s', d) == Consumed(s, d) && ToldDenied(s', d) == ToldDenied(s, d);
  }

  lemma LiveStep(s: Sys, e: Event)
    requires LiveOk(s) && ExpiryOk(s) && Redeemable(s)
    ensures LiveOk(Step(s, e))
  {
    if s.clock <= e.now {
      PurgeLive(s, e.now);
      PurgeKeeps(s, e.now);
      var p := s.(redis := Purge(s.redis, e.now), clock := e.now);
      hide Redeemable, ExpiryOk, LiveOk, Purge, StepPoll, StepCreate, StepDecide, StepConsume;
      match e
      case EvCreate(_, _, _, _, _, _, _) => CreateLive(p, e);
      case EvView(_, _, _) => ViewLive(p, Step(s, e));
      case EvApprove(t, a, now) => DecideLive(p, t, Some(a), now);
      case EvDeny(t, now) => DecideLive(p, t, None, now);
      case EvPoll(t, device, client, now) => PollLive(p, t, device, client);
      case EvConsume(t, issue, now) => ConsumeLive(p, t, issue);
    }
  }

  /** While it has time left, a record is there exactly until it is consumed or its denial is told. */
  lemma {:induction false} LiveAlways(es: seq<Event>)
    ensures LiveOk(Run(es))
  {
    if es != [] {
      var front := es[..|es| - 1];
      LiveAlways(front);
      IndexAlwaysSound(front);
      AlwaysRedeemable(front);
      hide LiveOk, ExpiryOk, Redeemable, IndexOk, Step;
      LiveStep(Run(front), es[|es| - 1]);
    }
  }

  // ---------------------------------------------------------------- origins

  /** What the creation event says of the code. */
  function OriginOf(e: Event): Origin
    requires e.EvCreate?
  {
    Origin(e.digest, e.request, (FirstWait(e.interval) + 500) / 1_000, e.now + if e.ttl <= 0 then 600_000 else e.ttl)
  }

  lemma UsedStep(s: Sys, e: Event, d: DeviceId)
    ensures d in s.used ==> d in Step(s, e).used && Step(s, e).used[d] == s.used[d]
    ensures d !in s.used && d in Step(s, e).used ==> e.EvCreate? && e.device == d && Step(s, e).used[d] == OriginOf(e)
  {
    hide Purge, PollScript, DecideScript, ConsumeScript;
  }

  lemma {:induction false} CreatedFront(es: seq<Event>, e: Event, i: nat, d: DeviceId)
    ensures CreatedBy(es + [e], i, d) <==> CreatedBy(es, i, d) || (i == |es| && CreatedBy(es + [e], |es|, d))
  {
    if i < |es| { assert (es + [e])[..i] == es[..i] && (es + [e])[..i + 1] == es[..i + 1]; }
  }

  /** A code is in use exactly when some one event created it, and its request, digest, interval and
      end of life are that event's. */
  lemma {:induction false} UsedExactly(es: seq<Event>, d: DeviceId)
    ensures d in Run(es).used <==> exists i: nat :: CreatedBy(es, i, d)
    ensures forall i: nat | CreatedBy(es, i, d) :: d in Run(es).used && Run(es).used[d] == OriginOf(es[i])
  {
    if es != [] {
      var front, e := es[..|es| - 1], es[|es| - 1];
      assert es == front + [e];
      UsedExactly(front, d);
      UsedStep(Run(front), e, d);
      assert es[..|front|] == front && es[..|es|] == es;
      hide Step;
      forall i: nat ensures CreatedBy(es, i, d) <==> CreatedBy(front, i, d) || (i == |front| && CreatedBy(es, |front|, d)) {
        CreatedFront(front, e, i, d);
      }
      if d !in Run(front).used && d in Run(es).used { assert CreatedBy(es, |front|, d); }
      if i: nat :| CreatedBy(front, i, d) { assert CreatedBy(es, i, d); }
    }
  }

  // ---------------------------------------------------------------- when a poll is in time

  /** The record's pace is the one that its creation and the poll log tell. */
  predicate OnTime(s: Sys, e: Event, d: DeviceId) {
    e.EvCreate? && d in s.redis.records &&
    s.redis.records[d].rec.nextPoll == DueAt(e, s.polls, d) && s.redis.records[d].rec.interval == Present(e, s.polls, d)
  }

  lemma LastToldSnoc(polls: seq<PollLog>, p: PollLog, d: DeviceId)
    ensures LastTold(polls + [p], d) == if p.device == d && Told(p.answer).Some? then Some((p.at, Told(p.answer).value)) else LastTold(polls, d)
  {
    assert (polls + [p])[..|polls|] == polls;
  }

  lemma PollOnTime(s: Sys, t: Thread, device: DeviceId, client: nat, e: Event, d: DeviceId)
    requires Waiting(StepPoll(s, t, device, client, s.clock).redis, d)
    requires Waiting(s.redis, d) ==> OnTime(s, e, d)
    ensures Waiting(s.redis, d) && OnTime(StepPoll(s, t, device, client, s.clock), e, d)
  {
    LastToldSnoc(s.polls, PollLog(device, s.clock, PollScript(s.redis, device, client, s.clock).1), d);
  }

  lemma StepOnTime(s: Sys, e: Event, c: Event, d: DeviceId)
    requires d in s.used && Waiting(Step(s, e).redis, d) && (Waiting(s.redis, d) ==> OnTime(s, c, d))
    ensures Waiting(s.redis, d) && OnTime(Step(s, e), c, d)
  {
    if s.clock <= e.now {
      var p := s.(redis := Purge(s.redis, e.now), clock := e.now);
      assert Waiting(p.redis, d) ==> OnTime(p, c, d);
      if e.EvPoll? {
        PollOnTime(p, e.t, e.device, e.client, c, d);
      }
      hide LastTold;
    }
  }

  lemma NeverTold(s: Sys, d: DeviceId)
    requires PaceOk(s) && d !in s.used
    ensures LastTold(s.polls, d) == None
  {
    forall k | 0 <= k < |s.polls| ensures !(s.polls[k].device == d && Told(s.polls[k].answer).Some?) { assert Respects(s, s.polls[k]); }
    NoneTold(s.polls, d);
  }

  lemma NoneTold(polls: seq<PollLog>, d: DeviceId)
    requires forall k | 0 <= k < |polls| :: !(polls[k].device == d && Told(polls[k].answer).Some?)
    ensures LastTold(polls, d) == None
  {
    if polls != [] { NoneTold(polls[..|polls| - 1], d); }
  }

  lemma CreateOnTime(s: Sys, e: Event, d: DeviceId)
    requires d !in s.used && PaceOk(s) && Redeemable(s) && Waiting(Step(s, e).redis, d)
    ensures OnTime(Step(s, e), e, d)
  {
    assert d in s.redis.records ==> RecordOk(s, d, s.redis.records[d].rec);
    NeverTold(s, d);
    hide PaceOk, Redeemable, LastTold;
    NewRecordOnTime(s, e, d);
  }

  lemma NewRecordOnTime(s: Sys, e: Event, d: DeviceId)
    requires d !in s.redis.records && Waiting(Step(s, e).redis, d) && LastTold(s.polls, d) == None
    ensures OnTime(Step(s, e), e, d)
  {
    hide LastTold;
    assert e.EvCreate? && Step(s, e).polls == s.polls by { hide NewRecord; }
  }

  lemma {:induction false} AlwaysOnTime(es: seq<Event>, d: DeviceId)
    requires Waiting(Run(es).redis, d)
    ensures exists i: nat :: CreatedBy(es, i, d) && OnTime(Run(es), es[i], d)
  {
    var front, e := es[..|es| - 1], es[|es| - 1];
    assert es == front + [e];
    PaceAlways(front);
    AlwaysRedeemable(front);
    assert es[..|front|] == front && es[..|es|] == es;
    if d in Run(front).used {
      UsedExactly(front, d);
      if Waiting(Run(front).redis, d) {
        AlwaysOnTime(front, d);
        var i: nat :| CreatedBy(front, i, d) && OnTime(Run(front), front[i], d);
        hide PaceOk, Redeemable, Step, OnTime;
        StepOnTime(Run(front), e, front[i], d);
        CreatedFront(front, e, i, d);
        assert es[i] == front[i];
      } else {
        StepOnTime(Run(front), e, e, d);
      }
    } else {
      CreateOnTime(Run(front), e, d);
      hide PaceOk, Redeemable, Step, OnTime;
      UsedStep(Run(front), e, d);
      assert CreatedBy(es, |front|, d);
    }
  }

  // ---------------------------------------------------------------- what a poll is answered

  /** The answer to a poll of a code that event `e` created and that has time left, by the history. */
  ghost predicate Due(s: Sys, e: Event, d: DeviceId, client: nat, now: int, a: Answer)
    requires e.EvCreate?
  {
    if e.request.client != client || Consumed(s, d) || ToldDenied(s, d) then a == NotFound
    else if (d, None) in s.decisions then a == AccessDenied
    else if Decided(s, d) then
      a.Granted? && a.rec.device == d && a.rec.request == e.request && a.rec.approval.Some? && (d, a.rec.approval) in s.decisions
    else if now < DueAt(e, s.polls, d) then a == SlowDown(Present(e, s.polls, d) + 5)
    else a == AuthorizationPending(Present(e, s.polls, d))
  }

  /** The state in which an event at `now` finds the keys. */
  function At(s: Sys, now: int): Sys {
    s.(redis := Purge(s.redis, now), clock := now)
  }

  lemma {:induction false} AtOk(es: seq<Event>, now: int)
    requires Run(es).clock <= now
    ensures var p := At(Run(es), now); LiveOk(p) && ExpiryOk(p) && Redeemable(p)
  {
    LiveAlways(es);
    IndexAlwaysSound(es);
    AlwaysRedeemable(es);
    hide Purge, LiveOk, ExpiryOk, Redeemable, Run;
    PurgeLive(Run(es), now);
    PurgeKeeps(Run(es), now);
  }

  lemma DecidedAsStatus(p: Sys, d: DeviceId)
    requires Redeemable(p) && d in p.redis.records
    ensures var rec := p.redis.records[d].rec;
      && rec.device == d && d in p.used && rec.request == p.used[d].request
      && (rec.status == Pending <==> !Decided(p, d))
      && (rec.status == Denied <==> (d, None) in p.decisions)
      && (rec.status == Approved <==> Decided(p, d) && (d, None) !in p.decisions)
      && (rec.status == Approved ==> rec.approval.Some? && (d, rec.approval) in p.decisions)
  {
    var rec := p.redis.records[d].rec;
    assert RecordOk(p, d, rec);
    if rec.status == Approved {
      var i :| 0 <= i < |p.decisions| && p.decisions[i] == (d, rec.approval);
      assert DistinctDevices(p.decisions);
      assert Decided(p, d);
    } else if rec.status == Denied {
      var i :| 0 <= i < |p.decisions| && p.decisions[i] == (d, None);
      assert Decided(p, d);
    }
  }

  lemma PollAnswer(p: Sys, e: Event, d: DeviceId, client: nat)
    requires e.EvCreate? && d in p.used && p.used[d] == OriginOf(e) && p.clock < p.used[d].expireAt
    requires LiveOk(p) && ExpiryOk(p) && Redeemable(p) && (Waiting(p.redis, d) ==> OnTime(p, e, d))
    ensures Due(p, e, d, client, p.clock, PollScript(p.redis, d, client, p.clock).1)
  {
    assert d in p.redis.records <==> !Consumed(p, d) && !ToldDenied(p, d);
    if d in p.redis.records {
      DecidedAsStatus(p, d);
      assert p.redis.records[d].expireAt == p.used[d].expireAt;
    }
    hide LiveOk, ExpiryOk, Redeemable, Consumed, ToldDenied, Decided, LastTold, DueAt, Present;
  }

  /** A poll of a code with time left is answered by what the history says: not found for another
      client or once consumed or told of the denial; the decision if there is one; and otherwise
      slow_down exactly if it comes before the interval last told, or the first one after the creation,
      is over, and authorization_pending with the present interval if not. */
  lemma {:induction false} PollAnsweredExactly(es: seq<Event>, i: nat, t: Thread, d: DeviceId, client: nat, now: int)
    requires CreatedBy(es, i, d) && Run(es).clock <= now < OriginOf(es[i]).expireAt
    ensures var s, s' := Run(es), Run(es + [EvPoll(t, d, client, now)]);
      |s'.polls| == |s.polls| + 1 && s'.polls[..|s.polls|] == s.polls &&
      var p := s'.polls[|s.polls|];
      p.device == d && p.at == now && Due(s, es[i], d, client, now, p.answer)
  {
    var s := Run(es);
    RunOne(es, EvPoll(t, d, client, now));
    UsedExactly(es, d);
    AtOk(es, now);
    if Waiting(s.redis, d) {
      AlwaysOnTime(es, d);
      var j: nat :| CreatedBy(es, j, d) && OnTime(s, es[j], d);
      CreatedOnce(es, i, j, d);
    }
    hide LiveOk, ExpiryOk, Redeemable, Due, LastTold, Run;
    PollAnswer(At(s, now), es[i], d, client);
    DueAfterPurge(s, es[i], d, client, now, PollScript(At(s, now).redis, d, client, now).1);
  }

  lemma DueAfterPurge(s: Sys, e: Event, d: DeviceId, client: nat, now: int, a: Answer)
    requires e.EvCreate?
    ensures Due(At(s, now), e, d, client, now, a) <==> Due(s, e, d, client, now, a)
  {}

  lemma {:induction false} CreatedOnce(es: seq<Event>, i: nat, j: nat, d: DeviceId)
    requires CreatedBy(es, i, d) && CreatedBy(es, j, d)
    ensures i == j
  {
    if i < j { CreatedEarlier(es, i, j, d); } else if j < i { CreatedEarlier(es, j, i, d); }
  }

  lemma {:induction false} CreatedEarlier(es: seq<Event>, i: nat, j: nat, d: DeviceId)
    requires CreatedBy(es, i, d) && i < j <= |es|
    ensures d in Run(es[..j]).used
  {
    assert es[..j][..i] == es[..i] && es[..j][..i + 1] == es[..i + 1];
    assert CreatedBy(es[..j], i, d);
    UsedExactly(es[..j], d);
  }

  /** A code that was never created, or whose life is over, is not found. */
  lemma {:induction false} DeadCodeNotFound(es: seq<Event>, t: Thread, d: DeviceId, client: nat, now: int)
    requires Run(es).clock <= now && (d in Run(es).used ==> Run(es).used[d].expireAt < now)
    ensures Run(es + [EvPoll(t, d, client, now)]).polls == Run(es).polls + [PollLog(d, now, NotFound)]
  {
    RunOne(es, EvPoll(t, d, client, now));
    AtOk(es, now);
    hide LiveOk, Redeemable, Run;
  }

  // ---------------------------------------------------------------- what a decision and a redemption achieve

  /** A user's decision takes effect exactly when nobody has decided yet and there is time left; one
      that comes too late leaves no undecided record. */
  lemma {:induction false} DecidedExactly(es: seq<Event>, t: Thread, approval: Option<Approval>, now: int)
    requires t in Run(es).forms && Run(es).clock <= now
    ensures var s := Run(es);
      var d := s.forms[t].device;
      var s' := Run(es + [if approval.Some? then EvApprove(t, approval.value, now) else EvDeny(t, now)]);
      && s'.decisions == (if TimeLeft(s, d, now) && !Decided(s, d) then s.decisions + [(d, approval)] else s.decisions)
      && (!TimeLeft(s, d, now) && !Decided(s, d) ==> d !in s'.redis.records)
  {
    RunOne(es, if approval.Some? then EvApprove(t, approval.value, now) else EvDeny(t, now));
    AtOk(es, now);
    hide Run;
    DecisionTaken(At(Run(es), now), t, approval);
  }

  lemma DecisionTaken(p: Sys, t: Thread, approval: Option<Approval>)
    requires t in p.forms && LiveOk(p) && ExpiryOk(p) && Redeemable(p)
    ensures var d := p.forms[t].device;
      && StepDecide(p, t, approval, p.clock).decisions ==
           (if TimeLeft(p, d, p.clock) && !Decided(p, d) then p.decisions + [(d, approval)] else p.decisions)
      && (!TimeLeft(p, d, p.clock) && !Decided(p, d) ==> d !in StepDecide(p, t, approval, p.clock).redis.records)
  {
    var form := p.forms[t];
    var d := form.device;
    assert FormOk(p, form);
    if d in p.redis.records {
      DecidedAsStatus(p, d);
    } else if TimeLeft(p, d, p.clock) {
      GoneIsDecided(p, d);
    }
    hide LiveOk, Redeemable, Decided;
  }

  lemma GoneIsDecided(p: Sys, d: DeviceId)
    requires LiveOk(p) && Redeemable(p) && TimeLeft(p, d, p.clock) && d !in p.redis.records
    ensures Decided(p, d)
  {
    if Consumed(p, d) {
      var k :| 0 <= k < |p.consumptions| && p.consumptions[k].device == d;
      assert ConsumedOk(p, p.consumptions[k]);
      var j :| 0 <= j < |p.decisions| && p.decisions[j] == (d, p.consumptions[k].approval);
    } else {
      var k :| 0 <= k < |p.polls| && p.polls[k].device == d && p.polls[k].answer == AccessDenied;
      var j :| 0 <= j < |p.decisions| && p.decisions[j] == (d, None);
    }
  }

  /** A token request that holds an approval redeems it exactly when nobody has done so and the code
      has time left; it is granted tokens exactly when they are then issued. */
  lemma {:induction false} RedeemedExactly(es: seq<Event>, t: Thread, issue: bool, now: int)
    requires t in Run(es).held && Run(es).clock <= now && TimeLeft(Run(es), Run(es).held[t].device, now)
    ensures var s, s' := Run(es), Run(es + [EvConsume(t, issue, now)]);
      && s'.consumptions == (if Consumed(s, s.held[t].device) then s.consumptions else s.consumptions + [s.held[t]])
      && s'.grants == (if Consumed(s, s.held[t].device) || !issue then s.grants else s.grants + [s.held[t]])
  {
    ConsumeRun(es, t, issue, now);
    AtOk(es, now);
    hide Run, Step, Redeemable, LiveOk, ExpiryOk, Purge, StepConsume;
    RedemptionTaken(At(Run(es), now), t, issue);
    ConsumedAt(Run(es), now, Run(es).held[t].device);
    hide Consumed;
  }

  lemma {:induction false} ConsumeRun(es: seq<Event>, t: Thread, issue: bool, now: int)
    requires Run(es).clock <= now
    ensures Run(es + [EvConsume(t, issue, now)]) == StepConsume(At(Run(es), now), t, issue)
  {
    RunOne(es, EvConsume(t, issue, now));
    hide Run, Purge, StepConsume;
  }

  lemma ConsumedAt(s: Sys, now: int, d: DeviceId)
    ensures Consumed(At(s, now), d) <==> Consumed(s, d)
  {
    hide Purge;
  }

  lemma RedemptionTaken(p: Sys, t: Thread, issue: bool)
    requires t in p.held && LiveOk(p) && Redeemable(p) && TimeLeft(p, p.held[t].device, p.clock)
    ensures var d := p.held[t].device;
      && StepConsume(p, t, issue).consumptions == (if Consumed(p, d) then p.consumptions else p.consumptions + [p.held[t]])
      && StepConsume(p, t, issue).grants == (if Consumed(p, d) || !issue then p.grants else p.grants + [p.held[t]])
  {
    var d := p.held[t].device;
    assert HeldOk(p, p.held[t]);
    ApprovedNotDenied(p, d, p.held[t].approval);
    assert d in p.redis.records <==> !Consumed(p, d);
    hide LiveOk, Redeemable, Consumed;
  }

  lemma ApprovedNotDenied(p: Sys, d: DeviceId, approval: Option<Approval>)
    requires LiveOk(p) && DistinctDevices(p.decisions) && approval.Some? && (d, approval) in p.decisions
    ensures !ToldDenied(p, d)
  {}

  /** A user's page gets the record exactly while it is undecided and has time left, and then as the
      creation made it. */
  lemma {:induction false} ViewedExactly(es: seq<Event>, i: nat, t: Thread, d: DeviceId, now: int)
    requires CreatedBy(es, i, d) && Run(es).clock <= now && t !in Run(es).forms
    ensures var s, s' := Run(es), Run(es + [EvView(t, d, now)]);
      && (t in s'.forms <==> TimeLeft(s, d, now) && !Decided(s, d))
      && (t in s'.forms ==> s'.forms[t].device == d && s'.forms[t].request == es[i].request && s'.forms[t].digest == es[i].digest)
  {
    RunOne(es, EvView(t, d, now));
    UsedExactly(es, d);
    AtOk(es, now);
    hide Run;
    var p := At(Run(es), now);
    if d in p.redis.records {
      DecidedAsStatus(p, d);
      assert RecordOk(p, d, p.redis.records[d].rec);
    } else if TimeLeft(p, d, now) {
      GoneIsDecided(p, d);
    }
    hide LiveOk, Redeemable, Purge;
    assert Decided(p, d) == Decided(Run(es), d);
  }

  /** A creation is accepted exactly when the device code is new and no live entry has its user code. */
  lemma {:induction false} AcceptedExactly(es: seq<Event>, e: Event)
    requires e.EvCreate? && Run(es).clock <= e.now
    ensures var s, s' := Run(es), Run(es + [e]);
      var free := e.device !in s.used && !(e.digest in s.redis.index && e.now <= s.redis.index[e.digest].expireAt);
      && (e.device in s'.used <==> e.device in s.used || free)
      && (free ==> Waiting(s'.redis, e.device) && Findable(s'.redis, e.device) && s'.redis.records[e.device].rec.digest == e.digest)
  {
    RunOne(es, e);
    AtOk(es, e.now);
    hide Run;
    assert e.device in At(Run(es), e.now).redis.records ==> e.device in Run(es).used by { hide Purge; }
    hide LiveOk, Redeemable, ExpiryOk;
  }
}

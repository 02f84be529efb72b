/** Single redemption and the soundness of the user-code index of the device grant, over every run. */
module DeviceProofs {
  import opened Base
  import opened DeviceModel

  // ---------------------------------------------------------------- single redemption

  ghost predicate DistinctDevices(log: seq<(DeviceId, Option<Approval>)>) {
    forall i, j | 0 <= i < j < |log| :: log[i].0 != log[j].0
  }

  ghost predicate DistinctRecs(log: seq<Rec>) {
    forall i, j | 0 <= i < j < |log| :: log[i].device != log[j].device
  }

  ghost predicate Decided(s: Sys, d: DeviceId) {
    exists i | 0 <= i < |s.decisions| :: s.decisions[i].0 == d
  }

  /** The device's one decision approved it with exactly this. */
  ghost predicate ApprovedWith(s: Sys, d: DeviceId, a: Approval) {
    (d, Some(a)) in s.decisions
  }

  ghost predicate RecordOk(s: Sys, d: DeviceId, rec: Rec) {
    && rec.device == d && d in s.used && rec.request == s.used[d].request && rec.digest == s.used[d].digest
    && (rec.status == Pending ==> !Decided(s, d) && rec.approval == None)
    && (rec.status == Approved ==> rec.approval.Some? && ApprovedWith(s, d, rec.approval.value))
    && (rec.status == Denied ==> (d, None) in s.decisions)
  }

  /** A pending copy agrees with the stored record in everything a poll leaves alone. */
  predicate SameIdentity(x: Rec, y: Rec) {
    x.version == y.version && x.device == y.device && x.digest == y.digest && x.request == y.request
  }

  ghost predicate FormOk(s: Sys, form: Rec) {
    && form.status == Pending && form.approval == None && form.device in s.used
    && form.request == s.used[form.device].request
    && (form.device in s.redis.records ==> SameIdentity(form, s.redis.records[form.device].rec))
  }

  /** A record that was approved stays as it is until it is consumed or expires. */
  ghost predicate HeldOk(s: Sys, rec: Rec) {
    && rec.status == Approved && rec.approval.Some? && rec.device in s.used
    && rec.request == s.used[rec.device].request
    && ApprovedWith(s, rec.device, rec.approval.value)
    && (rec.device in s.redis.records ==> s.redis.records[rec.device].rec == rec)
  }

  ghost predicate ConsumedOk(s: Sys, rec: Rec) {
    && rec.approval.Some? && rec.device in s.used && rec.device !in s.redis.records
    && rec.request == s.used[rec.device].request
    && ApprovedWith(s, rec.device, rec.approval.value)
  }

  ghost predicate RecordsOk(s: Sys) {
    forall d | d in s.redis.records :: RecordOk(s, d, s.redis.records[d].rec)
  }

  ghost predicate CopiesOk(s: Sys) {
    (forall t | t in s.forms :: FormOk(s, s.forms[t])) && (forall t | t in s.held :: HeldOk(s, s.held[t]))
  }

  ghost predicate LogsOk(s: Sys) {
    && DistinctDevices(s.decisions) && DistinctRecs(s.consumptions) && DistinctRecs(s.grants)
    && (forall i | 0 <= i < |s.decisions| :: s.decisions[i].0 in s.used)
    && (forall i | 0 <= i < |s.consumptions| :: ConsumedOk(s, s.consumptions[i]))
    && (forall i | 0 <= i < |s.grants| :: s.grants[i] in s.consumptions)
  }

  ghost predicate Redeemable(s: Sys) {
    RecordsOk(s) && CopiesOk(s) && LogsOk(s)
  }

  lemma PurgeKeeps(s: Sys, now: int)
    requires Redeemable(s)
    ensures Redeemable(s.(redis := Purge(s.redis, now), clock := now))
  {
    var s' := s.(redis := Purge(s.redis, now), clock := now);
    forall x | x in s'.redis.records ensures RecordOk(s', x, s'.redis.records[x].rec) {
      assert RecordOk(s, x, s.redis.records[x].rec);
    }
    forall u | u in s'.held ensures HeldOk(s', s'.held[u]) { assert HeldOk(s, s.held[u]); }
    forall u | u in s'.forms ensures FormOk(s', s'.forms[u]) { assert FormOk(s, s.forms[u]); }
    forall i | 0 <= i < |s.consumptions| ensures ConsumedOk(s', s'.consumptions[i]) { assert ConsumedOk(s, s.consumptions[i]); }
  }

  lemma CreateCopies(s: Sys, e: Event)
    requires CopiesOk(s) && e.EvCreate?
    ensures CopiesOk(StepCreate(s, e))
  {
    var s' := StepCreate(s, e);
    forall u | u in s'.held ensures HeldOk(s', s'.held[u]) { assert HeldOk(s, s.held[u]); }
    forall u | u in s'.forms ensures FormOk(s', s'.forms[u]) { assert FormOk(s, s.forms[u]); }
  }

  lemma CreateKeeps(s: Sys, e: Event)
    requires Redeemable(s) && e.EvCreate?
    ensures Redeemable(StepCreate(s, e))
  {
    var s' := StepCreate(s, e);
    forall x | x in s'.redis.records ensures RecordOk(s', x, s'.redis.records[x].rec) {
      assert x in s.redis.records ==> RecordOk(s, x, s.redis.records[x].rec);
    }
    CreateCopies(s, e);
    hide RecordsOk, CopiesOk, RecordOk;
    forall i | 0 <= i < |s.consumptions| ensures ConsumedOk(s', s'.consumptions[i]) { assert ConsumedOk(s, s.consumptions[i]); }
  }

  lemma DecideRecords(s: Sys, t: Thread, approval: Option<Approval>, now: int)
    requires RecordsOk(s) && CopiesOk(s) && t in s.forms
    ensures RecordsOk(StepDecide(s, t, approval, now)) && s.forms[t].device in s.used
  {
    var s' := StepDecide(s, t, approval, now);
    assert FormOk(s, s.forms[t]);
    forall x | x in s'.redis.records ensures RecordOk(s', x, s'.redis.records[x].rec) {
      assert RecordOk(s, x, s.redis.records[x].rec);
      if s'.decisions != s.decisions { assert s'.decisions[|s.decisions|] == (s.forms[t].device, approval); }
    }
  }

  lemma DecideCopies(s: Sys, t: Thread, approval: Option<Approval>, now: int)
    requires RecordsOk(s) && CopiesOk(s) && t in s.forms
    ensures CopiesOk(StepDecide(s, t, approval, now))
  {
    var s' := StepDecide(s, t, approval, now);
    assert FormOk(s, s.forms[t]);
    forall u | u in s'.held ensures HeldOk(s', s'.held[u]) { assert HeldOk(s, s.held[u]); }
    forall u | u in s'.forms ensures FormOk(s', s'.forms[u]) { assert FormOk(s, s.forms[u]); }
  }

  lemma DecideKeeps(s: Sys, t: Thread, approval: Option<Approval>, now: int)
    requires Redeemable(s)
    ensures Redeemable(StepDecide(s, t, approval, now))
  {
    if t in s.forms {
      DecideRecords(s, t, approval, now);
      DecideCopies(s, t, approval, now);
      hide CopiesOk;
      var s' := StepDecide(s, t, approval, now);
      forall i | 0 <= i < |s.consumptions| ensures ConsumedOk(s', s'.consumptions[i]) { assert ConsumedOk(s, s.consumptions[i]); }
      assert s.forms[t].device in s.redis.records ==> RecordOk(s, s.forms[t].device, s.redis.records[s.forms[t].device].rec);
    }
  }

  lemma PollRecords(s: Sys, t: Thread, device: DeviceId, client: nat, now: int)
    requires RecordsOk(s)
    ensures RecordsOk(StepPoll(s, t, device, client, now))
  {
    var s' := StepPoll(s, t, device, client, now);
    forall x | x in s'.redis.records ensures RecordOk(s', x, s'.redis.records[x].rec) {
      assert RecordOk(s, x, s.redis.records[x].rec);
    }
  }

  lemma PollCopies(s: Sys, t: Thread, device: DeviceId, client: nat, now: int)
    requires RecordsOk(s) && CopiesOk(s)
    ensures CopiesOk(StepPoll(s, t, device, client, now))
  {
    var s' := StepPoll(s, t, device, client, now);
    assert device in s.redis.records ==> RecordOk(s, device, s.redis.records[device].rec);
    forall u | u in s'.held ensures HeldOk(s', s'.held[u]) {
      assert u in s.held ==> HeldOk(s, s.held[u]);
    }
    forall u | u in s'.forms ensures FormOk(s', s'.forms[u]) { assert FormOk(s, s.forms[u]); }
  }

  lemma PollKeeps(s: Sys, t: Thread, device: DeviceId, client: nat, now: int)
    requires Redeemable(s)
    ensures Redeemable(StepPoll(s, t, device, client, now))
  {
    PollRecords(s, t, device, client, now);
    PollCopies(s, t, device, client, now);
    hide RecordsOk, CopiesOk;
    var s' := StepPoll(s, t, device, client, now);
    forall i | 0 <= i < |s.consumptions| ensures ConsumedOk(s', s'.consumptions[i]) { assert ConsumedOk(s, s.consumptions[i]); }
  }

  lemma ConsumeRecords(s: Sys, t: Thread, issue: bool)
    requires RecordsOk(s) && CopiesOk(s) && t in s.held
    ensures RecordsOk(StepConsume(s, t, issue)) && CopiesOk(StepConsume(s, t, issue)) && HeldOk(s, s.held[t])
  {
    var s' := StepConsume(s, t, issue);
    forall x | x in s'.redis.records ensures RecordOk(s', x, s'.redis.records[x].rec) {
      assert RecordOk(s, x, s.redis.records[x].rec);
    }
    forall u | u in s'.held ensures HeldOk(s', s'.held[u]) { assert HeldOk(s, s.held[u]); }
    forall u | u in s'.forms ensures FormOk(s', s'.forms[u]) { assert FormOk(s, s.forms[u]); }
  }

  lemma ConsumeKeeps(s: Sys, t: Thread, issue: bool)
    requires Redeemable(s)
    ensures Redeemable(StepConsume(s, t, issue))
  {
    if t in s.held {
      ConsumeRecords(s, t, issue);
      hide CopiesOk, RecordsOk;
      var current := s.held[t];
      var s' := StepConsume(s, t, issue);
      forall i | 0 <= i < |s.consumptions| ensures ConsumedOk(s', s.consumptions[i]) { assert ConsumedOk(s, s.consumptions[i]); }
      if s'.consumptions != s.consumptions {
        assert forall i | 0 <= i < |s.consumptions| :: s.consumptions[i].device != current.device;
        assert s'.consumptions[|s.consumptions|] == current;
      }
    }
  }

  lemma StepKeeps(s: Sys, e: Event)
    requires Redeemable(s)
    ensures Redeemable(Step(s, e))
  {
    hide Redeemable;
    if s.clock <= e.now {
      PurgeKeeps(s, e.now);
      var p := s.(redis := Purge(s.redis, e.now), clock := e.now);
      match e
      case EvCreate(_, _, _, _, _, _, _) => CreateKeeps(p, e);
      case EvView(t, device, now) => ViewKeeps(p, t, device, now);
      case EvApprove(t, approval, now) => DecideKeeps(p, t, Some(approval), now);
      case EvDeny(t, now) => DecideKeeps(p, t, None, now);
      case EvPoll(t, device, client, now) => PollKeeps(p, t, device, client, now);
      case EvConsume(t, issue, now) => ConsumeKeeps(p, t, issue);
    }
  }

  lemma ViewKeeps(s: Sys, t: Thread, device: DeviceId, now: int)
    requires Redeemable(s)
    ensures Redeemable(StepView(s, t, device, now))
  {
    var s' := StepView(s, t, device, now);
    assert device in s.redis.records ==> RecordOk(s, device, s.redis.records[device].rec);
    forall x | x in s'.redis.records ensures RecordOk(s', x, s'.redis.records[x].rec) {
      assert RecordOk(s, x, s.redis.records[x].rec);
    }
    forall u | u in s'.held ensures HeldOk(s', s'.held[u]) { assert HeldOk(s, s.held[u]); }
    forall u | u in s'.forms ensures FormOk(s', s'.forms[u]) { assert u in s.forms ==> FormOk(s, s.forms[u]); }
    forall i | 0 <= i < |s.consumptions| ensures ConsumedOk(s', s'.consumptions[i]) { assert ConsumedOk(s, s.consumptions[i]); }
  }

  lemma {:induction false} AlwaysRedeemable(es: seq<Event>)
    ensures Redeemable(Run(es))
  {
    if es != [] {
      AlwaysRedeemable(es[..|es| - 1]);
      StepKeeps(Run(es[..|es| - 1]), es[|es| - 1]);
    }
  }

  /** In every run a device code is decided at most once, consumed at most once and redeemed for
      tokens at most once, and tokens are issued only for consumed records. */
  lemma {:induction false} AtMostOnce(es: seq<Event>)
    ensures var s := Run(es);
      && DistinctDevices(s.decisions) && DistinctRecs(s.consumptions) && DistinctRecs(s.grants)
      && (forall g | g in s.grants :: g in s.consumptions)
  {
    AlwaysRedeemable(es);
  }

  /** A consumed record answers the original request and carries exactly the user, scopes and
      claims of its one approval. */
  lemma {:induction false} SingleRedemption(es: seq<Event>, k: nat)
    requires k < |Run(es).consumptions|
    ensures var s := Run(es);
      var c := s.consumptions[k];
      && c.device in s.used && c.request == s.used[c.device].request
      && c.approval.Some? && Decided(s, c.device)
      && (forall i | 0 <= i < |s.decisions| && s.decisions[i].0 == c.device :: s.decisions[i].1 == c.approval)
  {
    AlwaysRedeemable(es);
    var s := Run(es);
    var c := s.consumptions[k];
    assert ConsumedOk(s, c) && DistinctDevices(s.decisions);
    var j :| 0 <= j < |s.decisions| && s.decisions[j] == (c.device, c.approval);
    forall i | 0 <= i < |s.decisions| && s.decisions[i].0 == c.device ensures s.decisions[i].1 == c.approval {
      assert i == j;
    }
  }

  // ---------------------------------------------------------------- the user-code index

  /** An entry with time left points to a pending record with that digest and the same expiry. */
  ghost predicate EntryOk(r: Redis, clock: int, g: Digest) {
    g in r.index && r.index[g].expireAt > clock ==>
      var d := r.index[g].device;
      && d in r.records && r.records[d].rec.status == Pending && r.records[d].rec.digest == g
      && r.records[d].expireAt == r.index[g].expireAt
  }

  ghost predicate IndexOk(r: Redis, clock: int) {
    forall g :: EntryOk(r, clock, g)
  }

  /** The absolute expiry of a record and of its entry is the one they were created with. */
  ghost predicate ExpiryOk(s: Sys) {
    && (forall d | d in s.redis.records :: d in s.used && s.redis.records[d].expireAt == s.used[d].expireAt)
    && (forall g | g in s.redis.index :: s.redis.index[g].device in s.used && s.redis.index[g].expireAt == s.used[s.redis.index[g].device].expireAt)
  }

  lemma PurgeIndex(r: Redis, clock: int, now: int)
    requires IndexOk(r, clock) && clock <= now
    ensures IndexOk(Purge(r, now), now)
  {
    forall g ensures EntryOk(Purge(r, now), now, g) { assert EntryOk(r, clock, g); }
  }

  lemma CreateIndex(r: Redis, rec: Rec, ttl: int, now: int)
    requires IndexOk(r, now) && rec.status == Pending
    ensures IndexOk(CreateScript(r, rec, ttl, now).0, now)
  {
    forall g ensures EntryOk(CreateScript(r, rec, ttl, now).0, now, g) { assert EntryOk(r, now, g); }
  }

  lemma PollIndex(r: Redis, device: DeviceId, client: nat, now: int)
    requires IndexOk(r, now)
    ensures IndexOk(PollScript(r, device, client, now).0, now)
  {
    forall g ensures EntryOk(PollScript(r, device, client, now).0, now, g) { assert EntryOk(r, now, g); }
  }

  lemma DecideIndex(r: Redis, current: Rec, replacement: Rec, now: int)
    requires IndexOk(r, now)
    requires current.device in r.records ==> r.records[current.device].rec.digest == current.digest
    ensures IndexOk(DecideScript(r, current, replacement, now).0, now)
  {
    forall g ensures EntryOk(DecideScript(r, current, replacement, now).0, now, g) { assert EntryOk(r, now, g); }
  }

  lemma ConsumeIndex(r: Redis, current: Rec, now: int)
    requires IndexOk(r, now)
    ensures IndexOk(ConsumeScript(r, current).0, now)
  {
    forall g ensures EntryOk(ConsumeScript(r, current).0, now, g) { assert EntryOk(r, now, g); }
  }

  lemma FormFact(s: Sys, t: Thread)
    requires Redeemable(s) && t in s.forms
    ensures s.forms[t].device in s.redis.records ==> s.redis.records[s.forms[t].device].rec.digest == s.forms[t].digest
  {
    assert FormOk(s, s.forms[t]);
  }

  lemma IndexStep(s: Sys, e: Event)
    requires Redeemable(s) && IndexOk(s.redis, s.clock)
    ensures IndexOk(Step(s, e).redis, Step(s, e).clock)
  {
    if s.clock <= e.now {
      var p := s.(redis := Purge(s.redis, e.now), clock := e.now);
      PurgeKeeps(s, e.now);
      PurgeIndex(s.redis, s.clock, e.now);
      hide Redeemable, IndexOk, Purge;
      match e
      case EvCreate(d, v, g, q, ttl, i, now) => CreateIndex(p.redis, NewRecord(d, v, g, q, i, now), TtlOf(ttl), now);
      case EvView(_, _, _) =>
      case EvApprove(t, a, now) => if t in p.forms { FormFact(p, t); DecideIndex(p.redis, p.forms[t], p.forms[t].(status := Approved, approval := Some(a)), now); }
      case EvDeny(t, now) => if t in p.forms { FormFact(p, t); DecideIndex(p.redis, p.forms[t], p.forms[t].(status := Denied, approval := None), now); }
      case EvPoll(t, device, client, now) => PollIndex(p.redis, device, client, now);
      case EvConsume(t, issue, now) => if t in p.held { ConsumeIndex(p.redis, p.held[t], now); }
    }
  }

  lemma ExpiryStep(s: Sys, e: Event)
    requires ExpiryOk(s)
    ensures ExpiryOk(Step(s, e))
  {
    if s.clock <= e.now {
      var p := s.(redis := Purge(s.redis, e.now), clock := e.now);
      assert ExpiryOk(p);
      hide Purge, StepPoll, StepCreate, StepDecide;
      match e
      case EvCreate(_, _, _, _, _, _, _) => CreateExpiry(p, e);
      case EvView(_, _, _) =>
      case EvApprove(t, a, now) => DecideExpiry(p, t, Some(a), now);
      case EvDeny(t, now) => DecideExpiry(p, t, None, now);
      case EvPoll(t, device, client, now) => PollExpiry(p, t, device, client, now);
      case EvConsume(t, issue, now) =>
    }
  }

  lemma CreateExpiry(s: Sys, e: Event)
    requires ExpiryOk(s) && e.EvCreate?
    ensures ExpiryOk(StepCreate(s, e))
  {}

  lemma PollExpiry(s: Sys, t: Thread, device: DeviceId, client: nat, now: int)
    requires ExpiryOk(s)
    ensures ExpiryOk(StepPoll(s, t, device, client, now))
  {}

  lemma DecideExpiry(s: Sys, t: Thread, approval: Option<Approval>, now: int)
    requires ExpiryOk(s)
    ensures ExpiryOk(StepDecide(s, t, approval, now))
  {}

  /** In every reachable state each user-code entry with time left points to a pending record of
      that code, and no poll or decision has moved any record's absolute expiry. */
  lemma {:induction false} IndexAlwaysSound(es: seq<Event>)
    ensures IndexOk(Run(es).redis, Run(es).clock) && ExpiryOk(Run(es))
  {
    if es != [] {
      var front := es[..|es| - 1];
      IndexAlwaysSound(front);
      AlwaysRedeemable(front);
      IndexStep(Run(front), es[|es| - 1]);
      ExpiryStep(Run(front), es[|es| - 1]);
    }
  }
}

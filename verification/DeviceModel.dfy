/** The OAuth device authorization grant (RFC 8628) of internal/deviceauthorization: the Lua
    scripts over a record table and a user-code index whose keys expire, and the token endpoint's
    order of poll, consume and issue. Times are milliseconds on one clock. A key is there up to
    and including the millisecond of its expiry, where its remaining time to live is 0. */
module DeviceModel {
  import opened Base

  const SLOW_DOWN_STEP := 5
  const DEFAULT_TTL := 600_000
  const DEFAULT_INTERVAL := 5_000

  type DeviceId = nat
  type Digest = nat
  type Thread = nat

  datatype Status = Pending | Approved | Denied

  /** What the device asked for; never changes. */
  datatype Request = Request(client: nat, scopes: seq<string>, identityRevision: nat, authorizationRevision: nat)

  /** What the approving user granted. */
  datatype Approval = Approval(user: nat, authVersion: nat, scopes: seq<string>, claims: seq<string>, issuedAt: int)

  datatype Rec = Rec(version: nat, device: DeviceId, digest: Digest, request: Request, status: Status,
                     interval: nat, nextPoll: int, approval: Option<Approval>)

  datatype Stored = Stored(rec: Rec, expireAt: int)

  datatype Entry = Entry(device: DeviceId, expireAt: int)

  datatype Redis = Redis(records: map<DeviceId, Stored>, index: map<Digest, Entry>)

  /** The keys still there at `now`. */
  function Purge(r: Redis, now: int): Redis {
    Redis(map d | d in r.records && now <= r.records[d].expireAt :: r.records[d],
          map g | g in r.index && now <= r.index[g].expireAt :: r.index[g])
  }

  // ---------------------------------------------------------------- scripts, on the keys there at `now`

  function IntervalOf(asked: int): int {
    var i := if asked <= 0 then DEFAULT_INTERVAL else asked;
    if i < 1_000 then 1_000 else i
  }

  function TtlOf(asked: int): int {
    if asked <= 0 then DEFAULT_TTL else asked
  }

  /** The record that Create prepares; the interval is rounded to whole seconds, half up. */
  function NewRecord(device: DeviceId, version: nat, digest: Digest, request: Request, interval: int, now: int): Rec {
    Rec(version, device, digest, request, Pending, (IntervalOf(interval) + 500) / 1_000, now + IntervalOf(interval), None)
  }

  function CreateScript(r: Redis, rec: Rec, ttl: int, now: int): (Redis, bool) {
    if rec.device in r.records || rec.digest in r.index then (r, false)
    else (Redis(r.records[rec.device := Stored(rec, now + ttl)], r.index[rec.digest := Entry(rec.device, now + ttl)]), true)
  }

  datatype Answer = NotFound | AuthorizationPending(interval: nat) | SlowDown(interval: nat) | AccessDenied | Granted(rec: Rec)

  function PollScript(r: Redis, device: DeviceId, client: nat, now: int): (Redis, Answer) {
    if device !in r.records then (r, NotFound)
    else
      var s := r.records[device];
      if s.rec.request.client != client then (r, NotFound)
      else match s.rec.status
        case Denied => (r.(records := r.records - {device}), AccessDenied)
        case Approved => (r, Granted(s.rec))
        case Pending =>
          var early := now < s.rec.nextPoll;
          var interval := if early then s.rec.interval + SLOW_DOWN_STEP else s.rec.interval;
          if s.expireAt - now <= 0 then (r.(records := r.records - {device}), NotFound)
          else
            var rec := s.rec.(interval := interval, nextPoll := now + interval * 1_000);
            (r.(records := r.records[device := Stored(rec, now + (s.expireAt - now))]),
             if early then SlowDown(interval) else AuthorizationPending(interval))
  }

  datatype Verdict = Done | Gone | Mismatch

  /** Approve and Deny: `current` is the caller's copy, possibly read earlier. */
  function DecideScript(r: Redis, current: Rec, replacement: Rec, now: int): (Redis, Verdict) {
    if current.device !in r.records then (r, Gone)
    else
      var s := r.records[current.device];
      if s.rec.version != current.version || s.rec.status != Pending then (r, Mismatch)
      else if replacement.version != s.rec.version || replacement.device != s.rec.device
           || replacement.digest != s.rec.digest || replacement.status == Pending then (r, Mismatch)
      else if s.expireAt - now <= 0 then
        (Redis(r.records - {current.device}, r.index - {current.digest}), Gone)
      else
        (Redis(r.records[current.device := Stored(replacement, now + (s.expireAt - now))], r.index - {current.digest}), Done)
  }

  function ConsumeScript(r: Redis, current: Rec): (Redis, Verdict) {
    if current.device !in r.records then (r, Gone)
    else
      var s := r.records[current.device];
      if s.rec.version != current.version || s.rec.status != Approved then (r, Mismatch)
      else (Redis(r.records - {current.device}, r.index - {current.digest}), Done)
  }

  /** FindPendingByUserCode; the record's own deadline is the key's. */
  function FindPending(r: Redis, digest: Digest, now: int): (o: Option<Rec>) {
    if digest !in r.index || r.index[digest].device !in r.records then None
    else
      var s := r.records[r.index[digest].device];
      if s.expireAt <= now || s.rec.status != Pending || s.rec.digest != digest then None else Some(s.rec)
  }

  // ---------------------------------------------------------------- runs

  datatype PollLog = PollLog(device: DeviceId, at: int, answer: Answer)

  /** How a device code started out. */
  datatype Origin = Origin(digest: Digest, request: Request, interval: nat, expireAt: int)

  /** `forms` are the pending copies that users look at, `held` the approved copies that token
      requests got from their poll. `used` are the device codes ever generated; the logs record
      what the scripts answered. */
  datatype Sys = Sys(redis: Redis, clock: int, used: map<DeviceId, Origin>,
                     forms: map<Thread, Rec>, held: map<Thread, Rec>,
                     polls: seq<PollLog>, decisions: seq<(DeviceId, Option<Approval>)>,
                     consumptions: seq<Rec>, grants: seq<Rec>)

  datatype Event =
    | EvCreate(device: DeviceId, version: nat, digest: Digest, request: Request, ttl: int, interval: int, now: int)
    | EvView(t: Thread, device: DeviceId, now: int)
    | EvApprove(t: Thread, approval: Approval, now: int)
    | EvDeny(t: Thread, now: int)
    | EvPoll(t: Thread, device: DeviceId, client: nat, now: int)
    | EvConsume(t: Thread, issue: bool, now: int)

  const START := Sys(Redis(map[], map[]), 0, map[], map[], map[], [], [], [], [])

  function StepCreate(s: Sys, e: Event): Sys
    requires e.EvCreate?
  {
    var rec := NewRecord(e.device, e.version, e.digest, e.request, e.interval, e.now);
    var (r, ok) := CreateScript(s.redis, rec, TtlOf(e.ttl), e.now);
    if e.device in s.used || !ok then s
    else s.(redis := r, used := s.used[e.device := Origin(e.digest, e.request, rec.interval, e.now + TtlOf(e.ttl))])
  }

  /** A user's page reads the pending record, through the user code or by its identifier. */
  function StepView(s: Sys, t: Thread, device: DeviceId, now: int): Sys {
    if device in s.redis.records && s.redis.records[device].rec.status == Pending && now < s.redis.records[device].expireAt
    then s.(forms := s.forms[t := s.redis.records[device].rec]) else s
  }

  function StepDecide(s: Sys, t: Thread, approval: Option<Approval>, now: int): Sys {
    if t !in s.forms then s
    else
      var current := s.forms[t];
      var replacement := current.(status := if approval.Some? then Approved else Denied, approval := approval);
      var (r, v) := DecideScript(s.redis, current, replacement, now);
      s.(redis := r, decisions := if v == Done then s.decisions + [(current.device, approval)] else s.decisions)
  }

  function StepPoll(s: Sys, t: Thread, device: DeviceId, client: nat, now: int): Sys {
    var (r, a) := PollScript(s.redis, device, client, now);
    s.(redis := r, polls := s.polls + [PollLog(device, now, a)],
       held := if a.Granted? then s.held[t := a.rec] else s.held)
  }

  /** The handler consumes before it issues; `issue` says whether the token was then issued. */
  function StepConsume(s: Sys, t: Thread, issue: bool): Sys {
    if t !in s.held then s
    else
      var current := s.held[t];
      var (r, v) := ConsumeScript(s.redis, current);
      if v != Done then s.(redis := r)
      else s.(redis := r, consumptions := s.consumptions + [current],
              grants := if issue then s.grants + [current] else s.grants)
  }

  /** Time does not run backwards: an event from the past is ignored. */
  function Step(s0: Sys, e: Event): Sys {
    if e.now < s0.clock then s0
    else
      var s := s0.(redis := Purge(s0.redis, e.now), clock := e.now);
      match e
      case EvCreate(_, _, _, _, _, _, _) => StepCreate(s, e)
      case EvView(t, device, now) => StepView(s, t, device, now)
      case EvApprove(t, approval, now) => StepDecide(s, t, Some(approval), now)
      case EvDeny(t, now) => StepDecide(s, t, None, now)
      case EvPoll(t, device, client, now) => StepPoll(s, t, device, client, now)
      case EvConsume(t, issue, now) => StepConsume(s, t, issue)
  }

  function Run(es: seq<Event>): Sys
    decreases |es|
  {
    if es == [] then START else Step(Run(es[..|es| - 1]), es[|es| - 1])
  }
}

/** Who may send a message, and when; what each report does; and what a message keeps from its
    creation: exactly, over every run. */
module EmailClaims {
  import opened Base
  import opened EmailModel
  import opened EmailProofs

  /** The event does something to this message, or tries to. */
  predicate Names(e: Event, id: Id) {
    match e
    case EvEnqueue(i, _, _, _, _) => i == id
    case EvClaim(_, ids, _, _) => id in ids
    case EvSent(_, i, _) => i == id
    case EvFailed(_, i, _, _) => i == id
    case EvRejected(_, i, _) => i == id
    case EvExpire(due, _) => id in due
    case EvPrune(_) => false
    case EvDelete(ids) => id in ids
  }

  ghost predicate NoneNames(es: seq<Event>, id: Id) {
    forall i | 0 <= i < |es| :: !Names(es[i], id)
  }

  predicate SameRow(s: Sys, t: Sys, id: Id) {
    (id in s.db.rows <==> id in t.db.rows) && (id in s.db.rows ==> t.db.rows[id] == s.db.rows[id])
  }

  lemma {:induction false} ExpireOthers(db: Db, due: seq<Id>, now: int, id: Id)
    requires id !in due
    ensures id in ExpireAll(db, due, now).rows <==> id in db.rows
    ensures id in db.rows ==> ExpireAll(db, due, now).rows[id] == db.rows[id]
  {
    hide AddDaily;
    if due != [] { ExpireOthers(db, due[..|due| - 1], now, id); }
  }

  lemma UnnamedStep(s: Sys, e: Event, id: Id)
    requires !Names(e, id)
    ensures SameRow(s, Step(s, e), id)
  {
    hide AddDaily, AddMinute, Eligible, ExpireAll, Prune, PruneMinutes, AddPruned;
    if e.EvExpire? { ExpireOthers(s.db, e.due, e.now, id); }
  }

  lemma {:induction false} RunOne(es: seq<Event>, e: Event)
    ensures Run(es + [e]) == Step(Run(es), e)
  {
    assert (es + [e])[..|es|] == es;
  }

  lemma {:induction false} Unnamed(es: seq<Event>, more: seq<Event>, id: Id)
    requires NoneNames(more, id)
    ensures SameRow(Run(es), Run(es + more), id)
    decreases |more|
  {
    hide Step, Run, Names;
    if more == [] {
      assert es + more == es;
    } else {
      var front, e := more[..|more| - 1], more[|more| - 1];
      Unnamed(es, front, id);
      assert es + more == (es + front) + [e];
      RunOne(es + front, e);
      UnnamedStep(Run(es + front), e, id);
    }
  }

  // ---------------------------------------------------------------- taking a message

  /** Worker `v` claims the message now and gets it, one attempt later. */
  predicate Takes(s: Sys, v: Worker, id: Id, now: int, lease: int) {
    var t := Step(s, EvClaim(v, {id}, now, lease));
    && id in s.db.rows && id in t.db.rows
    && t.db.rows[id] == s.db.rows[id].(status := Sending(now, v), attempts := s.db.rows[id].attempts + 1)
  }

  lemma TakesIf(s: Sys, v: Worker, id: Id, now: int, lease: int)
    requires id in s.db.rows
    ensures Takes(s, v, id, now, lease) <==> Eligible(s.db.rows[id], now, lease)
  {
    hide Eligible, AddPruned;
  }

  lemma {:induction false} TakesLater(es: seq<Event>, more: seq<Event>, v: Worker, id: Id, now: int, lease: int)
    requires id in Run(es).db.rows && NoneNames(more, id)
    ensures Takes(Run(es + more), v, id, now, lease) <==> Eligible(Run(es).db.rows[id], now, lease)
  {
    hide Run, Takes, Eligible;
    Unnamed(es, more, id);
    TakesIf(Run(es + more), v, id, now, lease);
  }

  /** The call creates the message. */
  predicate Creates(s: Sys, e: Event) {
    e.EvEnqueue? && e.cipher != "" && e.createdAt < e.expiresAt && e.id !in s.db.rows && e.id !in s.deleted
  }

  /** A new message can be taken exactly from its time on and before its deadline. */
  lemma {:induction false} EnqueuedTakenExactly(es: seq<Event>, e: Event, more: seq<Event>, v: Worker, now: int, lease: int)
    requires Creates(Run(es), e) && NoneNames(more, e.id)
    ensures Takes(Run(es + [e] + more), v, e.id, now, lease) <==> e.availableAt <= now < e.expiresAt
  {
    RunOne(es, e);
    hide Takes, AddDaily, Run;
    TakesLater(es + [e], more, v, e.id, now, lease);
  }

  /** A message whose attempt failed before its deadline can be taken exactly from the retry time on
      and before the deadline. */
  lemma {:induction false} FailedTakenExactly(es: seq<Event>, w: Worker, id: Id, retryAt: int, at: int, more: seq<Event>,
                                              v: Worker, now: int, lease: int)
    requires Leased(Run(es).db, id, w) && at < Run(es).db.rows[id].expiresAt && NoneNames(more, id)
    ensures Takes(Run(es + [EvFailed(w, id, retryAt, at)] + more), v, id, now, lease) <==>
            retryAt <= now < Run(es).db.rows[id].expiresAt
  {
    RunOne(es, EvFailed(w, id, retryAt, at));
    hide Takes, AddDaily, AddMinute, Run;
    TakesLater(es + [EvFailed(w, id, retryAt, at)], more, v, id, now, lease);
  }

  lemma ClaimTook(s: Sys, w: Worker, ids: set<Id>, id: Id, at: int, lease: int)
    requires id in ids && Step(s, EvClaim(w, ids, at, lease)) != s
    ensures var t := Step(s, EvClaim(w, ids, at, lease));
      id in s.db.rows && id in t.db.rows && t.db.rows[id].status == Sending(at, w) && t.db.rows[id].expiresAt == s.db.rows[id].expiresAt
  {
    hide Eligible;
  }

  /** A message whose sender took it, and then crashed or not, can be taken again exactly once the
      lease is over and before the deadline. */
  lemma {:induction false} ClaimedTakenExactly(es: seq<Event>, w: Worker, ids: set<Id>, id: Id, at: int, lease0: int,
                                               more: seq<Event>, v: Worker, now: int, lease: int)
    requires id in ids && Run(es + [EvClaim(w, ids, at, lease0)]) != Run(es) && NoneNames(more, id)
    ensures id in Run(es).db.rows
    ensures Takes(Run(es + [EvClaim(w, ids, at, lease0)] + more), v, id, now, lease) <==>
            (now - at > lease && now < Run(es).db.rows[id].expiresAt)
  {
    RunOne(es, EvClaim(w, ids, at, lease0));
    ClaimTook(Run(es), w, ids, id, at, lease0);
    hide Takes, Run, Step;
    TakesLater(es + [EvClaim(w, ids, at, lease0)], more, v, id, now, lease);
  }

  /** Once another worker has taken the message, the former one's reports change nothing. */
  lemma {:induction false} LeaseFences(es: seq<Event>, v: Worker, ids: set<Id>, id: Id, at: int, lease: int,
                                       more: seq<Event>, w: Worker, e: Event)
    requires id in ids && Run(es + [EvClaim(v, ids, at, lease)]) != Run(es) && NoneNames(more, id) && w != v
    requires (e.EvSent? || e.EvFailed? || e.EvRejected?) && e.worker == w && e.id == id
    ensures var s := Run(es + [EvClaim(v, ids, at, lease)] + more); Step(s, e) == s
  {
    RunOne(es, EvClaim(v, ids, at, lease));
    ClaimTook(Run(es), v, ids, id, at, lease);
    hide Run;
    Unnamed(es + [EvClaim(v, ids, at, lease)], more, id);
    assert !Leased(Run(es + [EvClaim(v, ids, at, lease)] + more).db, id, w);
    hide AddDaily, AddMinute, SameRow;
  }

  // ---------------------------------------------------------------- what becomes of a message

  /** What a report of the worker that has the message makes of it. */
  lemma {:induction false} ReportedExactly(es: seq<Event>, e: Event)
    requires (e.EvSent? || e.EvFailed? || e.EvRejected?) && Leased(Run(es).db, e.id, e.worker)
    ensures var row, t := Run(es).db.rows[e.id], Run(es + [e]);
      e.id in t.db.rows && t.db.rows[e.id] ==
        match e
        case EvSent(_, _, now) => row.(status := Sent(now), cipher := "")
        case EvRejected(_, _, now) => row.(status := Rejected(now), cipher := "")
        case EvFailed(_, _, retryAt, now) =>
          if now < row.expiresAt then row.(status := Failed, availableAt := retryAt) else row.(status := Expired, cipher := "")
        case _ => row
  {
    RunOne(es, e);
    hide Run, AddDaily, AddMinute;
  }

  lemma {:induction false} ExpireExactly(db: Db, due: seq<Id>, now: int, id: Id)
    requires id in db.rows && id in due
    ensures id in ExpireAll(db, due, now).rows
    ensures ExpireAll(db, due, now).rows[id] ==
      if db.rows[id].status in {Pending, Failed} || db.rows[id].status.Sending?
      then (if db.rows[id].expiresAt <= now then db.rows[id].(status := Expired, cipher := "") else db.rows[id]) else db.rows[id]
  {
    hide AddDaily;
    var front, last := due[..|due| - 1], due[|due| - 1];
    if id in front { ExpireExactly(db, front, now, id); } else { ExpireOthers(db, front, now, id); }
  }

  /** The expiry job ends exactly the messages that are still open at or past their deadline. */
  lemma {:induction false} ExpiredExactly(es: seq<Event>, due: seq<Id>, now: int, id: Id)
    requires id in Run(es).db.rows && id in due
    ensures var row, t := Run(es).db.rows[id], Run(es + [EvExpire(due, now)]);
      && id in t.db.rows
      && t.db.rows[id] == if !Terminal(row) && row.expiresAt <= now then row.(status := Expired, cipher := "") else row
  {
    RunOne(es, EvExpire(due, now));
    ExpireExactly(Run(es).db, due, now, id);
    hide Run, ExpireAll;
  }

  /** Event `i` created the message. */
  predicate CreatedBy(es: seq<Event>, i: nat, id: Id) {
    i < |es| && es[i].EvEnqueue? && es[i].id == id && Creates(Run(es[..i]), es[i])
  }

  /** A message keeps its creation time and deadline for good, and its ciphertext until it is sent,
      rejected or expired. */
  predicate AsCreated(row: Row, e: Event) {
    && e.EvEnqueue? && row.createdAt == e.createdAt && row.expiresAt == e.expiresAt
    && (if Terminal(row) then row.cipher == "" else row.cipher == e.cipher)
  }

  lemma {:induction false} ExpireKeepsOrigin(db: Db, due: seq<Id>, now: int, id: Id, e: Event)
    requires id in db.rows && AsCreated(db.rows[id], e)
    ensures id in ExpireAll(db, due, now).rows && AsCreated(ExpireAll(db, due, now).rows[id], e)
  {
    hide AddDaily;
    if due != [] { ExpireKeepsOrigin(db, due[..|due| - 1], now, id, e); }
  }

  lemma StepKeepsOrigin(s: Sys, e: Event, id: Id, c: Event)
    requires id in Step(s, e).db.rows && (id in s.db.rows ==> AsCreated(s.db.rows[id], c))
    ensures id in s.db.rows ==> AsCreated(Step(s, e).db.rows[id], c)
    ensures id !in s.db.rows ==> Creates(s, e) && e.id == id && AsCreated(Step(s, e).db.rows[id], e)
  {
    hide AddDaily, AddMinute, ExpireAll, Prune, PruneMinutes, AddPruned;
    if e.EvExpire? {
      if id in s.db.rows { ExpireKeepsOrigin(s.db, e.due, e.now, id, c); } else { ExpireAllKeys(s.db, e.due, e.now); }
    }
  }

  /** Every message is one that some call created, with what that call gave it. */
  lemma {:induction false} MessagesAsCreated(es: seq<Event>, id: Id)
    requires id in Run(es).db.rows
    ensures exists i: nat :: CreatedBy(es, i, id) && AsCreated(Run(es).db.rows[id], es[i])
  {
    var front, e := es[..|es| - 1], es[|es| - 1];
    hide Step, AsCreated, Creates;
    if id in Run(front).db.rows {
      MessagesAsCreated(front, id);
      var i: nat :| CreatedBy(front, i, id) && AsCreated(Run(front).db.rows[id], front[i]);
      StepKeepsOrigin(Run(front), e, id, front[i]);
      assert front[..i] == es[..i];
      assert CreatedBy(es, i, id);
    } else {
      StepKeepsOrigin(Run(front), e, id, e);
      assert CreatedBy(es, |front|, id) by { assert es[..|front|] == front; }
    }
  }

  // ---------------------------------------------------------------- attempts

  /** The event reports a failed attempt of a message that its worker has. */
  predicate FailsNow(db: Db, e: Event) {
    (e.EvFailed? || e.EvRejected?) && Leased(db, e.id, e.worker)
  }

  /** How many failed attempts were reported in the `k`-th unit of time. */
  function Attempts(es: seq<Event>, unit: int, k: int): nat
    requires unit > 0
    decreases |es|
  {
    if es == [] then 0
    else
      var front, e := es[..|es| - 1], es[|es| - 1];
      Attempts(front, unit, k) + if FailsNow(Run(front).db, e) && e.now / unit == k then 1 else 0
  }

  /** Every refresh so far kept the minute. */
  ghost predicate MinuteKept(es: seq<Event>, m: int) {
    forall i | 0 <= i < |es| && es[i].EvPrune? :: es[i].now - 2 * DAY <= m * MINUTE
  }

  ghost predicate DayKept(es: seq<Event>, day: int) {
    forall i | 0 <= i < |es| && es[i].EvPrune? :: es[i].now / DAY - 90 < day
  }

  function MinuteCount(db: Db, m: int): nat {
    if m in db.minutes then db.minutes[m] else 0
  }

  lemma AddDailyOn(stats: map<int, Daily>, at: int, delta: Daily, day: int)
    ensures On(AddDaily(stats, at, delta), day).failedAttempts == On(stats, day).failedAttempts + if at / DAY == day then delta.failedAttempts else 0
  {}

  lemma AddMinuteCount(db: Db, minutes: map<int, nat>, at: int, m: int)
    requires minutes == AddMinute(db.minutes, at)
    ensures (if m in minutes then minutes[m] else 0) == MinuteCount(db, m) + if at / MINUTE == m then 1 else 0
  {}

  lemma {:induction false} ExpireLeavesAttempts(db: Db, due: seq<Id>, now: int, m: int, day: int)
    ensures ExpireAll(db, due, now).minutes == db.minutes
    ensures On(ExpireAll(db, due, now).stats, day).failedAttempts == On(db.stats, day).failedAttempts
  {
    hide AddDaily, On;
    if due != [] {
      var front, last := due[..|due| - 1], due[|due| - 1];
      ExpireLeavesAttempts(db, front, now, m, day);
      var was := ExpireAll(db, front, now);
      if last in was.rows { AddDailyOn(was.stats, was.rows[last].expiresAt, NOTHING.(expired := 1), day); }
    }
  }

  /** The counts of failed attempts after a transaction. */
  ghost predicate Counts(db: Db, db': Db, m: int, day: int, add: nat, now: int) {
    && MinuteCount(db', m) == MinuteCount(db, m) + (if now / MINUTE == m then add else 0)
    && On(db'.stats, day).failedAttempts == On(db.stats, day).failedAttempts + (if now / DAY == day then add else 0)
  }

  lemma ReportCounts(db: Db, e: Event, m: int, day: int)
    requires FailsNow(db, e)
    ensures Counts(db, DbStep(db, e), m, day, 1, e.now)
  {
    hide AddDaily, AddMinute, On;
    var minutes := AddMinute(db.minutes, e.now);
    AddMinuteCount(db, minutes, e.now, m);
    if e.EvFailed? {
      AddDailyOn(db.stats, e.now, NOTHING.(failedAttempts := 1), day);
      var stats := AddDaily(db.stats, e.now, NOTHING.(failedAttempts := 1));
      AddDailyOn(stats, db.rows[e.id].expiresAt, NOTHING.(expired := 1), day);
    } else {
      AddDailyOn(db.stats, e.now, NOTHING.(failedAttempts := 1, rejected := 1), day);
    }
  }

  lemma OtherCounts(db: Db, e: Event, m: int, day: int)
    requires !FailsNow(db, e) && !e.EvPrune?
    ensures Counts(db, DbStep(db, e), m, day, 0, 0)
  {
    hide AddDaily, AddMinute, On, Eligible, ExpireAll;
    match e
    case EvEnqueue(_, _, _, _, createdAt) => AddDailyOn(db.stats, createdAt, NOTHING.(enqueued := 1), day);
    case EvSent(_, _, now) => AddDailyOn(db.stats, now, NOTHING.(sent := 1), day);
    case EvExpire(due, now) => ExpireLeavesAttempts(db, due, now, m, day);
    case _ =>
  }

  lemma AttemptStep(s: Sys, e: Event, m: int, day: int)
    ensures (e.EvPrune? ==> e.now - 2 * DAY <= m * MINUTE) ==>
      MinuteCount(Step(s, e).db, m) == MinuteCount(s.db, m) + if FailsNow(s.db, e) && e.now / MINUTE == m then 1 else 0
    ensures (e.EvPrune? ==> e.now / DAY - 90 < day) ==>
      On(Step(s, e).db.stats, day).failedAttempts == On(s.db.stats, day).failedAttempts + if FailsNow(s.db, e) && e.now / DAY == day then 1 else 0
  {
    if FailsNow(s.db, e) { ReportCounts(s.db, e, m, day); } else if !e.EvPrune? { OtherCounts(s.db, e, m, day); }
    hide AddPruned;
    if !e.EvPrune? { hide DbStep, On; }
  }

  /** The failures of a minute and of a day are those reported in it, as long as no refresh forgot it. */
  lemma {:induction false} AttemptsCounted(es: seq<Event>, m: int, day: int)
    ensures MinuteKept(es, m) ==> MinuteCount(Run(es).db, m) == Attempts(es, MINUTE, m)
    ensures DayKept(es, day) ==> On(Run(es).db.stats, day).failedAttempts == Attempts(es, DAY, day)
    decreases |es|
  {
    hide Step, On, FailsNow;
    if es == [] {
      StartAttempts(m, day);
    } else {
      var front, e := es[..|es| - 1], es[|es| - 1];
      AttemptsCounted(front, m, day);
      AttemptStep(Run(front), e, m, day);
    }
  }

  lemma StartAttempts(m: int, day: int)
    ensures MinuteCount(START.db, m) == 0 && On(START.db.stats, day).failedAttempts == 0
  {}

  /** A refresh forgets exactly the days before the last ninety, and the minutes before two days. */
  lemma {:induction false} RefreshKeepsExactly(es: seq<Event>, now: int, m: int, day: int)
    ensures var s, t := Run(es), Run(es + [EvPrune(now)]);
      && On(t.db.stats, day) == (if now / DAY - 90 < day then On(s.db.stats, day) else NOTHING)
      && MinuteCount(t.db, m) == (if now - 2 * DAY <= m * MINUTE then MinuteCount(s.db, m) else 0)
      && t.db.rows == s.db.rows
  {
    RunOne(es, EvPrune(now));
    hide Run, AddPruned;
  }
}

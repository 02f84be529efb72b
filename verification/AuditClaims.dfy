/** Who may take an audit event, and when: exactly from its retry time on, or once the lease of the
    dispatcher that has it is over, whatever runs in between. */
module AuditClaims {
  import opened Base
  import opened AuditModel
  import opened AuditProofs

  /** The event does something to this outbox row, or tries to. */
  predicate Names(e: Event, id: Id) {
    match e
    case EvEnqueue(i, _, _) => i == id
    case EvClaim(_, ids, _, _, _) => id in ids
    case EvDeliver(_, i, _, _) => i == id
    case EvFail(_, i, _, _) => i == id
    case EvCleanup(ids, _) => id in ids
    case _ => false
  }

  ghost predicate NoneNames(es: seq<Event>, id: Id) {
    forall i | 0 <= i < |es| :: !Names(es[i], id)
  }

  /** The row and what a dispatcher has of it. */
  ghost predicate SameRow(s: Sys, t: Sys, id: Id) {
    && (id in s.db.outbox <==> id in t.db.outbox) && (id in s.db.outbox ==> t.db.outbox[id] == s.db.outbox[id])
    && (id in s.used <==> id in t.used) && (id in s.used ==> t.used[id] == s.used[id])
    && forall w :: Holds(s, w, id) ==> Holds(t, w, id) && t.held[w][id] == s.held[w][id]
  }

  lemma UnnamedDeliver(s: Sys, worker: Worker, i: Id, now: int, fate: Fate, id: Id)
    requires i != id
    ensures SameRow(s, StepDeliver(s, worker, i, now, fate), id)
  {
    if Holds(s, worker, i) && LogOf(i, s.held[worker][i]).Some? { LogKeepsIdentity(i, s.held[worker][i]); }
    hide LogOf, Count;
  }

  lemma UnnamedClaim(s: Sys, worker: Worker, ids: set<Id>, now: int, lease: int, fate: Fate, id: Id)
    requires id !in ids
    ensures SameRow(s, StepClaim(s, worker, ids, now, lease, fate), id)
  {
    hide Eligible;
  }

  lemma UnnamedStep(s: Sys, e: Event, id: Id)
    requires !Names(e, id)
    ensures SameRow(s, Step(s, e), id)
  {
    hide StepDeliver, StepClaim, Stale, StepPrune;
    match e
    case EvDeliver(worker, i, now, fate) => UnnamedDeliver(s, worker, i, now, fate, id);
    case EvClaim(worker, ids, now, lease, fate) => UnnamedClaim(s, worker, ids, now, lease, fate, id);
    case EvPrune(now) => UnnamedPrune(s, now, id);
    case _ =>
  }

  lemma UnnamedPrune(s: Sys, now: int, id: Id)
    ensures SameRow(s, StepPrune(s, now), id)
  {}

  lemma {:induction false} RunOne(es: seq<Event>, e: Event)
    ensures Run(es + [e]) == Step(Run(es), e)
  {
    assert (es + [e])[..|es|] == es;
  }

  lemma {:induction false} Unnamed(es: seq<Event>, more: seq<Event>, id: Id)
    requires NoneNames(more, id)
    ensures SameRow(Run(es), Run(es + more), id)
    decreases |more|
  {
    hide Step, Run, Names;
    if more == [] {
      assert es + more == es;
    } else {
      var front, e := more[..|more| - 1], more[|more| - 1];
      Unnamed(es, front, id);
      assert es + more == (es + front) + [e];
      RunOne(es + front, e);
      UnnamedStep(Run(es + front), e, id);
    }
  }

  /** Dispatcher `v` claims the event now: it gets the event as it was enqueued, one attempt later. */
  predicate Takes(s: Sys, v: Worker, id: Id, now: int, lease: int) {
    var t := Step(s, EvClaim(v, {id}, now, lease, Committed));
    && id in s.db.outbox && id in t.db.outbox && id in s.used
    && t.db.outbox[id] == s.db.outbox[id].(status := Processing(now, v), attempts := s.db.outbox[id].attempts + 1)
    && Holds(t, v, id) && t.held[v][id] == s.used[id]
  }

  /** The row may be taken at `now`, by anyone. */
  lemma TakesIf(s: Sys, v: Worker, id: Id, now: int, lease: int)
    requires id in s.db.outbox && id in s.used && s.db.outbox[id].body == s.used[id]
    ensures Takes(s, v, id, now, lease) <==> Eligible(s.db.outbox[id], now, lease)
  {
    hide Eligible;
  }

  lemma {:induction false} BodyKept(es: seq<Event>, id: Id)
    requires id in Run(es).db.outbox
    ensures id in Run(es).used && Run(es).db.outbox[id].body == Run(es).used[id]
  {
    Always(es);
  }

  lemma {:induction false} TakesLater(es: seq<Event>, more: seq<Event>, v: Worker, id: Id, now: int, lease: int)
    requires id in Run(es).db.outbox && NoneNames(more, id)
    ensures Takes(Run(es + more), v, id, now, lease) <==> Eligible(Run(es).db.outbox[id], now, lease)
  {
    hide Run, Takes, Eligible;
    Unnamed(es, more, id);
    BodyKept(es + more, id);
    TakesIf(Run(es + more), v, id, now, lease);
  }

  /** A newly enqueued event can be taken exactly from its time on. */
  lemma {:induction false} EnqueuedTakenExactly(es: seq<Event>, id: Id, body: Body, availableAt: int, more: seq<Event>,
                                                v: Worker, now: int, lease: int)
    requires id !in Run(es).used && NoneNames(more, id)
    ensures Takes(Run(es + [EvEnqueue(id, body, availableAt)] + more), v, id, now, lease) <==> availableAt <= now
  {
    hide Takes;
    Always(es);
    RunOne(es, EvEnqueue(id, body, availableAt));
    var row := Run(es + [EvEnqueue(id, body, availableAt)]).db.outbox[id];
    assert row == Row(body, Pending, 0, availableAt);
    TakesLater(es + [EvEnqueue(id, body, availableAt)], more, v, id, now, lease);
  }

  /** A failed event can be taken exactly from its retry time on. */
  lemma {:induction false} FailedTakenExactly(es: seq<Event>, w: Worker, id: Id, retryAt: int, fate: Fate, more: seq<Event>,
                                              v: Worker, now: int, lease: int)
    requires Holds(Run(es), w, id) && Leased(Run(es).db, id, w) && !fate.Aborted? && NoneNames(more, id)
    ensures Takes(Run(es + [EvFail(w, id, retryAt, fate)] + more), v, id, now, lease) <==> retryAt <= now
  {
    hide Takes;
    RunOne(es, EvFail(w, id, retryAt, fate));
    hide Run;
    TakesLater(es + [EvFail(w, id, retryAt, fate)], more, v, id, now, lease);
  }

  /** An event that a dispatcher has taken, and then crashed with or not, can be taken again exactly
      once the lease is over. */
  lemma {:induction false} ClaimedTakenExactly(es: seq<Event>, w: Worker, ids: set<Id>, id: Id, at: int, lease0: int, fate: Fate,
                                               more: seq<Event>, v: Worker, now: int, lease: int)
    requires id in ids && Run(es + [EvClaim(w, ids, at, lease0, fate)]) != Run(es) && NoneNames(more, id)
    ensures Takes(Run(es + [EvClaim(w, ids, at, lease0, fate)] + more), v, id, now, lease) <==> now - at > lease
  {
    hide Takes;
    RunOne(es, EvClaim(w, ids, at, lease0, fate));
    ClaimTook(Run(es), w, ids, id, at, lease0, fate);
    hide Run;
    TakesLater(es + [EvClaim(w, ids, at, lease0, fate)], more, v, id, now, lease);
  }

  lemma ClaimTook(s: Sys, w: Worker, ids: set<Id>, id: Id, at: int, lease: int, fate: Fate)
    requires id in ids && Step(s, EvClaim(w, ids, at, lease, fate)) != s
    ensures var t := Step(s, EvClaim(w, ids, at, lease, fate));
      id in t.db.outbox && t.db.outbox[id].status == Processing(at, w)
  {
    hide Eligible;
  }

  /** Once another dispatcher has taken the event, the former one can neither deliver nor fail it. */
  lemma {:induction false} LeaseFences(es: seq<Event>, v: Worker, ids: set<Id>, id: Id, at: int, lease: int, fate: Fate,
                                       more: seq<Event>, w: Worker, e: Event)
    requires id in ids && Run(es + [EvClaim(v, ids, at, lease, fate)]) != Run(es) && NoneNames(more, id) && w != v
    requires (e.EvDeliver? || e.EvFail?) && e.worker == w && e.id == id
    ensures var s := Run(es + [EvClaim(v, ids, at, lease, fate)] + more);
      Step(s, e) == s
  {
    RunOne(es, EvClaim(v, ids, at, lease, fate));
    ClaimTook(Run(es), v, ids, id, at, lease, fate);
    hide Run;
    Unnamed(es + [EvClaim(v, ids, at, lease, fate)], more, id);
    var s := Run(es + [EvClaim(v, ids, at, lease, fate)] + more);
    assert !Leased(s.db, id, w);
    if e.EvDeliver? && Holds(s, w, id) && LogOf(id, s.held[w][id]).Some? { LogKeepsIdentity(id, s.held[w][id]); }
    hide LogOf, SameRow;
  }

  /** The cleanup removes the named rows exactly if each of them was processed before the given time. */
  lemma {:induction false} CleanedExactly(es: seq<Event>, ids: set<Id>, before: int, id: Id)
    ensures var rows, rows' := Run(es).db.outbox, Run(es + [EvCleanup(ids, before)]).db.outbox;
      && (id in rows' <==>
            && id in rows
            && !(id in ids && forall i | i in ids :: i in rows && rows[i].status.Processed? && rows[i].status.at < before))
      && (id in rows' ==> rows'[id] == rows[id])
  {
    RunOne(es, EvCleanup(ids, before));
    hide Run;
  }

  /** The waits between attempts: one minute, doubling up to sixty-four. */
  lemma RetrySchedule(n: int)
    ensures n <= 1 ==> RetryDelay(n) == MINUTE
    ensures 1 <= n < 7 ==> RetryDelay(n + 1) == 2 * RetryDelay(n)
    ensures n >= 7 ==> RetryDelay(n) == 64 * MINUTE
  {
    assert Pow2(1) == 2 && Pow2(2) == 4 && Pow2(3) == 8 && Pow2(4) == 16 && Pow2(5) == 32 && Pow2(6) == 64;
  }
}

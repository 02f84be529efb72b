/** Runs of the media migration: the ones its guarantees are about, and the runs of a worker that
    meets no error, from any state. */
module MediaRuns {
  import opened Base
  import opened MediaModel

  function At(s: Sys, p: Place, k: Key): Option<Bytes> {
    if (p, k) in s.blobs then Some(s.blobs[(p, k)]) else None
  }

  /** No writer other than the migration touches avatar rows: media writes are paused. */
  predicate MediaPaused(es: seq<Event>) {
    forall i | 0 <= i < |es| :: !es[i].EvMoveAvatar?
  }

  /** A write by a worker whose claim was superseded stores what was sent. No check of a current
      worker follows such a write, so nothing in the protocol would notice. */
  predicate LateWriteFaithful(s: Sys, e: Event) {
    e.EvWrite? && e.fate != Aborted && PcOf(s, e.t).Writing? && !Current(s.db, PcOf(s, e.t).w) ==> e.stored == PcOf(s, e.t).body
  }

  ghost predicate LateWritesFaithful(s0: Sys, es: seq<Event>) {
    forall i | 0 <= i < |es| :: LateWriteFaithful(Run(s0, es[..i]), es[i])
  }

  /** The runs that the guarantees are about. */
  ghost predicate Orderly(s0: Sys, es: seq<Event>) {
    MediaPaused(es) && LateWritesFaithful(s0, es)
  }

  lemma {:induction false} RunOne(s: Sys, es: seq<Event>, e: Event)
    ensures Run(s, es + [e]) == Step(Run(s, es), e)
  {
    assert (es + [e])[..|es|] == es;
  }

  lemma {:induction false} RunMore(s: Sys, es: seq<Event>, more: seq<Event>)
    ensures Run(s, es + more) == Run(Run(s, es), more)
    decreases |more|
  {
    hide Step;
    if more == [] {
      assert es + more == es;
    } else {
      var front, e := more[..|more| - 1], more[|more| - 1];
      RunMore(s, es, front);
      assert es + more == (es + front) + [e];
      RunOne(s, es + front, e);
    }
  }

  // ---------------------------------------------------------------- reaching a state in order

  /** Some orderly run leads from `s` to `s'`. */
  ghost predicate Reach(s: Sys, s': Sys) {
    exists es :: Orderly(s, es) && Run(s, es) == s'
  }

  lemma ReachSelf(s: Sys)
    ensures Reach(s, s)
  {
    assert Orderly(s, []) && Run(s, []) == s;
  }

  lemma {:induction false} OrderlyOne(s: Sys, es: seq<Event>, e: Event)
    requires Orderly(s, es) && !e.EvMoveAvatar? && LateWriteFaithful(Run(s, es), e)
    ensures Orderly(s, es + [e])
  {
    hide Run, LateWriteFaithful;
    var all := es + [e];
    forall i | 0 <= i < |all| ensures LateWriteFaithful(Run(s, all[..i]), all[i]) {
      assert all[..i] == if i < |es| then es[..i] else es;
    }
  }

  lemma ReachStep(s: Sys, u: Sys, e: Event)
    requires Reach(s, u) && !e.EvMoveAvatar? && LateWriteFaithful(u, e)
    ensures Reach(s, Step(u, e))
  {
    hide Orderly, Step, Run, LateWriteFaithful;
    var es :| Orderly(s, es) && Run(s, es) == u;
    OrderlyOne(s, es, e);
    RunOne(s, es, e);
  }

  lemma {:induction false} OrderlyMore(s: Sys, es: seq<Event>, more: seq<Event>)
    requires Orderly(s, es) && Orderly(Run(s, es), more)
    ensures Orderly(s, es + more)
  {
    hide Run, LateWriteFaithful;
    var all := es + more;
    forall i | 0 <= i < |all| ensures LateWriteFaithful(Run(s, all[..i]), all[i]) {
      if i < |es| {
        assert all[..i] == es[..i];
      } else {
        assert all[..i] == es + more[..i - |es|];
        RunMore(s, es, more[..i - |es|]);
      }
    }
  }

  lemma ReachMore(s: Sys, u: Sys, v: Sys)
    requires Reach(s, u) && Reach(u, v)
    ensures Reach(s, v)
  {
    hide Orderly, Run;
    var es :| Orderly(s, es) && Run(s, es) == u;
    var more :| Orderly(u, more) && Run(u, more) == v;
    OrderlyMore(s, es, more);
    RunMore(s, es, more);
  }

  // ---------------------------------------------------------------- a worker that meets no error

  /** Every variant is at its recorded source with its recorded size. */
  predicate SourceThere(s: Sys, a: AvatarId, source: StoreRef, variants: seq<Variant>) {
    source in s.places && forall j | 0 <= j < |variants| ::
      At(s, s.places[source], Key(a, variants[j].size)).Some? && |At(s, s.places[source], Key(a, variants[j].size)).value| == variants[j].bytes
  }

  /** Thread `t` worked on the blobs of avatar `a`, and on nothing else. */
  ghost predicate BlobsOnly(s: Sys, s': Sys, t: Thread, a: AvatarId) {
    && s'.db == s.db && s'.places == s.places
    && (forall u | u != t :: PcOf(s', u) == PcOf(s, u))
    && (forall p, k: Key | k.avatar != a :: At(s', p, k) == At(s, p, k))
  }

  /** Such work that left the place as it was. */
  ghost predicate PlaceKept(s: Sys, s': Sys, p: Place) {
    forall k :: At(s', p, k) == At(s, p, k)
  }

  lemma CopyVariant(s: Sys, t: Thread, w: Work, i: nat) returns (s': Sys)
    requires PcOf(s, t) == Reading(w, i) && i < |w.variants| && w.target in s.places
    requires SourceThere(s, w.avatar, w.source, w.variants)
    ensures Reach(s, s') && BlobsOnly(s, s', t, w.avatar) && PlaceKept(s, s', s.places[w.source])
    ensures PcOf(s', t) == NextCopy(w, i + 1)
  {
    var body := At(s, s.places[w.source], KeyOf(w, i)).value;
    var read, write, check := EvRead(t, true), EvWrite(t, body, Committed), EvCheck(t, true);
    var s1 := Step(s, read);
    assert s1 == SetPc(s, t, Writing(w, i, body));
    var s2 := Step(s1, write);
    assert PcOf(s2, t) == Checking(w, i, body) && At(s2, s.places[w.target], KeyOf(w, i)) == Some(body);
    s' := Step(s2, check);
    assert s' == SetPc(s2, t, NextCopy(w, i + 1));
    ReachCopy(s, s1, s2, read, write, check);
  }

  lemma ReachCopy(s: Sys, s1: Sys, s2: Sys, read: Event, write: Event, check: Event)
    requires read.EvRead? && write.EvWrite? && check.EvCheck?
    requires s1 == Step(s, read) && s2 == Step(s1, write) && LateWriteFaithful(s1, write)
    ensures Reach(s, Step(s2, check))
  {
    hide Step, Reach;
    ReachSelf(s);
    ReachStep(s, s, read);
    ReachStep(s, s1, write);
    ReachStep(s, s2, check);
  }

  /** The copy loop ends ready to switch. */
  lemma {:induction false} CopyLoop(s: Sys, t: Thread, w: Work, i: nat) returns (s': Sys)
    requires i <= |w.variants| && PcOf(s, t) == NextCopy(w, i) && w.target in s.places
    requires SourceThere(s, w.avatar, w.source, w.variants)
    ensures Reach(s, s') && BlobsOnly(s, s', t, w.avatar) && PlaceKept(s, s', s.places[w.source])
    ensures PcOf(s', t) == Switching(w)
    decreases |w.variants| - i
  {
    hide Reach;
    if i == |w.variants| {
      ReachSelf(s);
      s' := s;
    } else {
      var u := CopyVariant(s, t, w, i);
      s' := CopyLoop(u, t, w, i + 1);
      ReachMore(s, u, s');
    }
  }

  /** The variants from the `i`-th on are gone from the place, and nothing else came to be there. */
  ghost predicate GoneFrom(s: Sys, s': Sys, w: Work, p: Place, i: nat) {
    && (forall j | i <= j < |w.variants| :: At(s', p, KeyOf(w, j)) == None)
    && (forall k | At(s, p, k) == None :: At(s', p, k) == None)
  }

  lemma DeleteVariant(s: Sys, t: Thread, w: Work, i: nat) returns (s': Sys)
    requires PcOf(s, t) == Deleting(w, i) && i < |w.variants| && w.source in s.places
    ensures Reach(s, s') && BlobsOnly(s, s', t, w.avatar)
    ensures PcOf(s', t) == NextDelete(w, i + 1)
    ensures At(s', s.places[w.source], KeyOf(w, i)) == None && GoneFrom(s, s', w, s.places[w.source], |w.variants|)
  {
    s' := Step(s, EvDelete(t, Committed));
    ReachSelf(s);
    ReachStep(s, s, EvDelete(t, Committed));
  }

  /** The delete loop ends ready to complete. */
  lemma {:induction false} DeleteLoop(s: Sys, t: Thread, w: Work, i: nat) returns (s': Sys)
    requires i <= |w.variants| && PcOf(s, t) == NextDelete(w, i) && w.source in s.places
    ensures Reach(s, s') && BlobsOnly(s, s', t, w.avatar) && GoneFrom(s, s', w, s.places[w.source], i)
    ensures PcOf(s', t) == Completing(w)
    decreases |w.variants| - i
  {
    hide Reach;
    if i == |w.variants| {
      ReachSelf(s);
      s' := s;
    } else {
      var u := DeleteVariant(s, t, w, i);
      s' := DeleteLoop(u, t, w, i + 1);
      ReachMore(s, u, s');
    }
  }

  predicate BothResolve(s: Sys, a: AvatarId)
    requires a in s.db.items
  {
    s.db.items[a].source in s.places && s.db.items[a].target in s.places
  }

  /** The item is there for the thread to claim at `now`, and both its stores resolve. */
  predicate ReadyFor(s: Sys, t: Thread, a: AvatarId, now: int) {
    && PcOf(s, t) == Idle && Claiming(s.db.mig)
    && a in s.db.items && a in s.db.avatars && Claimable(s.db.items[a], now) && BothResolve(s, a)
  }

  /** What one claim changes: the item's claim columns and the migration's status. */
  ghost predicate ClaimedBy(db: Db, db': Db, a: AvatarId, worker: Worker, now: int)
    requires a in db.items
  {
    && db'.avatars == db.avatars && db'.state == db.state && db'.instances == db.instances
    && db'.mig == db.mig.(status := MRunning)
    && a in db'.items && db'.items == db.items[a := db'.items[a]]
    && db'.items[a].source == db.items[a].source && db'.items[a].target == db.items[a].target
    && (db.items[a].status == Switched ==> db'.items[a].status == Switched)
    && (db.items[a].status != Switched ==> db'.items[a].status == Copying && db'.items[a].lock == Some(Lock(worker, now)))
  }

  ghost predicate WorkFor(db: Db, w: Work, a: AvatarId, worker: Worker)
    requires a in db.items && a in db.avatars
  {
    && w.avatar == a && w.worker == worker && w.attempt == db.items[a].attempts && w.status == db.items[a].status
    && w.source == db.items[a].source && w.target == db.items[a].target && w.variants == db.avatars[a].variants
  }

  lemma ClaimItem(db: Db, a: AvatarId, worker: Worker, now: int)
    requires Claiming(db.mig) && a in db.items && a in db.avatars && Claimable(db.items[a], now)
    ensures Claim(db, a, worker, now).Some?
    ensures var (db', w) := Claim(db, a, worker, now).value;
      ClaimedBy(db, db', a, worker, now) && WorkFor(db', w, a, worker)
  {}

  /** Claiming the item and resolving its stores. */
  lemma ClaimAndResolve(s: Sys, t: Thread, worker: Worker, a: AvatarId, now: int) returns (s': Sys, w: Work)
    requires ReadyFor(s, t, a, now)
    ensures Reach(s, s') && s'.blobs == s.blobs && s'.places == s.places
    ensures forall u | u != t :: PcOf(s', u) == PcOf(s, u)
    ensures ClaimedBy(s.db, s'.db, a, worker, now) && WorkFor(s'.db, w, a, worker)
    ensures PcOf(s', t) == if w.status == Switched then NextDelete(w, 0) else NextCopy(w, 0)
  {
    ClaimItem(s.db, a, worker, now);
    w := Claim(s.db, a, worker, now).value.1;
    var u := Step(s, EvClaim(t, worker, a, now, Committed));
    assert u == SetPc(s.(db := Claim(s.db, a, worker, now).value.0), t, Claimed(w));
    s' := Step(u, EvResolve(t, true));
    ReachSelf(s);
    ReachStep(s, s, EvClaim(t, worker, a, now, Committed));
    ReachStep(s, u, EvResolve(t, true));
    hide Claim, Reach;
  }
}

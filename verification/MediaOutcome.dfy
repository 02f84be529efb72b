/** What a migration comes to: when it may start, be retried and complete, who may take an item, and
    that a completed item leaves exactly one good copy, over every run. */
module MediaOutcome {
  import opened Base
  import opened MediaModel
  import opened MediaRuns
  import opened MediaNoLoss
  import opened MediaProtocol
  import opened MediaRecovery

  // ---------------------------------------------------------------- start and retry

  /** An instance has reported within the last fifteen seconds. */
  predicate Alive(i: Instance, now: int) {
    now - i.heartbeatAt < 15 * SECOND
  }

  /** A start is accepted exactly when the storage state is the one its author saw, media writes are
      paused under the control revision its author saw, every earlier migration is completed, and:
      for an S3 target, the target is the candidate, passed a test within ten minutes, and every live
      instance has prepared it and loaded that state; for the local target, some profile is active
      and no other instance is live. */
  lemma StartsExactly(c: Catalog, i: StartInput, now: int)
    ensures StartMigration(c, i, now).Ok? <==>
      && c.state.revision == i.expectedRevision && !c.unresolved
      && c.control.mediaPaused && c.control.revision == i.controlRevision
      && (i.target.backend == S3 ==>
            && i.target.profile.Some? && c.state.candidate == i.target.profile
            && i.target.profile.value in c.tests && now - c.tests[i.target.profile.value] <= 10 * MINUTE
            && forall j | j in c.instances && Alive(c.instances[j], now) ::
                 c.instances[j].prepared == i.target.profile && c.instances[j].loaded >= i.expectedRevision)
      && (i.target.backend == Local ==>
            && i.target.profile.None? && c.state.active.Some?
            && forall j | j in c.instances && Alive(c.instances[j], now) :: j == i.instance)
    ensures StartMigration(c, i, now).Ok? ==>
      var db := StartMigration(c, i, now).value;
      db.avatars == c.avatars && db.state == c.state && db.instances == c.instances && db.mig.target == i.target && db.mig.status == MPending
  {}

  /** A failed migration is opened again exactly by a retry while media writes are paused under the
      control revision its author saw, the profiles still fit, and, towards the local store, no other
      instance is live; its failed items then wait again, and the others stay as they are. */
  lemma ReopensExactly(s: Sys, e: Event)
    requires s.db.mig.status == MFailed
    ensures Step(s, e).db.mig.status != MFailed <==>
      && e.EvRetry? && e.control.mediaPaused && e.control.revision == e.expected && ProfilesFit(s.db)
      && (s.db.mig.target.backend == Local ==>
            forall j | j in s.db.instances && Alive(s.db.instances[j], e.now) :: j == e.instance)
  {
    hide CountIn, HoldsClaim;
  }

  lemma ReopenedItems(s: Sys, e: Event, a: AvatarId)
    requires s.db.mig.status == MFailed && Step(s, e).db.mig.status != MFailed && a in s.db.items
    ensures Step(s, e).db.mig.status == MPending && a in Step(s, e).db.items
    ensures Step(s, e).db.items[a] ==
      if s.db.items[a].status == Failed then Item(s.db.items[a].source, s.db.items[a].target, Pending, s.db.items[a].attempts, None, e.now)
      else s.db.items[a]
  {
    hide CountIn, HoldsClaim;
  }

  /** Once cut over, the migration is completed exactly when every live instance has loaded the
      state that the cutover made. */
  lemma {:induction false} CompletesExactly(s0: Sys, es: seq<Event>, now: int)
    requires Started(s0) && Run(s0, es).db.mig.status == MApplying
    ensures var s := Run(s0, es);
      Run(s0, es + [EvFinalize(now, Committed)]).db.mig.status == MCompleted <==>
        forall i | i in s.db.instances && Alive(s.db.instances[i], now) :: s.db.instances[i].loaded >= s.db.state.revision
  {
    RunOne(s0, es, EvFinalize(now, Committed));
    RecoverableUntilCutover(s0, es);
    hide Run, Started;
  }

  // ---------------------------------------------------------------- who may take an item

  /** Event `n` is the last claim that made a worker the item's copier. */
  ghost predicate LastClaim(s0: Sys, es: seq<Event>, n: nat, a: AvatarId) {
    && n < |es| && es[n].EvClaim? && es[n].avatar == a
    && a in Run(s0, es[..n]).db.items && a in Run(s0, es).db.items
    && Run(s0, es[..n]).db.items[a].attempts + 1 == Run(s0, es).db.items[a].attempts
  }

  predicate LockedAt(db: Db, a: AvatarId, worker: Worker, at: int) {
    a in db.items && db.items[a].status == Copying && db.items[a].lock == Some(Lock(worker, at))
  }

  /** A step that leaves the item copying either claims it or leaves lock and attempts alone. */
  lemma LockStep(s: Sys, e: Event, a: AvatarId)
    requires a in s.db.items && a in Step(s, e).db.items && Step(s, e).db.items[a].status == Copying
    ensures || (s.db.items[a].status == Copying && Step(s, e).db.items[a].attempts == s.db.items[a].attempts
                && Step(s, e).db.items[a].lock == s.db.items[a].lock)
            || (e.EvClaim? && e.avatar == a && Step(s, e).db.items[a].attempts == s.db.items[a].attempts + 1
                && LockedAt(Step(s, e).db, a, e.worker, e.now))
  {
    hide CountIn, Claim, FinalizeMigration, RetryMigration, HoldsClaim;
    match e
    case EvClaim(t, worker, b, now, _) => if Claim(s.db, b, worker, now).Some? { ClaimLock(s.db, b, worker, now, a); }
    case EvFinalize(now, _) => OtherProgress(s.db, 0, Control(0, true), 0, now, a);
    case EvRetry(i, c, x, now) => if RetryMigration(s.db, i, c, x, now).Ok? { RetryLock(s.db, i, c, x, now, a); }
    case _ =>
  }

  lemma RetryLock(db: Db, i: nat, c: Control, x: nat, now: int, a: AvatarId)
    requires a in db.items && RetryMigration(db, i, c, x, now).Ok?
    ensures var db' := RetryMigration(db, i, c, x, now).value;
      a in db'.items && (db'.items[a] == db.items[a] || db'.items[a].status == Pending)
  {}

  lemma ClaimLock(db: Db, b: AvatarId, worker: Worker, now: int, a: AvatarId)
    requires a in db.items && Claim(db, b, worker, now).Some?
    ensures var db' := Claim(db, b, worker, now).value.0;
      && a in db'.items
      && (db'.items[a].status == Copying ==>
            || db'.items[a] == db.items[a]
            || (a == b && db'.items[a].attempts == db.items[a].attempts + 1 && LockedAt(db', a, worker, now)))
  {}

  /** The lock of an item that is being copied is that of the last claim, with its time. */
  lemma {:induction false} LockIsLastClaim(s0: Sys, es: seq<Event>, a: AvatarId)
    requires Started(s0) && a in s0.db.items
    ensures a in Run(s0, es).db.items
    ensures Run(s0, es).db.items[a].status == Copying ==>
      exists n: nat :: LastClaim(s0, es, n, a) && LockedAt(Run(s0, es).db, a, es[n].worker, es[n].now)
  {
    RunProgress(s0, es, a);
    if es == [] {
      StartedItem(s0, a);
    } else if Run(s0, es).db.items[a].status == Copying {
      var front, e := es[..|es| - 1], es[|es| - 1];
      LockIsLastClaim(s0, front, a);
      LockStep(Run(s0, front), e, a);
      hide Step;
      assert es[..|front|] == front;
      if e.EvClaim? && e.avatar == a && LockedAt(Run(s0, es).db, a, e.worker, e.now)
         && Run(s0, es).db.items[a].attempts == Run(s0, front).db.items[a].attempts + 1 {
        assert LastClaim(s0, es, |front|, a);
      } else {
        var n: nat :| LastClaim(s0, front, n, a) && LockedAt(Run(s0, front).db, a, front[n].worker, front[n].now);
        assert front[..n] == es[..n];
        assert LastClaim(s0, es, n, a);
      }
    }
  }

  /** A worker gets an item exactly when the migration runs and the item is not completed and, if
      somebody is copying it, that claim is fifteen minutes old. */
  lemma {:induction false} ClaimGrantedExactly(s0: Sys, es: seq<Event>, t: Thread, worker: Worker, a: AvatarId, now: int)
    requires Started(s0) && a in s0.db.items && PcOf(Run(s0, es), t) == Idle
    ensures a in Run(s0, es).db.items
    ensures var s, s' := Run(s0, es), Run(s0, es + [EvClaim(t, worker, a, now, Committed)]);
      PcOf(s', t).Claimed? <==>
        && s.db.mig.status in {MPending, MRunning} && s.db.items[a].status != Completed
        && (s.db.items[a].status == Copying ==>
              exists n: nat :: LastClaim(s0, es, n, a) && LockedAt(s.db, a, es[n].worker, es[n].now) && now - es[n].now >= 15 * MINUTE)
  {
    RunOne(s0, es, EvClaim(t, worker, a, now, Committed));
    LockIsLastClaim(s0, es, a);
    LocksAlways(s0, es);
    hide Run, Started, LastClaim;
    var s := Run(s0, es);
    assert a in s.db.avatars;
    ClaimStepExactly(s, t, worker, a, now);
    if s.db.items[a].status == Copying {
      var n: nat :| LastClaim(s0, es, n, a) && LockedAt(s.db, a, es[n].worker, es[n].now);
    }
  }

  lemma ClaimStepExactly(s: Sys, t: Thread, worker: Worker, a: AvatarId, now: int)
    requires a in s.db.items && a in s.db.avatars && PcOf(s, t) == Idle
    ensures PcOf(Step(s, EvClaim(t, worker, a, now, Committed)), t).Claimed? <==> Claiming(s.db.mig) && Claimable(s.db.items[a], now)
  {}

  // ---------------------------------------------------------------- avatar rows

  /** An avatar's row moves only by the switch of a worker that holds the item, from the source
      profile it was claimed at, or by another writer; its variants and its deletion never change. */
  lemma AvatarRowsMove(s: Sys, e: Event, a: AvatarId)
    requires a in s.db.avatars
    ensures a in Step(s, e).db.avatars
    ensures Step(s, e).db.avatars[a] == s.db.avatars[a].(store := Step(s, e).db.avatars[a].store)
    ensures Step(s, e).db.avatars[a].store != s.db.avatars[a].store ==>
      || (e.EvMoveAvatar? && e.avatar == a && Step(s, e).db.avatars[a].store == e.store)
      || (&& e.EvSwitch? && PcOf(s, e.t).Switching? && PcOf(s, e.t).w.avatar == a && HoldsClaim(s.db, PcOf(s, e.t).w)
          && s.db.avatars[a].store.profile == PcOf(s, e.t).w.source.profile && !s.db.avatars[a].deleted
          && Step(s, e).db.avatars[a].store == PcOf(s, e.t).w.target)
  {
    hide CountIn, LiveInstance, Claim;
    if e.EvClaim? && Claim(s.db, e.avatar, e.worker, e.now).Some? { ClaimQuiet(s.db, e.avatar, e.worker, e.now); }
  }

  // ---------------------------------------------------------------- exactly one good copy

  /** The variant had its recorded size at the source at the start. */
  predicate Sized(s0: Sys, a: AvatarId, source: StoreRef, v: Variant) {
    && source in s0.places && At(s0, s0.places[source], Key(a, v.size)).Some?
    && |At(s0, s0.places[source], Key(a, v.size)).value| == v.bytes
  }

  /** The variant is not at the source any more. */
  predicate Gone(s: Sys, a: AvatarId, source: StoreRef, v: Variant) {
    source in s.places && At(s, s.places[source], Key(a, v.size)) == None
  }

  predicate SizedUpTo(s0: Sys, w: Work, n: nat) {
    n <= |w.variants| && forall j | 0 <= j < n :: Sized(s0, w.avatar, w.source, w.variants[j])
  }

  predicate GoneUpTo(s: Sys, w: Work, n: nat) {
    n <= |w.variants| && forall j | 0 <= j < n :: Gone(s, w.avatar, w.source, w.variants[j])
  }

  /** What a worker has made sure of, by where it stands. */
  predicate PcGood(s0: Sys, s: Sys, pc: Pc) {
    match pc
    case Reading(w, i) => SizedUpTo(s0, w, i)
    case Writing(w, i, _) => SizedUpTo(s0, w, i + 1)
    case Checking(w, i, _) => SizedUpTo(s0, w, i + 1)
    case Switching(w) => SizedUpTo(s0, w, |w.variants|)
    case Deleting(w, i) => GoneUpTo(s, w, i)
    case Completing(w) => GoneUpTo(s, w, |w.variants|)
    case _ => true
  }

  predicate ItemGood(s0: Sys, s: Sys, a: AvatarId)
    requires a in s.db.items && a in s.db.avatars
  {
    var item := s.db.items[a];
    && (!Unmoved(item.status) ==> forall v | v in s.db.avatars[a].variants :: Sized(s0, a, item.source, v))
    && (item.status == Completed ==> forall v | v in s.db.avatars[a].variants :: Gone(s, a, item.source, v))
  }

  ghost predicate Good(s0: Sys, s: Sys) {
    && (forall t | t in s.threads :: PcGood(s0, s, s.threads[t]))
    && (forall a | a in s.db.items && a in s.db.avatars :: ItemGood(s0, s, a))
  }

  /** What is gone stays gone, for the items of `s`. */
  ghost predicate StaysGone(s: Sys, s': Sys) {
    s'.places == s.places &&
    forall a, v | a in s.db.items && a in s.db.avatars && v in s.db.avatars[a].variants && Gone(s, a, s.db.items[a].source, v) ::
      Gone(s', a, s.db.items[a].source, v)
  }

  /** A change of blobs that brings nothing back leaves all of it good. */
  lemma BlobsGood(s0: Sys, s: Sys, blobs: map<(Place, Key), Bytes>)
    requires Inv(s0, s) && Good(s0, s) && StaysGone(s, s.(blobs := blobs))
    ensures Good(s0, s.(blobs := blobs))
  {
    var s' := s.(blobs := blobs);
    forall u | u in s'.threads ensures PcGood(s0, s', s'.threads[u]) {
      ThreadFact(s0, s, u);
      OtherThread(s0, s, s', s.threads[u]);
    }
    forall a | a in s'.db.items && a in s'.db.avatars ensures ItemGood(s0, s', a) { assert ItemGood(s0, s, a); }
  }

  lemma OtherThread(s0: Sys, s: Sys, s': Sys, pc: Pc)
    requires PcOk(s0, s, pc) && PcGood(s0, s, pc) && StaysGone(s, s')
    ensures PcGood(s0, s', pc)
  {
    if pc.Deleting? || pc.Completing? {
      var w := pc.w;
      assert WorkOk(s, w);
      forall j | 0 <= j < |w.variants| && Gone(s, w.avatar, w.source, w.variants[j]) ensures Gone(s', w.avatar, w.source, w.variants[j]) {
        assert w.variants[j] in s.db.avatars[w.avatar].variants;
      }
    }
  }

  lemma SetPcGood(s0: Sys, s: Sys, t: Thread, pc: Pc)
    requires Good(s0, s) && PcGood(s0, s, pc)
    ensures Good(s0, SetPc(s, t, pc))
  {
    forall a | a in s.db.items && a in s.db.avatars ensures ItemGood(s0, SetPc(s, t, pc), a) { assert ItemGood(s0, s, a); }
  }

  lemma PcFact(s0: Sys, s: Sys, t: Thread)
    requires Good(s0, s)
    ensures PcGood(s0, s, PcOf(s, t))
  {}

  lemma ReadPc(s0: Sys, s: Sys, t: Thread, ok: bool, w: Work, i: nat) returns (pc: Pc)
    requires PcOf(s, t) == Reading(w, i) && i < |w.variants| && w.source in s.places && s.places == s0.places && SizedUpTo(s0, w, i)
    requires var p := s.places[w.source]; At(s, p, KeyOf(w, i)) == None || At(s, p, KeyOf(w, i)) == At(s0, p, KeyOf(w, i))
    ensures StepRead(s, t, ok) == SetPc(s, t, pc) && PcGood(s0, s, pc)
  {
    pc := PcOf(StepRead(s, t, ok), t);
    assert StepRead(s, t, ok) == SetPc(s, t, pc);
  }

  lemma ReadGood(s0: Sys, s: Sys, t: Thread, ok: bool)
    requires Inv(s0, s) && Good(s0, s)
    ensures Good(s0, StepRead(s, t, ok))
  {
    var pc := PcOf(s, t);
    if pc.Reading? && pc.i < |pc.w.variants| && pc.w.source in s.places {
      ThreadFact(s0, s, t);
      PcFact(s0, s, t);
      assert s.places == s0.places && CopierOk(s, pc.w) && SizedUpTo(s0, pc.w, pc.i);
      hide Inv, PcOk, Good, PcGood, CopierOk, SizedUpTo;
      KeptFact(s0, s, s.places[pc.w.source], KeyOf(pc.w, pc.i), pc.w);
      var next := ReadPc(s0, s, t, ok, pc.w, pc.i);
      hide StepRead;
      SetPcGood(s0, s, t, next);
    }
  }

  lemma ResolveGood(s0: Sys, s: Sys, t: Thread, ok: bool)
    requires Good(s0, s)
    ensures Good(s0, StepResolve(s, t, ok))
  {
    PcFact(s0, s, t);
    hide Good;
    if PcOf(s, t).Claimed? { SetPcGood(s0, s, t, PcOf(StepResolve(s, t, ok), t)); }
  }

  lemma CheckGood(s0: Sys, s: Sys, t: Thread, ok: bool)
    requires Good(s0, s)
    ensures Good(s0, StepCheck(s, t, ok))
  {
    PcFact(s0, s, t);
    hide Good;
    var pc := PcOf(s, t);
    if pc.Checking? && pc.i < |pc.w.variants| && pc.w.target in s.places { SetPcGood(s0, s, t, PcOf(StepCheck(s, t, ok), t)); }
  }

  lemma PutStaysGone(s0: Sys, s: Sys, w: Work, i: nat, put: Bytes)
    requires Inv(s0, s) && CopierOk(s, w) && i < |w.variants|
    ensures StaysGone(s, PutBlob(s, w, i, put))
  {
    assert !SamePlace(s, w.avatar);
  }

  lemma WritePc(s0: Sys, s: Sys, t: Thread, stored: Bytes, fate: Fate, w: Work, i: nat, body: Bytes)
    returns (pc: Pc)
    requires PcOf(s, t) == Writing(w, i, body) && i < |w.variants| && w.target in s.places && SizedUpTo(s0, w, i + 1)
    ensures PcGood(s0, s, pc) && PcGood(s0, PutBlob(s, w, i, stored), pc)
    ensures StepWrite(s, t, stored, fate) == SetPc(if fate == Aborted then s else PutBlob(s, w, i, stored), t, pc)
  {
    pc := PcOf(StepWrite(s, t, stored, fate), t);
    assert StepWrite(s, t, stored, fate) == SetPc(if fate == Aborted then s else PutBlob(s, w, i, stored), t, pc);
  }

  lemma WriteGood(s0: Sys, s: Sys, t: Thread, stored: Bytes, fate: Fate)
    requires Inv(s0, s) && Good(s0, s)
    ensures Good(s0, StepWrite(s, t, stored, fate))
  {
    var pc := PcOf(s, t);
    if pc.Writing? && pc.i < |pc.w.variants| && pc.w.target in s.places {
      ThreadFact(s0, s, t);
      PcFact(s0, s, t);
      assert CopierOk(s, pc.w) && SizedUpTo(s0, pc.w, pc.i + 1);
      hide Inv, PcOk, Good, PcGood, CopierOk, SizedUpTo, StaysGone;
      PutStaysGone(s0, s, pc.w, pc.i, stored);
      var next := WritePc(s0, s, t, stored, fate, pc.w, pc.i, pc.body);
      hide StepWrite;
      var put := PutBlob(s, pc.w, pc.i, stored);
      BlobsGood(s0, s, put.blobs);
      SetPcGood(s0, if fate == Aborted then s else put, t, next);
    }
  }

  function DeleteBlob(s: Sys, w: Work, i: nat): Sys
    requires i < |w.variants| && w.source in s.places
  {
    s.(blobs := s.blobs - {(s.places[w.source], KeyOf(w, i))})
  }

  lemma DeletePc(s0: Sys, s: Sys, t: Thread, fate: Fate, w: Work, i: nat) returns (pc: Pc)
    requires PcOf(s, t) == Deleting(w, i) && i < |w.variants| && w.source in s.places && GoneUpTo(s, w, i)
    ensures PcGood(s0, if fate == Aborted then s else DeleteBlob(s, w, i), pc)
    ensures StepDelete(s, t, fate) == SetPc(if fate == Aborted then s else DeleteBlob(s, w, i), t, pc)
  {
    pc := PcOf(StepDelete(s, t, fate), t);
    assert StepDelete(s, t, fate) == SetPc(if fate == Aborted then s else DeleteBlob(s, w, i), t, pc);
    assert GoneUpTo(DeleteBlob(s, w, i), w, i + 1);
  }

  lemma DeleteStaysGone(s: Sys, w: Work, i: nat)
    requires i < |w.variants| && w.source in s.places
    ensures StaysGone(s, DeleteBlob(s, w, i))
  {}

  lemma DeleteGood(s0: Sys, s: Sys, t: Thread, fate: Fate)
    requires Inv(s0, s) && Good(s0, s)
    ensures Good(s0, StepDelete(s, t, fate))
  {
    var pc := PcOf(s, t);
    if pc.Deleting? && pc.i < |pc.w.variants| && pc.w.source in s.places {
      PcFact(s0, s, t);
      assert GoneUpTo(s, pc.w, pc.i);
      hide Inv, Good, PcGood, GoneUpTo, StaysGone;
      DeleteStaysGone(s, pc.w, pc.i);
      var next := DeletePc(s0, s, t, fate, pc.w, pc.i);
      hide StepDelete;
      var deleted := if fate == Aborted then s else DeleteBlob(s, pc.w, pc.i);
      BlobsGood(s0, s, DeleteBlob(s, pc.w, pc.i).blobs);
      SetPcGood(s0, deleted, t, next);
    }
  }

  /** A database change that moves no item leaves all of it good. */
  lemma DbGood(s0: Sys, s: Sys, db': Db)
    requires Good(s0, s) && QuietDb(s.db, db')
    requires forall a | a in db'.items && db'.items[a].status == Completed :: s.db.items[a].status == Completed
    ensures Good(s0, s.(db := db'))
  {
    forall a | a in db'.items && a in db'.avatars ensures ItemGood(s0, s.(db := db'), a) {
      assert ItemGood(s0, s, a) && Quiet(s.db.items[a], db'.items[a]);
    }
  }

  lemma ClaimCompleted(db: Db, a: AvatarId, worker: Worker, now: int)
    requires Claim(db, a, worker, now).Some?
    ensures var db' := Claim(db, a, worker, now).value.0;
      forall b | b in db'.items && db'.items[b].status == Completed :: b in db.items && db.items[b].status == Completed
  {}

  lemma ClaimGood(s0: Sys, s: Sys, t: Thread, worker: Worker, a: AvatarId, now: int, fate: Fate)
    requires Good(s0, s)
    ensures Good(s0, StepClaim(s, t, worker, a, now, fate))
  {
    hide Good, Claim;
    var c := Claim(s.db, a, worker, now);
    if PcOf(s, t) == Idle && c.Some? && fate != Aborted {
      ClaimQuiet(s.db, a, worker, now);
      ClaimCompleted(s.db, a, worker, now);
      DbGood(s0, s, c.value.0);
      SetPcGood(s0, s.(db := c.value.0), t, Claimed(c.value.1));
    }
  }

  lemma SwitchDbGood(s0: Sys, s: Sys, w: Work, now: int)
    requires Good(s0, s) && WorkOk(s, w) && SizedUpTo(s0, w, |w.variants|) && MarkItemSwitched(s.db, w, now).Ok?
    ensures Good(s0, s.(db := MarkItemSwitched(s.db, w, now).value))
  {
    SwitchOutcome(s.db, w, now);
    hide MarkItemSwitched;
    var db' := MarkItemSwitched(s.db, w, now).value;
    forall a | a in db'.items && a in db'.avatars ensures ItemGood(s0, s.(db := db'), a) {
      assert ItemGood(s0, s, a);
    }
  }

  lemma SwitchGood(s0: Sys, s: Sys, t: Thread, now: int, fate: Fate)
    requires Inv(s0, s) && Good(s0, s)
    ensures Good(s0, StepSwitch(s, t, now, fate))
  {
    var pc := PcOf(s, t);
    if pc.Switching? {
      ThreadFact(s0, s, t);
      assert PcGood(s0, s, pc);
      hide Inv, Good, MarkItemSwitched;
      var r := MarkItemSwitched(s.db, pc.w, now);
      if r.Err? || fate == Aborted { SetPcGood(s0, s, t, Idle); }
      else {
        SwitchDbGood(s0, s, pc.w, now);
        SetPcGood(s0, s.(db := r.value), t, if fate == Committed then NextDelete(pc.w.(status := Switched), 0) else Idle);
      }
    }
  }

  lemma CompleteDbGood(s0: Sys, s: Sys, w: Work, now: int)
    requires Good(s0, s) && WorkOk(s, w) && GoneUpTo(s, w, |w.variants|) && CompleteItem(s.db, w, now).Ok?
    ensures Good(s0, s.(db := CompleteItem(s.db, w, now).value))
  {
    hide CountIn;
    var db' := CompleteItem(s.db, w, now).value;
    forall a | a in db'.items && a in db'.avatars ensures ItemGood(s0, s.(db := db'), a) {
      assert ItemGood(s0, s, a);
    }
  }

  lemma CompleteGood(s0: Sys, s: Sys, t: Thread, now: int, fate: Fate)
    requires Inv(s0, s) && Good(s0, s)
    ensures Good(s0, StepComplete(s, t, now, fate))
  {
    var pc := PcOf(s, t);
    if pc.Completing? {
      ThreadFact(s0, s, t);
      assert PcGood(s0, s, pc);
      hide Inv, Good, CompleteItem;
      var r := CompleteItem(s.db, pc.w, now);
      if r.Ok? && fate != Aborted { CompleteDbGood(s0, s, pc.w, now); }
      SetPcGood(s0, if r.Ok? then Apply(s, r.value, fate) else s, t, Idle);
    }
  }

  lemma FailGood(s0: Sys, s: Sys, t: Thread, now: int, fate: Fate)
    requires Good(s0, s)
    ensures Good(s0, StepFail(s, t, now, fate))
  {
    var pc := PcOf(s, t);
    if pc.Failing? {
      FailOutcome(s.db, pc.w, now);
      hide Good, FailItem;
      if fate != Aborted { DbGood(s0, s, FailItem(s.db, pc.w, now)); }
      SetPcGood(s0, Apply(s, FailItem(s.db, pc.w, now), fate), t, Idle);
    }
  }

  lemma FailOutcome(db: Db, w: Work, now: int)
    ensures QuietDb(db, FailItem(db, w, now))
    ensures forall a | a in db.items && FailItem(db, w, now).items[a].status == Completed :: db.items[a].status == Completed
  {
    hide CountIn;
  }

  lemma OtherGood(s0: Sys, s: Sys, e: Event)
    requires Good(s0, s) && (e.EvFinalize? || e.EvRetry? || e.EvHeartbeat?)
    ensures Good(s0, Step(s, e))
  {
    hide Good, FinalizeMigration, RetryMigration;
    match e
    case EvFinalize(now, fate) =>
      if FinalizeMigration(s.db, now).Ok? {
        FinalizeQuiet(s.db, now);
        FinalizeItems(s.db, now);
        DbGood(s0, s, FinalizeMigration(s.db, now).value.0);
      }
    case EvRetry(i, c, x, now) =>
      if RetryMigration(s.db, i, c, x, now).Ok? {
        RetryQuiet(s.db, i, c, x, now);
        RetryItems(s.db, i, c, x, now);
        DbGood(s0, s, RetryMigration(s.db, i, c, x, now).value);
      }
    case EvHeartbeat(instance, beat) =>
      DbGood(s0, s, s.db.(instances := s.db.instances[instance := beat]));
  }

  lemma FinalizeItems(db: Db, now: int)
    requires FinalizeMigration(db, now).Ok?
    ensures FinalizeMigration(db, now).value.0.items == db.items
  {}

  lemma RetryItems(db: Db, i: nat, c: Control, x: nat, now: int)
    requires RetryMigration(db, i, c, x, now).Ok?
    ensures var db' := RetryMigration(db, i, c, x, now).value;
      forall a | a in db'.items && db'.items[a].status == Completed :: a in db.items && db.items[a].status == Completed
  {}

  lemma GoodStep(s0: Sys, s: Sys, e: Event)
    requires Inv(s0, s) && Good(s0, s) && !e.EvMoveAvatar?
    ensures Good(s0, Step(s, e))
  {
    hide Inv, Good;
    match e
    case EvClaim(t, worker, a, now, fate) => ClaimGood(s0, s, t, worker, a, now, fate);
    case EvResolve(t, ok) => ResolveGood(s0, s, t, ok);
    case EvRead(t, ok) => ReadGood(s0, s, t, ok);
    case EvWrite(t, stored, fate) => WriteGood(s0, s, t, stored, fate);
    case EvCheck(t, ok) => CheckGood(s0, s, t, ok);
    case EvSwitch(t, now, fate) => SwitchGood(s0, s, t, now, fate);
    case EvDelete(t, fate) => DeleteGood(s0, s, t, fate);
    case EvComplete(t, now, fate) => CompleteGood(s0, s, t, now, fate);
    case EvFail(t, now, fate) => FailGood(s0, s, t, now, fate);
    case EvCrash(t) => SetPcGood(s0, s, t, Idle);
    case _ => OtherGood(s0, s, e);
  }

  lemma StartedGood(s0: Sys)
    requires Started(s0)
    ensures Good(s0, s0)
  {}

  lemma {:induction false} AlwaysGood(s0: Sys, es: seq<Event>)
    requires Started(s0) && DistinctPlaces(s0) && MediaPaused(es) && LateWritesFaithful(s0, es)
    ensures Good(s0, Run(s0, es))
  {
    hide Inv, Good, Step, LateWriteFaithful;
    if es == [] {
      StartedGood(s0);
    } else {
      var front := es[..|es| - 1];
      FaithfulFront(s0, es);
      RunKeeps(s0, front);
      AlwaysGood(s0, front);
      GoodStep(s0, Run(s0, front), es[|es| - 1]);
    }
  }

  /** A completed item leaves exactly one copy of each variant, and a good one: at the target place,
      with its original bytes, of the recorded size; and none at the source. */
  lemma {:induction false} OneGoodCopy(s0: Sys, es: seq<Event>, a: AvatarId, v: Variant)
    requires Started(s0) && DistinctPlaces(s0) && MediaPaused(es) && LateWritesFaithful(s0, es)
    requires a in s0.db.items && a in s0.db.avatars && v in s0.db.avatars[a].variants
    requires a in Run(s0, es).db.items && Run(s0, es).db.items[a].status == Completed
    ensures var s, item := Run(s0, es), Run(s0, es).db.items[a];
      && item.source in s.places && item.target in s.places
      && At(s, s.places[item.source], Key(a, v.size)) == None
      && At(s, s.places[item.target], Key(a, v.size)).Some?
      && At(s, s.places[item.target], Key(a, v.size)) == At(s0, s.places[item.source], Key(a, v.size))
      && |At(s, s.places[item.target], Key(a, v.size)).value| == v.bytes
  {
    AlwaysGood(s0, es);
    RunKeeps(s0, es);
    var s := Run(s0, es);
    hide Started, Run, DistinctPlaces, LateWritesFaithful, ThreadsOk, BlobsOk, AttemptsUnique;
    var i :| 0 <= i < |s.db.avatars[a].variants| && s.db.avatars[a].variants[i] == v;
    assert Landed(s0, s, s.db.items[a].source, s.db.items[a].target, Key(a, s.db.avatars[a].variants[i].size));
    assert ItemGood(s0, s, a);
  }
}

/** From which states a media migration can still be completed: exactly until its cutover. A worker
    whose claim was superseded may report a failure after that, and the migration then stays open
    for good. */
module MediaRecovery {
  import opened Base
  import opened MediaModel
  import opened MediaRuns
  import opened MediaNoLoss
  import opened MediaProtocol

  /** The checks on profiles that a retry and the cutover make. */
  predicate ProfilesFit(db: Db) {
    && (db.mig.target.backend == S3 ==> db.mig.target.profile.Some? && db.state.candidate == db.mig.target.profile)
    && (db.mig.target.backend == Local ==> db.mig.target.profile.None?)
  }

  /** The active profile is still the source, and a retry's own checks can be met. */
  predicate Recoverable(db: Db) {
    db.state.active == db.mig.source && ProfilesFit(db)
  }

  /** The migration is neither cut over nor completed, by its status. */
  predicate Open(db: Db) {
    db.mig.status in {MPending, MRunning, MFailed}
  }

  // ---------------------------------------------------------------- no way out

  lemma StuckDb(db: Db, db': Db)
    requires Open(db) && !Recoverable(db) && DbStep(db, db')
    ensures Open(db') && !Recoverable(db')
  {
    hide CountIn, HoldsClaim, FinalizeMigration, RetryMigration;
    if now :| FinalizeMigration(db, now).Ok? && FinalizeMigration(db, now).value.0 == db' {
      FinalizeStuck(db, now);
    } else if i, c, x, now :| RetryMigration(db, i, c, x, now) == Ok(db') {
      RetryOnly(db, i, c, x, now);
    }
  }

  lemma FinalizeStuck(db: Db, now: int)
    requires Open(db) && !Recoverable(db) && FinalizeMigration(db, now).Ok?
    ensures FinalizeMigration(db, now).value.0 == db
  {}

  lemma RetryOnly(db: Db, instance: nat, control: Control, expected: nat, now: int)
    requires RetryMigration(db, instance, control, expected, now).Ok?
    ensures var db' := RetryMigration(db, instance, control, expected, now).value;
      db' == db.(items := db'.items, mig := db.mig.(status := MPending, failed := 0))
  {}

  /** Whatever anybody does, it stays open and is never completed. */
  lemma {:induction false} StuckForever(s: Sys, es: seq<Event>)
    requires Open(s.db) && !Recoverable(s.db)
    ensures Open(Run(s, es).db) && !Recoverable(Run(s, es).db)
  {
    hide Recoverable, DbStep;
    if es != [] {
      StuckForever(s, es[..|es| - 1]);
      StepIsDbStep(Run(s, es[..|es| - 1]), es[|es| - 1]);
      StuckDb(Run(s, es[..|es| - 1]).db, Run(s, es).db);
    }
  }

  // ---------------------------------------------------------------- one item to the end

  /** The item can be claimed at `now` and carried to the end. */
  predicate ItemReady(s: Sys, a: AvatarId, now: int)
    requires a in s.db.items
  {
    var item := s.db.items[a];
    && a in s.db.avatars && BothResolve(s, a) && item.status != Failed
    && (item.status == Copying ==> item.lock.Some? && item.lock.value.at <= now - CLAIM_LEASE)
    && (Unmoved(item.status) ==>
          && s.db.avatars[a].store == item.source && !s.db.avatars[a].deleted
          && SourceThere(s, a, item.source, s.db.avatars[a].variants))
  }

  /** Thread `t` worked on avatar `a`, and on nothing else. */
  ghost predicate OnlyItem(s: Sys, s': Sys, t: Thread, a: AvatarId) {
    && s'.places == s.places && s'.db.state == s.db.state && s'.db.instances == s.db.instances
    && s'.db.mig.source == s.db.mig.source && s'.db.mig.target == s.db.mig.target
    && s'.db.items.Keys == s.db.items.Keys && s'.db.avatars.Keys == s.db.avatars.Keys
    && (forall b | b in s.db.items && b != a :: s'.db.items[b] == s.db.items[b])
    && (forall b | b in s.db.avatars && b != a :: s'.db.avatars[b] == s.db.avatars[b])
    && (forall u | u != t :: PcOf(s', u) == PcOf(s, u))
    && (forall p, k: Key | k.avatar != a :: At(s', p, k) == At(s, p, k))
  }

  /** The second half of a round: delete at the source and complete. */
  lemma Finish(s: Sys, t: Thread, w: Work, now: int) returns (s': Sys)
    requires PcOf(s, t) == NextDelete(w, 0) && w.source in s.places
    requires w.avatar in s.db.items && s.db.items[w.avatar].status == Switched && Claiming(s.db.mig)
    ensures Reach(s, s') && OnlyItem(s, s', t, w.avatar) && PcOf(s', t) == Idle && Claiming(s'.db.mig)
    ensures s'.db.items[w.avatar].status == Completed
  {
    hide Step, CountIn, Reach, CompleteItem;
    var u := DeleteLoop(s, t, w, 0);
    assert OnlyItem(s, u, t, w.avatar);
    s' := CompleteOne(u, t, w, now);
    hide OnlyItem;
    OnlyItemMore(s, u, s', t, w.avatar);
    ReachMore(s, u, s');
  }

  lemma CompleteOne(s: Sys, t: Thread, w: Work, now: int) returns (s': Sys)
    requires PcOf(s, t) == Completing(w)
    requires w.avatar in s.db.items && s.db.items[w.avatar].status == Switched && Claiming(s.db.mig)
    ensures Reach(s, s') && OnlyItem(s, s', t, w.avatar) && PcOf(s', t) == Idle && Claiming(s'.db.mig)
    ensures s'.db.items[w.avatar].status == Completed
  {
    s' := Step(s, EvComplete(t, now, Committed));
    hide Reach, CountIn;
    ReachSelf(s);
    ReachStep(s, s, EvComplete(t, now, Committed));
  }

  lemma Switch(s: Sys, t: Thread, w: Work, now: int) returns (s': Sys)
    requires PcOf(s, t) == Switching(w) && HoldsClaim(s.db, w) && Claiming(s.db.mig)
    requires w.avatar in s.db.avatars && s.db.avatars[w.avatar].store == w.source && !s.db.avatars[w.avatar].deleted
    ensures Reach(s, s') && OnlyItem(s, s', t, w.avatar) && PcOf(s', t) == NextDelete(w.(status := Switched), 0) && Claiming(s'.db.mig)
    ensures w.avatar in s'.db.items && s'.db.items[w.avatar].status == Switched
  {
    hide Reach, CountIn;
    s' := SwitchOver(s, t, w, now);
  }

  lemma OnlyItemMore(s: Sys, u: Sys, v: Sys, t: Thread, a: AvatarId)
    requires OnlyItem(s, u, t, a) && OnlyItem(u, v, t, a)
    ensures OnlyItem(s, v, t, a)
  {}

  lemma MigrateItem(s: Sys, t: Thread, a: AvatarId, now: int) returns (s': Sys)
    requires PcOf(s, t) == Idle && Claiming(s.db.mig)
    requires a in s.db.items && ItemReady(s, a, now) && s.db.items[a].status != Completed
    ensures Reach(s, s') && OnlyItem(s, s', t, a) && PcOf(s', t) == Idle && Claiming(s'.db.mig)
    ensures s'.db.items[a].status == Completed
  {
    var u, w := ClaimAndResolve(s, t, 0, a, now);
    hide Reach, Claim;
    assert OnlyItem(s, u, t, a);
    var d := u;
    if w.status != Switched {
      var c := CopyLoop(u, t, w, 0);
      assert OnlyItem(u, c, t, a);
      d := Switch(c, t, w, now);
      OnlyItemMore(u, c, d, t, a);
      ReachMore(u, c, d);
    } else {
      ReachSelf(u);
    }
    assert OnlyItem(u, d, t, a) && Reach(u, d);
    s' := Finish(d, t, w.(status := Switched), now);
    hide OnlyItem;
    OnlyItemMore(s, u, d, t, a);
    OnlyItemMore(s, d, s', t, a);
    ReachMore(s, u, d);
    ReachMore(s, d, s');
  }

  // ---------------------------------------------------------------- all items, and the cutover

  function Unfinished(db: Db): set<AvatarId> {
    set a | a in db.items && db.items[a].status != Completed
  }

  predicate AllItemsReady(s: Sys, now: int) {
    forall a | a in Unfinished(s.db) :: ItemReady(s, a, now)
  }

  ghost predicate SameOutside(s: Sys, s': Sys, t: Thread) {
    && s'.db.state == s.db.state && s'.db.instances == s.db.instances
    && s'.db.mig.source == s.db.mig.source && s'.db.mig.target == s.db.mig.target
    && (forall u | u != t :: PcOf(s', u) == PcOf(s, u))
  }

  lemma StillReady(s: Sys, s': Sys, t: Thread, a: AvatarId, b: AvatarId, now: int)
    requires OnlyItem(s, s', t, a) && b != a && b in s.db.items && ItemReady(s, b, now)
    ensures ItemReady(s', b, now)
  {}

  lemma MigrateAll(s: Sys, t: Thread, now: int) returns (s': Sys)
    requires PcOf(s, t) == Idle && Claiming(s.db.mig) && AllItemsReady(s, now)
    ensures Reach(s, s') && SameOutside(s, s', t) && Claiming(s'.db.mig) && AllCompleted(s'.db)
    decreases |Unfinished(s.db)|
  {
    hide Reach;
    if Unfinished(s.db) == {} {
      ReachSelf(s);
      s' := s;
      forall a | a in s.db.items ensures s.db.items[a].status == Completed { assert a !in Unfinished(s.db); }
    } else {
      var a :| a in Unfinished(s.db);
      var u := MigrateItem(s, t, a, now);
      hide ItemReady;
      assert Unfinished(u.db) == Unfinished(s.db) - {a};
      forall b | b in Unfinished(u.db) ensures ItemReady(u, b, now) { StillReady(s, u, t, a, b, now); }
      s' := MigrateAll(u, t, now);
      ReachMore(s, u, s');
    }
  }

  predicate NobodyLive(db: Db, now: int) {
    forall i | i in db.instances :: !LiveInstance(db.instances[i], now)
  }

  lemma FinalizeCuts(db: Db, now: int)
    requires Claiming(db.mig) && AllCompleted(db) && Recoverable(db)
    ensures FinalizeMigration(db, now).Ok?
    ensures var db' := FinalizeMigration(db, now).value.0;
      && db'.mig.status == MApplying && db'.instances == db.instances && db'.items == db.items
      && db'.state.active == db'.mig.target.profile
  {}

  lemma FinalizeCompletes(db: Db, now: int)
    requires db.mig.status == MApplying && db.state.active == db.mig.target.profile && NobodyLive(db, now)
    ensures FinalizeMigration(db, now).Ok? && FinalizeMigration(db, now).value.0.mig.status == MCompleted
  {}

  lemma FinalizeReach(s: Sys, now: int) returns (s': Sys)
    requires FinalizeMigration(s.db, now).Ok?
    ensures Reach(s, s') && s' == s.(db := FinalizeMigration(s.db, now).value.0)
  {
    hide FinalizeMigration, Reach;
    var e := EvFinalize(now, Committed);
    s' := Step(s, e);
    ReachSelf(s);
    ReachStep(s, s, e);
  }

  lemma CutOver(s: Sys, now: int) returns (s': Sys)
    requires Claiming(s.db.mig) && AllCompleted(s.db) && Recoverable(s.db)
    ensures Reach(s, s') && s' == s.(db := s'.db) && s'.db.mig.status == MApplying && s'.db.instances == s.db.instances
    ensures s'.db.state.active == s'.db.mig.target.profile && AllCompleted(s'.db)
  {
    hide FinalizeMigration, Reach;
    FinalizeCuts(s.db, now);
    s' := FinalizeReach(s, now);
  }

  // ---------------------------------------------------------------- late enough, and a thread of its own

  lemma {:induction false} Bound(xs: set<int>) returns (b: int)
    ensures forall x | x in xs :: x <= b
  {
    b := 0;
    if y :| y in xs {
      b := Bound(xs - {y});
      if b < y { b := y; }
      forall x | x in xs ensures x <= b { assert x != y ==> x in xs - {y}; }
    }
  }

  predicate LeasesOver(db: Db, now: int) {
    forall a | a in db.items && db.items[a].lock.Some? :: db.items[a].lock.value.at <= now - CLAIM_LEASE
  }

  lemma LateEnough(db: Db) returns (now: int)
    ensures NobodyLive(db, now) && LeasesOver(db, now)
  {
    var beats := set i | i in db.instances :: db.instances[i].heartbeatAt;
    var locks := set a | a in db.items && db.items[a].lock.Some? :: db.items[a].lock.value.at;
    var b := Bound(beats);
    var c := Bound(locks);
    now := (if b < c then c else b) + HEARTBEAT_LIFE + CLAIM_LEASE;
    forall i | i in db.instances ensures !LiveInstance(db.instances[i], now) { assert db.instances[i].heartbeatAt in beats; }
    forall a | a in db.items && db.items[a].lock.Some? ensures db.items[a].lock.value.at <= now - CLAIM_LEASE {
      assert db.items[a].lock.value.at in locks;
    }
  }

  lemma FreshThread(s: Sys) returns (t: Thread)
    ensures PcOf(s, t) == Idle
  {
    var b := Bound(s.threads.Keys);
    t := if b < 0 then 0 else b + 1;
    assert t in s.threads ==> t in s.threads.Keys;
  }

  // ---------------------------------------------------------------- what every reachable state has

  /** Every variant of every item is at its source when the migration starts, and the stores resolve. */
  predicate AllStocked(s: Sys) {
    forall a | a in s.db.items && a in s.db.avatars ::
      BothResolve(s, a) && SourceThere(s, a, s.db.items[a].source, s.db.avatars[a].variants)
  }

  predicate LocksOk(db: Db) {
    forall a | a in db.items :: a in db.avatars && !db.avatars[a].deleted && (db.items[a].status == Copying ==> db.items[a].lock.Some?)
  }

  lemma ClaimLocks(db: Db, a: AvatarId, worker: Worker, now: int)
    requires LocksOk(db) && Claim(db, a, worker, now).Some?
    ensures LocksOk(Claim(db, a, worker, now).value.0)
  {}

  lemma OtherLocks(db: Db, w: Work, now: int)
    requires LocksOk(db)
    ensures MarkItemSwitched(db, w, now).Ok? ==> LocksOk(MarkItemSwitched(db, w, now).value)
    ensures CompleteItem(db, w, now).Ok? ==> LocksOk(CompleteItem(db, w, now).value)
    ensures LocksOk(FailItem(db, w, now))
  {
    hide CountIn;
  }

  lemma FinalizeLocks(db: Db, now: int)
    requires LocksOk(db) && FinalizeMigration(db, now).Ok?
    ensures LocksOk(FinalizeMigration(db, now).value.0)
  {}

  lemma RetryLocks(db: Db, instance: nat, control: Control, expected: nat, now: int)
    requires LocksOk(db) && RetryMigration(db, instance, control, expected, now).Ok?
    ensures LocksOk(RetryMigration(db, instance, control, expected, now).value)
  {}

  lemma LocksStep(s: Sys, e: Event)
    requires LocksOk(s.db)
    ensures LocksOk(Step(s, e).db)
  {
    hide Claim, MarkItemSwitched, CompleteItem, FailItem, FinalizeMigration, RetryMigration;
    match e
    case EvClaim(t, worker, a, now, _) => if Claim(s.db, a, worker, now).Some? { ClaimLocks(s.db, a, worker, now); }
    case EvSwitch(t, now, _) => if PcOf(s, t).Switching? { OtherLocks(s.db, PcOf(s, t).w, now); }
    case EvComplete(t, now, _) => if PcOf(s, t).Completing? { OtherLocks(s.db, PcOf(s, t).w, now); }
    case EvFail(t, now, _) => if PcOf(s, t).Failing? { OtherLocks(s.db, PcOf(s, t).w, now); }
    case EvFinalize(now, _) => if FinalizeMigration(s.db, now).Ok? { FinalizeLocks(s.db, now); }
    case EvRetry(i, c, x, now) => if RetryMigration(s.db, i, c, x, now).Ok? { RetryLocks(s.db, i, c, x, now); }
    case _ =>
  }

  lemma {:induction false} LocksAlways(s0: Sys, es: seq<Event>)
    requires Started(s0)
    ensures LocksOk(Run(s0, es).db)
  {
    hide Step;
    if es == [] {
      hide LocksOk;
      StartedLocks(s0);
    } else {
      LocksAlways(s0, es[..|es| - 1]);
      LocksStep(Run(s0, es[..|es| - 1]), es[|es| - 1]);
    }
  }

  lemma StartedLocks(s0: Sys)
    requires Started(s0)
    ensures LocksOk(s0.db)
  {}

  /** An item that has not moved still has everything at its source. */
  lemma StillStocked(s0: Sys, s: Sys, a: AvatarId)
    requires Inv(s0, s) && AllStocked(s0) && a in s.db.items && Unmoved(s.db.items[a].status)
    ensures SourceThere(s, a, s.db.items[a].source, s.db.avatars[a].variants)
  {
    var item, vs := s.db.items[a], s.db.avatars[a].variants;
    var p := s.places[item.source];
    forall j | 0 <= j < |vs| ensures At(s, p, Key(a, vs[j].size)) == At(s0, p, Key(a, vs[j].size)) {
      assert Kept(s0, s, p, Key(a, vs[j].size));
      assert !SamePlace(s, a);
    }
    hide Inv, Kept;
  }

  lemma ReadyAt(s0: Sys, s: Sys, now: int, a: AvatarId)
    requires Inv(s0, s) && AllStocked(s0) && LocksOk(s.db) && LeasesOver(s.db, now)
    requires a in s.db.items && s.db.items[a].status != Failed
    ensures ItemReady(s, a, now)
  {
    if Unmoved(s.db.items[a].status) { StillStocked(s0, s, a); }
    assert s0.db.items.Keys == s.db.items.Keys && s.places == s0.places;
    assert BothResolve(s0, a);
    assert RowsOk(s) && Frame(s0, s);
    hide Inv, SourceThere;
  }

  lemma ReadyAll(s0: Sys, s: Sys, now: int)
    requires Inv(s0, s) && AllStocked(s0) && LocksOk(s.db) && LeasesOver(s.db, now)
    requires forall a | a in s.db.items :: s.db.items[a].status != Failed
    ensures AllItemsReady(s, now)
  {
    hide Inv, AllStocked, LocksOk, LeasesOver, ItemReady;
    forall a | a in Unfinished(s.db) ensures ItemReady(s, a, now) { ReadyAt(s0, s, now, a); }
  }

  // ---------------------------------------------------------------- the way out

  /** From a pending or running migration whose items are ready, to completion. */
  lemma Proceed(s: Sys, now: int) returns (s': Sys)
    requires Claiming(s.db.mig) && AllItemsReady(s, now) && Recoverable(s.db) && NobodyLive(s.db, now)
    ensures Reach(s, s') && s'.db.mig.status == MCompleted
  {
    hide Reach, AllItemsReady, AllCompleted;
    var t := FreshThread(s);
    var u := MigrateAll(s, t, now);
    var v := CutOver(u, now);
    FinalizeCompletes(v.db, now);
    s' := FinalizeReach(v, now);
    hide FinalizeMigration;
    ReachMore(s, u, v);
    ReachMore(s, v, s');
  }

  lemma RetryAccepted(db: Db, now: int)
    requires db.mig.status == MFailed && Recoverable(db) && NobodyLive(db, now)
    ensures RetryMigration(db, 0, Control(0, true), 0, now).Ok?
  {}

  lemma RetriedItems(db: Db, now: int)
    requires RetryMigration(db, 0, Control(0, true), 0, now).Ok?
    ensures var db' := RetryMigration(db, 0, Control(0, true), 0, now).value;
      && (LeasesOver(db, now) ==> LeasesOver(db', now))
      && forall a | a in db'.items :: db'.items[a].status != Failed
  {}

  /** The retry of a failed migration at a time when no instance is live. */
  lemma RetryFailed(s: Sys, now: int) returns (s': Sys)
    requires s.db.mig.status == MFailed && Recoverable(s.db) && NobodyLive(s.db, now)
    ensures Reach(s, s') && s' == s.(db := s'.db) && s'.db.mig.status == MPending
    ensures Recoverable(s'.db) && s'.db.instances == s.db.instances && s'.db.avatars == s.db.avatars
    ensures LeasesOver(s.db, now) ==> LeasesOver(s'.db, now)
    ensures forall a | a in s'.db.items :: s'.db.items[a].status != Failed
  {
    RetryAccepted(s.db, now);
    RetryOnly(s.db, 0, Control(0, true), 0, now);
    RetriedItems(s.db, now);
    hide RetryMigration, Reach, LeasesOver, NobodyLive;
    s' := RetryReach(s, now);
  }

  lemma RetryReach(s: Sys, now: int) returns (s': Sys)
    requires RetryMigration(s.db, 0, Control(0, true), 0, now).Ok?
    ensures Reach(s, s') && s' == s.(db := RetryMigration(s.db, 0, Control(0, true), 0, now).value)
  {
    hide RetryMigration, Reach;
    var e := EvRetry(0, Control(0, true), 0, now);
    s' := Step(s, e);
    ReachSelf(s);
    ReachStep(s, s, e);
  }

  lemma WayOut(s0: Sys, es: seq<Event>) returns (s': Sys)
    requires Started(s0) && DistinctPlaces(s0) && AllStocked(s0) && Orderly(s0, es)
    requires Open(Run(s0, es).db) && Recoverable(Run(s0, es).db)
    ensures Reach(Run(s0, es), s') && s'.db.mig.status == MCompleted
  {
    var s := Run(s0, es);
    var now := LateEnough(s.db);
    var r := s;
    if s.db.mig.status == MFailed {
      r := RetryFailed(s, now);
    } else {
      ReachSelf(s);
      CountersAlways(s0, es);
    }
    hide Recoverable, NobodyLive, LeasesOver, Run, AllStocked, Inv, LocksOk;
    ReadyAfter(s0, es, r, now);
    s' := Proceed(r, now);
    hide Reach;
    ReachMore(s, r, s');
  }

  lemma ReadyAfter(s0: Sys, es: seq<Event>, r: Sys, now: int)
    requires Started(s0) && DistinctPlaces(s0) && AllStocked(s0) && Orderly(s0, es)
    requires Reach(Run(s0, es), r) && LeasesOver(r.db, now) && forall a | a in r.db.items :: r.db.items[a].status != Failed
    ensures AllItemsReady(r, now)
  {
    hide LeasesOver, Run, AllStocked, Inv, LocksOk, LateWritesFaithful, Started;
    var more :| Orderly(Run(s0, es), more) && Run(Run(s0, es), more) == r;
    OrderlyMore(s0, es, more);
    RunMore(s0, es, more);
    RunKeeps(s0, es + more);
    LocksAlways(s0, es + more);
    ReadyAll(s0, r, now);
  }

  /** As long as a migration is not cut over or completed by its status, some orderly continuation
      completes it if and only if the active profile is still the source and the retry's own checks can be
      met; otherwise no continuation at all does. */
  lemma CompletableExactly(s0: Sys, es: seq<Event>)
    requires Started(s0) && DistinctPlaces(s0) && AllStocked(s0) && Orderly(s0, es)
    requires Open(Run(s0, es).db)
    ensures Recoverable(Run(s0, es).db) ==> exists more :: Orderly(s0, es + more) && Run(s0, es + more).db.mig.status == MCompleted
    ensures (exists more :: Run(s0, es + more).db.mig.status == MCompleted) ==> Recoverable(Run(s0, es).db)
  {
    var s := Run(s0, es);
    hide Recoverable, Run, Orderly, Started, DistinctPlaces, AllStocked;
    if Recoverable(s.db) {
      var s' := WayOut(s0, es);
      var more := ReachedBy(s, s');
      OrderlyMore(s0, es, more);
      RunMore(s0, es, more);
    } else {
      forall more ensures Run(s0, es + more).db.mig.status != MCompleted {
        RunMore(s0, es, more);
        StuckForever(s, more);
      }
    }
  }

  // ---------------------------------------------------------------- when the way out closes

  /** Before the cutover the state row is the one of the start, and the migration recoverable;
      after it, the revision is one higher and it is not. */
  predicate CutOnce(s0: Sys, db: Db) {
    && db.mig.source == s0.db.mig.source && db.mig.target == s0.db.mig.target
    && if Recoverable(db) then db.state == s0.db.state && Open(db)
       else && db.state == StateRow(s0.db.state.revision + 1, db.mig.target.profile, None, db.mig.source)
            && (db.mig.target.backend == S3 ==> db.mig.target.profile.Some?)
            && (db.mig.target.backend == Local ==> db.mig.target.profile.None? && db.mig.source.Some?)
  }

  lemma CutOnceDb(s0: Sys, db: Db, db': Db)
    requires CutOnce(s0, db) && DbStep(db, db') && Recoverable(s0.db) && StartProfiles(s0.db)
    ensures CutOnce(s0, db')
  {
    hide CountIn, HoldsClaim, LiveInstance, FinalizeMigration;
    if now :| FinalizeMigration(db, now).Ok? && FinalizeMigration(db, now).value.0 == db' { FinalizeOnce(s0, db, now); }
  }

  lemma FinalizeOnce(s0: Sys, db: Db, now: int)
    requires CutOnce(s0, db) && FinalizeMigration(db, now).Ok? && Recoverable(s0.db) && StartProfiles(s0.db)
    ensures CutOnce(s0, FinalizeMigration(db, now).value.0)
  {}

  /** The two profiles of a migration: what StartMigration checks. */
  predicate StartProfiles(db: Db) {
    db.mig.target.backend == Local ==> db.mig.source.Some?
  }

  lemma StartedProfiles(s0: Sys)
    requires Started(s0)
    ensures StartProfiles(s0.db) && Recoverable(s0.db) && CutOnce(s0, s0.db)
  {}

  /** In every reachable state: recoverable if and only if the cutover has not happened. */
  lemma {:induction false} RecoverableUntilCutover(s0: Sys, es: seq<Event>)
    requires Started(s0)
    ensures CutOnce(s0, Run(s0, es).db)
    ensures Recoverable(Run(s0, es).db) <==> Run(s0, es).db.state.revision == s0.db.state.revision
    ensures Recoverable(Run(s0, es).db) ==> Open(Run(s0, es).db)
  {
    hide DbStep, Step;
    StartedProfiles(s0);
    if es != [] {
      RecoverableUntilCutover(s0, es[..|es| - 1]);
      StepIsDbStep(Run(s0, es[..|es| - 1]), es[|es| - 1]);
      CutOnceDb(s0, Run(s0, es[..|es| - 1]).db, Run(s0, es).db);
    }
  }

  /** So one failure report after the cutover leaves the migration open for good, whatever is done. */
  lemma {:induction false} LateFailureStrands(s0: Sys, es: seq<Event>, t: Thread, now: int, more: seq<Event>)
    requires Started(s0) && PcOf(Run(s0, es), t).Failing?
    requires Run(s0, es).db.state.revision != s0.db.state.revision
    ensures Open(Run(s0, es + [EvFail(t, now, Committed)] + more).db)
  {
    hide Step, Recoverable, CutOnce;
    var e := EvFail(t, now, Committed);
    RecoverableUntilCutover(s0, es);
    RunOne(s0, es, e);
    FailureOpens(Run(s0, es), t, now);
    RunMore(s0, es + [e], more);
    hide Run;
    StuckForever(Run(s0, es + [e]), more);
  }

  lemma FailureOpens(s: Sys, t: Thread, now: int)
    requires PcOf(s, t).Failing?
    ensures var s' := Step(s, EvFail(t, now, Committed));
      && s'.db.mig.status == MFailed && (Recoverable(s'.db) <==> Recoverable(s.db))
      && (AllCompleted(s.db) ==> AllCompleted(s'.db))
  {}

  lemma FailingClaim(s: Sys, t: Thread, a: AvatarId) returns (s': Sys)
    requires ReadyFor(s, t, a, 0)
    ensures Reach(s, s') && PcOf(s', t).Failing? && ClaimedBy(s.db, s'.db, a, 0, 0) && s'.blobs == s.blobs && s'.places == s.places
    ensures forall u | u != t :: PcOf(s', u) == PcOf(s, u)
  {
    ClaimItem(s.db, a, 0, 0);
    var u := Step(s, EvClaim(t, 0, a, 0, Committed));
    s' := Step(u, EvResolve(t, false));
    ReachSelf(s);
    ReachStep(s, s, EvClaim(t, 0, a, 0, Committed));
    ReachStep(s, u, EvResolve(t, false));
    hide Claim, Reach;
  }

  /** A second worker carries every item to the end and the cutover commits, while thread 0 stalls. */
  lemma CutOverBeside(s0: Sys, s: Sys, a: AvatarId) returns (s': Sys)
    requires Started(s0) && DistinctPlaces(s0) && AllStocked(s0) && a in s0.db.items
    requires Reach(s0, s) && PcOf(s, 0).Failing? && ClaimedBy(s0.db, s.db, a, 0, 0)
    ensures Reach(s0, s') && PcOf(s', 0).Failing? && s'.db.mig.status == MApplying && AllCompleted(s'.db)
  {
    StartedProfiles(s0);
    ClaimedEarly(s0, s, a);
    hide Started, AllStocked, DistinctPlaces, Reach, Run, Orderly, AllItemsReady, LeasesOver, AllCompleted, CutOnce, ClaimedBy;
    NoEvents(s0);
    ReadyAfter(s0, [], s, CLAIM_LEASE);
    var t := FreshThread(s);
    var u := MigrateAll(s, t, CLAIM_LEASE);
    s' := CutOver(u, CLAIM_LEASE);
    ReachMore(s0, s, u);
    ReachMore(s0, u, s');
  }

  lemma ClaimedEarly(s0: Sys, s: Sys, a: AvatarId)
    requires Started(s0) && a in s0.db.items && ClaimedBy(s0.db, s.db, a, 0, 0)
    ensures LeasesOver(s.db, CLAIM_LEASE) && Claiming(s.db.mig) && (Recoverable(s0.db) ==> Recoverable(s.db))
    ensures forall b | b in s.db.items :: s.db.items[b].status != Failed
  {}

  lemma NoEvents(s: Sys)
    ensures Orderly(s, []) && Run(s, []) == s
  {}

  /** Every migration with anything to do has an orderly run that strands it: one worker cannot
      resolve a store and stalls before it reports, another carries every item to the end, the
      cutover commits, and the report comes in. */
  lemma StrandedReachable(s0: Sys, a: AvatarId) returns (es: seq<Event>)
    requires Started(s0) && DistinctPlaces(s0) && AllStocked(s0) && a in s0.db.items
    ensures Orderly(s0, es) && Run(s0, es).db.mig.status == MFailed && AllCompleted(Run(s0, es).db)
    ensures forall more :: Run(s0, es + more).db.mig.status != MCompleted
  {
    StartedItem(s0, a);
    assert ReadyFor(s0, 0, a, 0);
    hide Started, AllStocked, DistinctPlaces, Reach, Run, Step, AllCompleted, Orderly, Recoverable, ClaimedBy, CutOnce;
    var c := FailingClaim(s0, 0, a);
    var d := CutOverBeside(s0, c, a);
    var front := ReachedBy(s0, d);
    RecoverableUntilCutover(s0, front);
    var e := EvFail(0, 0, Committed);
    ReachStep(s0, d, e);
    FailureOpens(d, 0, 0);
    es := ReachedBy(s0, Step(d, e));
    forall more ensures Run(s0, es + more).db.mig.status != MCompleted {
      RunMore(s0, es, more);
      StuckForever(Run(s0, es), more);
    }
  }
}

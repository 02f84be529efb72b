/** Fencing, counters and cutover of the media migration, over every run: these hold even if
    other writers move avatar rows meanwhile. */
module MediaProtocol {
  import opened Base
  import opened MediaModel
  import opened MediaRuns
  import opened MediaNoLoss

  // ---------------------------------------------------------------- fencing

  lemma CopyingClaimRaisesAttempt(db: Db, a: AvatarId, worker: Worker, now: int)
    requires Claim(db, a, worker, now).Some? && Claim(db, a, worker, now).value.1.status == Copying
    ensures var (db', w) := Claim(db, a, worker, now).value;
      && w.attempt == db'.items[a].attempts == db.items[a].attempts + 1
      && HoldsClaim(db', w)
  {}

  /** An item's attempts never fall, and it moves only from copying to switched. */
  predicate Progress(db: Db, db': Db, a: AvatarId)
    requires a in db.items
  {
    && a in db'.items && db'.items[a].attempts >= db.items[a].attempts
    && (!Unmoved(db.items[a].status) ==> !Unmoved(db'.items[a].status))
    && (db.items[a].status == Completed ==> db'.items[a].status == Completed)
    && (Unmoved(db.items[a].status) && !Unmoved(db'.items[a].status) ==>
          db.items[a].status == Copying && db'.items[a].status == Switched)
  }

  lemma ClaimProgress(db: Db, b: AvatarId, worker: Worker, now: int, a: AvatarId)
    requires a in db.items && Claim(db, b, worker, now).Some?
    ensures Progress(db, Claim(db, b, worker, now).value.0, a)
  {}

  lemma SwitchProgress(db: Db, w: Work, now: int, a: AvatarId)
    requires a in db.items && MarkItemSwitched(db, w, now).Ok?
    ensures Progress(db, MarkItemSwitched(db, w, now).value, a)
  {
    hide CountIn;
  }

  lemma CompleteProgress(db: Db, w: Work, now: int, a: AvatarId)
    requires a in db.items && CompleteItem(db, w, now).Ok?
    ensures Progress(db, CompleteItem(db, w, now).value, a)
  {
    hide CountIn;
  }

  lemma FailProgress(db: Db, w: Work, now: int, a: AvatarId)
    requires a in db.items
    ensures Progress(db, FailItem(db, w, now), a)
  {
    hide CountIn;
  }

  lemma OtherProgress(db: Db, instance: nat, control: Control, expected: nat, now: int, a: AvatarId)
    requires a in db.items
    ensures RetryMigration(db, instance, control, expected, now).Ok? ==> Progress(db, RetryMigration(db, instance, control, expected, now).value, a)
    ensures FinalizeMigration(db, now).Ok? ==> FinalizeMigration(db, now).value.0.items == db.items
  {
    hide LiveInstance;
  }

  lemma StepProgress(s: Sys, e: Event, a: AvatarId)
    requires a in s.db.items
    ensures Progress(s.db, Step(s, e).db, a)
  {
    hide CountIn, Claim, MarkItemSwitched, CompleteItem, FailItem, FinalizeMigration, RetryMigration;
    match e
    case EvClaim(t, worker, b, now, _) => if Claim(s.db, b, worker, now).Some? { ClaimProgress(s.db, b, worker, now, a); }
    case EvSwitch(t, now, _) =>
      if PcOf(s, t).Switching? && MarkItemSwitched(s.db, PcOf(s, t).w, now).Ok? { SwitchProgress(s.db, PcOf(s, t).w, now, a); }
    case EvComplete(t, now, _) =>
      if PcOf(s, t).Completing? && CompleteItem(s.db, PcOf(s, t).w, now).Ok? { CompleteProgress(s.db, PcOf(s, t).w, now, a); }
    case EvFail(t, now, _) => if PcOf(s, t).Failing? { FailProgress(s.db, PcOf(s, t).w, now, a); }
    case EvFinalize(now, _) => OtherProgress(s.db, 0, Control(0, true), 0, now, a);
    case EvRetry(instance, control, expected, now) => OtherProgress(s.db, instance, control, expected, now, a);
    case _ =>
  }

  lemma {:induction false} RunProgress(s: Sys, es: seq<Event>, a: AvatarId)
    requires a in s.db.items
    ensures a in Run(s, es).db.items
    ensures Run(s, es).db.items[a].attempts >= s.db.items[a].attempts
    ensures !Unmoved(s.db.items[a].status) ==> !Unmoved(Run(s, es).db.items[a].status)
  {
    if es != [] {
      RunProgress(s, es[..|es| - 1], a);
      StepProgress(Run(s, es[..|es| - 1]), es[|es| - 1], a);
    }
  }

  /** A worker whose claim was superseded can never again commit a switch or an item failure,
      whatever runs in between. */
  lemma {:induction false} SupersededForever(s: Sys, es: seq<Event>, w: Work, now: int)
    requires w.avatar in s.db.items && w.attempt < s.db.items[w.avatar].attempts
    ensures MarkItemSwitched(Run(s, es).db, w, now).Err?
    ensures FailItem(Run(s, es).db, w, now).items == Run(s, es).db.items
  {
    RunProgress(s, es, w.avatar);
  }

  /** Once another claim of the item committed, seen by its worker or not, the one who held it
      before can never again commit a switch or an item failure. */
  lemma {:induction false} TakeoverFences(s: Sys, w: Work, t: Thread, worker: Worker, now: int, fate: Fate, es: seq<Event>, later: int)
    requires Current(s.db, w) && PcOf(s, t) == Idle && fate != Aborted && Claim(s.db, w.avatar, worker, now).Some?
    ensures var db := Run(s, [EvClaim(t, worker, w.avatar, now, fate)] + es).db;
      MarkItemSwitched(db, w, later).Err? && FailItem(db, w, later).items == db.items
  {
    var e := EvClaim(t, worker, w.avatar, now, fate);
    ClaimAccepted(s, w.avatar, t, worker, now, fate);
    hide Run, Step, MarkItemSwitched, FailItem, Claim;
    RunOne(s, [], e);
    assert [] + [e] == [e];
    NoRun(s);
    RunMore(s, [e], es);
    SupersededForever(Step(s, e), es, w, later);
  }

  lemma NoRun(s: Sys)
    ensures Run(s, []) == s
  {}

  lemma ClaimAccepted(s: Sys, a: AvatarId, t: Thread, worker: Worker, now: int, fate: Fate)
    requires a in s.db.items && s.db.items[a].status == Copying && PcOf(s, t) == Idle && fate != Aborted
    requires Claim(s.db, a, worker, now).Some?
    ensures var s' := Step(s, EvClaim(t, worker, a, now, fate));
      a in s'.db.items && s'.db.items[a].attempts == s.db.items[a].attempts + 1
  {
    CopyingClaimRaisesAttempt(s.db, a, worker, now);
  }

  /** How often the item went from copying to switched. */
  function Switches(s: Sys, es: seq<Event>, a: AvatarId): nat
    decreases |es|
  {
    if es == [] then 0
    else
      var before, after := Run(s, es[..|es| - 1]), Run(s, es);
      Switches(s, es[..|es| - 1], a) +
      if a in before.db.items && a in after.db.items && before.db.items[a].status == Copying && after.db.items[a].status == Switched
      then 1 else 0
  }

  lemma {:induction false} SwitchesAtMostOnce(s: Sys, es: seq<Event>, a: AvatarId)
    requires a in s.db.items
    ensures a in Run(s, es).db.items
    ensures Switches(s, es, a) ==
      if Unmoved(s.db.items[a].status) && !Unmoved(Run(s, es).db.items[a].status) then 1 else 0
  {
    if es != [] {
      var front := es[..|es| - 1];
      SwitchesAtMostOnce(s, front, a);
      RunProgress(s, front, a);
      StepProgress(Run(s, front), es[|es| - 1], a);
    }
  }

  // ---------------------------------------------------------------- counters and cutover

  predicate AllCompleted(db: Db) {
    forall a | a in db.items :: db.items[a].status == Completed
  }

  ghost predicate CountersOk(db: Db) {
    && db.mig.total == |db.items|
    && db.mig.copied == CountIn(db.items, {Switched, Completed})
    && db.mig.completed == CountIn(db.items, {Completed})
    && db.mig.failed == CountIn(db.items, {Failed})
  }

  ghost predicate CutoverOk(db: Db) {
    && (Claiming(db.mig) ==> forall a | a in db.items :: db.items[a].status != Failed)
    && (db.mig.status in {MApplying, MCompleted} ==> AllCompleted(db))
    && (db.state.active == db.mig.source || (db.state.active == db.mig.target.profile && AllCompleted(db)))
  }

  lemma SameCount(x: map<AvatarId, Item>, y: map<AvatarId, Item>, among: set<ItemStatus>)
    requires x.Keys == y.Keys
    requires forall a | a in x :: x[a].status in among <==> y[a].status in among
    ensures CountIn(x, among) == CountIn(y, among)
  {
    assert (set a | a in x && x[a].status in among) == (set a | a in y && y[a].status in among);
  }

  lemma CountNone(x: map<AvatarId, Item>, among: set<ItemStatus>)
    requires forall a | a in x :: x[a].status !in among
    ensures CountIn(x, among) == 0
  {
    assert (set a | a in x && x[a].status in among) == {};
  }

  lemma CountAll(x: map<AvatarId, Item>, among: set<ItemStatus>)
    requires forall a | a in x :: x[a].status in among
    ensures CountIn(x, among) == |x|
  {
    assert (set a | a in x && x[a].status in among) == x.Keys;
  }

  lemma ClaimCounters(db: Db, a: AvatarId, worker: Worker, now: int)
    requires CountersOk(db) && CutoverOk(db) && Claim(db, a, worker, now).Some?
    ensures CountersOk(Claim(db, a, worker, now).value.0) && CutoverOk(Claim(db, a, worker, now).value.0)
  {
    var db' := Claim(db, a, worker, now).value.0;
    SameCount(db.items, db'.items, {Switched, Completed});
    SameCount(db.items, db'.items, {Completed});
    SameCount(db.items, db'.items, {Failed});
    assert |db'.items| == |db'.items.Keys| == |db.items.Keys| == |db.items|;
  }

  lemma SwitchCounters(db: Db, w: Work, now: int)
    requires CountersOk(db) && CutoverOk(db) && MarkItemSwitched(db, w, now).Ok?
    ensures CountersOk(MarkItemSwitched(db, w, now).value) && CutoverOk(MarkItemSwitched(db, w, now).value)
  {
    var db' := MarkItemSwitched(db, w, now).value;
    SameCount(db.items, db'.items, {Completed});
    assert |db'.items| == |db'.items.Keys| == |db.items.Keys| == |db.items|;
  }

  lemma CompleteCounters(db: Db, w: Work, now: int)
    requires CountersOk(db) && CutoverOk(db) && CompleteItem(db, w, now).Ok?
    ensures CountersOk(CompleteItem(db, w, now).value) && CutoverOk(CompleteItem(db, w, now).value)
  {
    var db' := CompleteItem(db, w, now).value;
    SameCount(db.items, db'.items, {Switched, Completed});
    SameCount(db.items, db'.items, {Failed});
    assert |db'.items| == |db'.items.Keys| == |db.items.Keys| == |db.items|;
  }

  lemma FailCounters(db: Db, w: Work, now: int)
    requires CountersOk(db) && CutoverOk(db)
    ensures CountersOk(FailItem(db, w, now)) && CutoverOk(FailItem(db, w, now))
  {
    var db' := FailItem(db, w, now);
    SameCount(db.items, db'.items, {Switched, Completed});
    SameCount(db.items, db'.items, {Completed});
    assert |db'.items| == |db'.items.Keys| == |db.items.Keys| == |db.items|;
  }

  lemma FinalizeCounters(db: Db, now: int)
    requires CountersOk(db) && CutoverOk(db) && FinalizeMigration(db, now).Ok?
    ensures CountersOk(FinalizeMigration(db, now).value.0) && CutoverOk(FinalizeMigration(db, now).value.0)
  {
    if AllCompleted(db) { CountAll(db.items, {Completed}); }
  }

  lemma RetryCounters(db: Db, instance: nat, control: Control, expected: nat, now: int)
    requires CountersOk(db) && CutoverOk(db) && RetryMigration(db, instance, control, expected, now).Ok?
    ensures CountersOk(RetryMigration(db, instance, control, expected, now).value)
    ensures CutoverOk(RetryMigration(db, instance, control, expected, now).value)
  {
    var db' := RetryMigration(db, instance, control, expected, now).value;
    SameCount(db.items, db'.items, {Switched, Completed});
    SameCount(db.items, db'.items, {Completed});
    CountNone(db'.items, {Failed});
    assert db'.items.Keys == db.items.Keys;
    assert |db'.items| == |db'.items.Keys| == |db.items.Keys| == |db.items|;
  }

  /** Every step's effect on the database is one transaction's, or touches no counted table. */
  ghost predicate DbStep(db: Db, db': Db) {
    || (db'.mig == db.mig && db'.items == db.items && db'.state == db.state)
    || (exists a, worker, now :: Claim(db, a, worker, now).Some? && Claim(db, a, worker, now).value.0 == db')
    || (exists w, now :: MarkItemSwitched(db, w, now) == Ok(db'))
    || (exists w, now :: CompleteItem(db, w, now) == Ok(db'))
    || (exists w, now :: FailItem(db, w, now) == db')
    || (exists now :: FinalizeMigration(db, now).Ok? && FinalizeMigration(db, now).value.0 == db')
    || (exists i, c, x, now :: RetryMigration(db, i, c, x, now) == Ok(db'))
  }

  lemma StepIsDbStep(s: Sys, e: Event)
    ensures DbStep(s.db, Step(s, e).db)
  {
    hide CountIn, Claim, MarkItemSwitched, CompleteItem, FailItem, FinalizeMigration, RetryMigration;
  }

  lemma DbStepCounters(db: Db, db': Db)
    requires CountersOk(db) && CutoverOk(db) && DbStep(db, db')
    ensures CountersOk(db') && CutoverOk(db')
  {
    if a, worker, now :| Claim(db, a, worker, now).Some? && Claim(db, a, worker, now).value.0 == db' {
      ClaimCounters(db, a, worker, now);
    } else if w, now :| MarkItemSwitched(db, w, now) == Ok(db') {
      SwitchCounters(db, w, now);
    } else if w, now :| CompleteItem(db, w, now) == Ok(db') {
      CompleteCounters(db, w, now);
    } else if w, now :| FailItem(db, w, now) == db' {
      FailCounters(db, w, now);
    } else if now :| FinalizeMigration(db, now).Ok? && FinalizeMigration(db, now).value.0 == db' {
      FinalizeCounters(db, now);
    } else if i, c, x, now :| RetryMigration(db, i, c, x, now) == Ok(db') {
      RetryCounters(db, i, c, x, now);
    }
  }

  /** In every reachable state the four counters equal the item-status counts, a pending or
      running migration has no failed item, and a cut-over migration has only completed ones. */
  lemma {:induction false} CountersAlways(s0: Sys, es: seq<Event>)
    requires Started(s0)
    ensures CountersOk(Run(s0, es).db) && CutoverOk(Run(s0, es).db)
  {
    if es == [] {
      CountNone(s0.db.items, {Switched, Completed});
      CountNone(s0.db.items, {Completed});
      CountNone(s0.db.items, {Failed});
    } else {
      CountersAlways(s0, es[..|es| - 1]);
      StepIsDbStep(Run(s0, es[..|es| - 1]), es[|es| - 1]);
      DbStepCounters(Run(s0, es[..|es| - 1]).db, Run(s0, es).db);
    }
  }

  lemma CutoverStepOf(s: Sys, e: Event)
    requires CutoverOk(s.db)
    ensures var s' := Step(s, e);
      && (s'.db.state.active != s.db.state.active ==>
            && AllCompleted(s.db) && s'.db.state.active == s.db.mig.target.profile && s'.db.state.revision == s.db.state.revision + 1
            && s'.db.state.previous == s.db.state.active && s'.db.state.candidate == None)
      && (s'.db.mig.status == MCompleted && s.db.mig.status != MCompleted ==>
            && e.EvFinalize? && AllCompleted(s.db) && s.db.state.active == s.db.mig.target.profile
            && forall i | i in s.db.instances && LiveInstance(s.db.instances[i], e.now) ::
                 s.db.instances[i].loaded >= s.db.state.revision)
  {
    hide CountIn, Claim, HoldsClaim;
    if e.EvClaim? && Claim(s.db, e.avatar, e.worker, e.now).Some? { ClaimLeavesState(s.db, e.avatar, e.worker, e.now); }
  }

  lemma ClaimLeavesState(db: Db, a: AvatarId, worker: Worker, now: int)
    requires Claim(db, a, worker, now).Some?
    ensures Claim(db, a, worker, now).value.0.state == db.state && Claim(db, a, worker, now).value.0.mig.status == MRunning
  {}

  /** The active profile changes only by the cutover, and then every item is completed, the former
      active profile stays known as the previous one, and no candidate is left; and the migration becomes completed only when every instance with a live heartbeat has loaded the
      cut-over revision. */
  lemma {:induction false} CutoverStep(s0: Sys, es: seq<Event>, e: Event)
    requires Started(s0)
    ensures var s, s' := Run(s0, es), Run(s0, es + [e]);
      && (s'.db.state.active != s.db.state.active ==>
            && AllCompleted(s.db) && s'.db.state.active == s.db.mig.target.profile && s'.db.state.revision == s.db.state.revision + 1
            && s'.db.state.previous == s.db.state.active && s'.db.state.candidate == None)
      && (s'.db.mig.status == MCompleted && s.db.mig.status != MCompleted ==>
            && e.EvFinalize? && AllCompleted(s.db) && s.db.state.active == s.db.mig.target.profile
            && forall i | i in s.db.instances && LiveInstance(s.db.instances[i], e.now) ::
                 s.db.instances[i].loaded >= s.db.state.revision)
  {
    hide Step, Run, Started;
    CountersAlways(s0, es);
    RunOne(s0, es, e);
    CutoverStepOf(Run(s0, es), e);
  }

  /** After the cutover every migrated avatar is recorded at the target and readable there with
      the bytes it had at the start. */
  lemma {:induction false} CutoverComplete(s0: Sys, es: seq<Event>, a: AvatarId, i: nat)
    requires Started(s0) && DistinctPlaces(s0) && MediaPaused(es) && LateWritesFaithful(s0, es)
    requires a in s0.db.items && i < |s0.db.avatars[a].variants|
    requires Run(s0, es).db.state.active != Run(s0, es).db.mig.source
    ensures var s := Run(s0, es);
      && a in s.db.avatars && a in s.db.items && s.db.avatars[a].store == s.db.items[a].target
      && Readable(s, a, s0.db.avatars[a].variants[i].size).Some?
      && Readable(s, a, s0.db.avatars[a].variants[i].size) == Readable(s0, a, s0.db.avatars[a].variants[i].size)
  {
    CountersAlways(s0, es);
    RunKeeps(s0, es);
    StartedItem(s0, a);
    var s := Run(s0, es);
    assert s.db.items[a].status == Completed;
    assert Landed(s0, s, s.db.items[a].source, s.db.items[a].target, Key(a, s.db.avatars[a].variants[i].size));
  }

  /** The avatars that a migration has to take: those not deleted and recorded at the profile that
      was active when it started. */
  predicate ToTake(s0: Sys, a: AvatarId) {
    a in s0.db.avatars && !s0.db.avatars[a].deleted && s0.db.avatars[a].store.profile == s0.db.state.active
  }

  lemma StartedTakes(s0: Sys)
    requires Started(s0)
    ensures s0.db.mig.source == s0.db.state.active
    ensures forall a :: a in s0.db.items <==> ToTake(s0, a)
    ensures forall a | a in s0.db.items :: s0.db.items[a].target == s0.db.mig.target
  {}

  lemma {:induction false} TargetStays(s0: Sys, es: seq<Event>)
    ensures Run(s0, es).db.mig.source == s0.db.mig.source && Run(s0, es).db.mig.target == s0.db.mig.target
  {
    hide DbStep;
    if es != [] {
      TargetStays(s0, es[..|es| - 1]);
      hide Run, Step;
      StepIsDbStep(Run(s0, es[..|es| - 1]), es[|es| - 1]);
      MigStays(Run(s0, es[..|es| - 1]).db, Step(Run(s0, es[..|es| - 1]), es[|es| - 1]).db);
      assert Run(s0, es) == Step(Run(s0, es[..|es| - 1]), es[|es| - 1]) by { LastStep(s0, es); }
    }
  }

  lemma LastStep(s0: Sys, es: seq<Event>)
    requires es != []
    ensures Run(s0, es) == Step(Run(s0, es[..|es| - 1]), es[|es| - 1])
  {}

  lemma MigStays(db: Db, db': Db)
    requires DbStep(db, db')
    ensures db'.mig.source == db.mig.source && db'.mig.target == db.mig.target
  {
    hide CountIn, HoldsClaim, LiveInstance;
  }

  /** Once the active profile is another one, no avatar is left behind: everyone that was recorded
      at the profile active at the start, and not deleted, is recorded at the migration's target, and
      every variant is readable there with its original bytes; no other avatar row has changed. */
  lemma {:induction false} CutoverTakesAll(s0: Sys, es: seq<Event>, a: AvatarId)
    requires Started(s0) && DistinctPlaces(s0) && MediaPaused(es) && LateWritesFaithful(s0, es)
    requires a in s0.db.avatars && Run(s0, es).db.state.active != s0.db.state.active
    ensures a in Run(s0, es).db.avatars && Run(s0, es).db.avatars[a].variants == s0.db.avatars[a].variants
    ensures !ToTake(s0, a) ==> Run(s0, es).db.avatars[a] == s0.db.avatars[a]
    ensures ToTake(s0, a) ==>
      && Run(s0, es).db.avatars[a].store == s0.db.mig.target
      && forall i | 0 <= i < |s0.db.avatars[a].variants| ::
           && Readable(Run(s0, es), a, s0.db.avatars[a].variants[i].size).Some?
           && Readable(Run(s0, es), a, s0.db.avatars[a].variants[i].size) == Readable(s0, a, s0.db.avatars[a].variants[i].size)
  {
    StartedTakes(s0);
    TargetStays(s0, es);
    RunKeeps(s0, es);
    CountersAlways(s0, es);
    var s := Run(s0, es);
    assert Frame(s0, s) && RowsOk(s);
    hide Started, Run, DistinctPlaces, LateWritesFaithful, Inv, Readable;
    if ToTake(s0, a) {
      assert s.db.items[a].status == Completed;
      forall i: nat | i < |s0.db.avatars[a].variants|
        ensures Readable(s, a, s0.db.avatars[a].variants[i].size).Some?
        ensures Readable(s, a, s0.db.avatars[a].variants[i].size) == Readable(s0, a, s0.db.avatars[a].variants[i].size)
      {
        CutoverComplete(s0, es, a, i);
      }
    }
  }
}

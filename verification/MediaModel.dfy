/** Media storage migration: the database transactions of internal/mediaruntime, the worker
    program that runs between them, and the physical blob stores, as one step function.

    Every committed transaction and every blob operation is one atomic step. Times are
    microseconds on one clock. The choice among eligible rows, the fate of a transaction and
    the success of a blob operation are part of the event, so quantifying over event sequences
    quantifies over every interleaving, crash, lease takeover and uncertain commit. */
module MediaModel {
  import opened Base

  const CLAIM_LEASE := 15 * MINUTE
  const HEARTBEAT_LIFE := 15 * SECOND
  const TEST_VALIDITY := 10 * MINUTE

  type AvatarId = nat
  type Worker = nat
  type Thread = nat
  type Place = nat
  type Bytes = seq<bv8>
  type Profile = Option<nat>

  datatype Backend = Local | S3

  /** A recorded store. Profile `None` is the deployment-configured fallback. */
  datatype StoreRef = StoreRef(profile: Profile, backend: Backend)

  /** Object keys contain the avatar's identifier, so two avatars never share one. */
  datatype Key = Key(avatar: AvatarId, size: nat)

  datatype Variant = Variant(size: nat, bytes: nat)

  /** An avatar has one variant of each size. */
  predicate SizesDiffer(vs: seq<Variant>) {
    forall i, j | 0 <= i < j < |vs| :: vs[i].size != vs[j].size
  }

  datatype Avatar = Avatar(store: StoreRef, variants: seq<Variant>, deleted: bool)

  datatype ItemStatus = Pending | Copying | Switched | Completed | Failed

  datatype Lock = Lock(owner: Worker, at: int)

  datatype Item = Item(source: StoreRef, target: StoreRef, status: ItemStatus, attempts: nat,
                       lock: Option<Lock>, updatedAt: int)

  datatype MigrationStatus = MPending | MRunning | MApplying | MCompleted | MFailed

  datatype Migration = Migration(status: MigrationStatus, source: Profile, target: StoreRef,
                                 total: nat, copied: nat, completed: nat, failed: nat)

  datatype StateRow = StateRow(revision: nat, active: Profile, candidate: Profile, previous: Profile)

  datatype Instance = Instance(heartbeatAt: int, loaded: nat, prepared: Profile)

  datatype Db = Db(mig: Migration, items: map<AvatarId, Item>, avatars: map<AvatarId, Avatar>,
                   state: StateRow, instances: map<nat, Instance>)

  /** What a claim hands to the worker. */
  datatype Work = Work(avatar: AvatarId, worker: Worker, attempt: nat, source: StoreRef,
                       target: StoreRef, status: ItemStatus, variants: seq<Variant>)

  datatype Error =
    | OwnershipChanged | ClaimLost | NotSwitched | CandidateChanged | CandidateNotFound
    | InvalidConfig | StateConflict | FallbackAlreadyActive | SingleInstanceRequired
    | NotPaused | InstancesNotReady | TestRequired | MigrationActive | MigrationNotFound

  // ---------------------------------------------------------------- queries

  /** SELECT COUNT(*) over the items in one of the given statuses. */
  function CountIn(items: map<AvatarId, Item>, among: set<ItemStatus>): nat {
    |set a | a in items && items[a].status in among|
  }

  predicate LiveInstance(i: Instance, now: int) {
    i.heartbeatAt > now - HEARTBEAT_LIFE
  }

  predicate Claimable(item: Item, now: int) {
    || item.status in {Pending, Switched, Failed}
    || (item.status == Copying && item.lock.Some? && item.lock.value.at <= now - CLAIM_LEASE)
  }

  predicate Claiming(mig: Migration) {
    mig.status in {MPending, MRunning}
  }

  /** The holder of `w` is the item's current copier: no later claim has superseded it. */
  predicate Current(db: Db, w: Work) {
    && w.avatar in db.items
    && db.items[w.avatar].status == Copying
    && db.items[w.avatar].attempts == w.attempt
  }

  /** The fence of MarkItemSwitched and FailItem. */
  predicate HoldsClaim(db: Db, w: Work) {
    && Current(db, w)
    && db.items[w.avatar].lock.Some?
    && db.items[w.avatar].lock.value.owner == w.worker
  }

  // ---------------------------------------------------------------- transactions

  /** ClaimMigrationItem, for the row the query picked. */
  function Claim(db: Db, a: AvatarId, worker: Worker, now: int): (r: Option<(Db, Work)>) {
    if !Claiming(db.mig) || a !in db.items || a !in db.avatars || !Claimable(db.items[a], now) then None
    else
      var item := db.items[a];
      var claimed :=
        if item.status == Switched then item.(lock := None, updatedAt := now)
        else item.(status := Copying, lock := Some(Lock(worker, now)), attempts := item.attempts + 1, updatedAt := now);
      Some((db.(items := db.items[a := claimed], mig := db.mig.(status := MRunning)),
            Work(a, worker, claimed.attempts, claimed.source, claimed.target, claimed.status, db.avatars[a].variants)))
  }

  function MarkItemSwitched(db: Db, w: Work, now: int): (r: Result<Db, Error>) {
    if w.avatar !in db.avatars || db.avatars[w.avatar].store.profile != w.source.profile || db.avatars[w.avatar].deleted
    then Err(OwnershipChanged)
    else if !HoldsClaim(db, w) then Err(ClaimLost)
    else
      var avatars := db.avatars[w.avatar := db.avatars[w.avatar].(store := w.target)];
      var items := db.items[w.avatar := db.items[w.avatar].(status := Switched, lock := None, updatedAt := now)];
      Ok(db.(avatars := avatars, items := items,
             mig := db.mig.(copied := CountIn(items, {Switched, Completed}), failed := CountIn(items, {Failed}))))
  }

  function CompleteItem(db: Db, w: Work, now: int): (r: Result<Db, Error>) {
    if w.avatar !in db.items || db.items[w.avatar].status != Switched then Err(NotSwitched)
    else
      var items := db.items[w.avatar := db.items[w.avatar].(status := Completed, updatedAt := now)];
      Ok(db.(items := items, mig := db.mig.(completed := CountIn(items, {Completed}))))
  }

  /** FailItem marks the migration failed whether or not its fenced item update hit a row. */
  function FailItem(db: Db, w: Work, now: int): (r: Db) {
    var items := if HoldsClaim(db, w)
                 then db.items[w.avatar := db.items[w.avatar].(status := Failed, lock := None, updatedAt := now)]
                 else db.items;
    db.(items := items, mig := db.mig.(status := MFailed, failed := CountIn(items, {Failed})))
  }

  /** FinalizeMigration; the flag says whether the migration finished. */
  function FinalizeMigration(db: Db, now: int): (r: Result<(Db, bool), Error>) {
    if db.mig.status == MApplying then
      if db.state.active != db.mig.target.profile then Err(CandidateChanged)
      else if exists i | i in db.instances :: LiveInstance(db.instances[i], now) && db.instances[i].loaded < db.state.revision
      then Ok((db, false))
      else Ok((db.(mig := db.mig.(status := MCompleted, completed := db.mig.total)), true))
    else if !Claiming(db.mig) then Ok((db, false))
    else if exists a | a in db.items :: db.items[a].status != Completed then Ok((db, false))
    else if db.state.active != db.mig.source then Err(CandidateChanged)
    else if db.mig.target.backend == S3 && (db.mig.target.profile.None? || db.state.candidate != db.mig.target.profile)
    then Err(CandidateChanged)
    else if db.mig.target.backend == Local && db.mig.target.profile.Some? then Err(InvalidConfig)
    else
      Ok((db.(state := StateRow(db.state.revision + 1, db.mig.target.profile, None, db.mig.source),
              mig := db.mig.(status := MApplying, completed := db.mig.total)), false))
  }

  /** The service-control row the start and the retry check. */
  datatype Control = Control(revision: nat, mediaPaused: bool)

  function RetryMigration(db: Db, instance: nat, control: Control, expected: nat, now: int): (r: Result<Db, Error>) {
    if db.mig.status != MFailed then Err(MigrationNotFound)
    else if db.mig.target.backend == S3 && (db.mig.target.profile.None? || db.state.candidate != db.mig.target.profile)
    then Err(CandidateChanged)
    else if db.mig.target.backend == Local && db.mig.target.profile.Some? then Err(InvalidConfig)
    else if db.mig.target.backend == Local &&
            exists i | i in db.instances :: i != instance && LiveInstance(db.instances[i], now)
    then Err(SingleInstanceRequired)
    else if !control.mediaPaused || control.revision != expected then Err(NotPaused)
    else
      var items := map a | a in db.items ::
        if db.items[a].status == Failed then db.items[a].(status := Pending, lock := None, updatedAt := now)
        else db.items[a];
      Ok(db.(items := items, mig := db.mig.(status := MPending, failed := 0)))
  }

  /** What StartMigration reads. `tests` holds the time of each profile's last test when that
      test succeeded; `unresolved` says whether some migration is not completed. */
  datatype Catalog = Catalog(state: StateRow, avatars: map<AvatarId, Avatar>, instances: map<nat, Instance>,
                             tests: map<nat, int>, control: Control, unresolved: bool)

  datatype StartInput = StartInput(expectedRevision: nat, target: StoreRef, instance: nat, controlRevision: nat)

  function StartMigration(c: Catalog, i: StartInput, now: int): (r: Result<Db, Error>) {
    if c.state.revision != i.expectedRevision then Err(StateConflict)
    else if i.target.backend == S3 && i.target.profile.None? then Err(InvalidConfig)
    else if i.target.backend == S3 && c.state.candidate.None? then Err(CandidateNotFound)
    else if i.target.backend == S3 && c.state.candidate != i.target.profile then Err(CandidateChanged)
    else if i.target.backend == Local && i.target.profile.Some? then Err(InvalidConfig)
    else if i.target.backend == Local && c.state.active.None? then Err(FallbackAlreadyActive)
    else if i.target.backend == Local &&
            exists j | j in c.instances :: j != i.instance && LiveInstance(c.instances[j], now)
    then Err(SingleInstanceRequired)
    else if !c.control.mediaPaused || c.control.revision != i.controlRevision then Err(NotPaused)
    else if i.target.backend == S3 && exists j | j in c.instances ::
              LiveInstance(c.instances[j], now) &&
              (c.instances[j].prepared != i.target.profile || c.instances[j].loaded < i.expectedRevision)
    then Err(InstancesNotReady)
    else if i.target.backend == S3 &&
            (i.target.profile.value !in c.tests || c.tests[i.target.profile.value] < now - TEST_VALIDITY)
    then Err(TestRequired)
    else if c.unresolved then Err(MigrationActive)
    else
      var items := map a | a in c.avatars && !c.avatars[a].deleted && c.avatars[a].store.profile == c.state.active ::
        Item(c.avatars[a].store, i.target, Pending, 0, None, now);
      Ok(Db(Migration(MPending, c.state.active, i.target, |items|, 0, 0, 0), items, c.avatars, c.state, c.instances))
  }

  // ---------------------------------------------------------------- workers and blob stores

  /** Where one run of migrateOnce stands. */
  datatype Pc =
    | Idle
    | Claimed(w: Work)
    | Reading(w: Work, i: nat)
    | Writing(w: Work, i: nat, body: Bytes)
    | Checking(w: Work, i: nat, body: Bytes)
    | Switching(w: Work)
    | Deleting(w: Work, i: nat)
    | Completing(w: Work)
    | Failing(w: Work)

  /** The whole system. `places` says at which physical place each recorded store lives; two
      records may name the same place. */
  datatype Sys = Sys(db: Db, blobs: map<(Place, Key), Bytes>, threads: map<Thread, Pc>, places: map<StoreRef, Place>)

  datatype Event =
    | EvClaim(t: Thread, worker: Worker, avatar: AvatarId, now: int, fate: Fate)
    | EvResolve(t: Thread, ok: bool)
    | EvRead(t: Thread, ok: bool)
    | EvWrite(t: Thread, stored: Bytes, fate: Fate)
    | EvCheck(t: Thread, ok: bool)
    | EvSwitch(t: Thread, now: int, fate: Fate)
    | EvDelete(t: Thread, fate: Fate)
    | EvComplete(t: Thread, now: int, fate: Fate)
    | EvFail(t: Thread, now: int, fate: Fate)
    | EvFinalize(now: int, fate: Fate)
    | EvRetry(instance: nat, control: Control, expected: nat, now: int)
    | EvHeartbeat(instance: nat, beat: Instance)
    | EvCrash(t: Thread)
    | EvMoveAvatar(avatar: AvatarId, store: StoreRef)

  function PcOf(s: Sys, t: Thread): Pc {
    if t in s.threads then s.threads[t] else Idle
  }

  function SetPc(s: Sys, t: Thread, pc: Pc): Sys {
    s.(threads := s.threads[t := pc])
  }

  function NextCopy(w: Work, i: nat): Pc {
    if i < |w.variants| then Reading(w, i) else Switching(w)
  }

  function NextDelete(w: Work, i: nat): Pc {
    if i < |w.variants| then Deleting(w, i) else Completing(w)
  }

  function KeyOf(w: Work, i: nat): Key
    requires i < |w.variants|
  {
    Key(w.avatar, w.variants[i].size)
  }

  /** Commits `after` unless the transaction aborted. */
  function Apply(s: Sys, after: Db, fate: Fate): Sys {
    if fate == Aborted then s else s.(db := after)
  }

  function StepClaim(s: Sys, t: Thread, worker: Worker, a: AvatarId, now: int, fate: Fate): Sys {
    var c := Claim(s.db, a, worker, now);
    if PcOf(s, t) != Idle || c.None? || fate == Aborted then s
    else
      var s' := s.(db := c.value.0);
      if fate == Uncertain then s' else SetPc(s', t, Claimed(c.value.1))
  }

  /** Resolving the two stores, right after the claim. */
  function StepResolve(s: Sys, t: Thread, ok: bool): Sys {
    match PcOf(s, t)
    case Claimed(w) =>
      if !ok || w.source !in s.places || w.target !in s.places then SetPc(s, t, Failing(w))
      else SetPc(s, t, if w.status == Switched then NextDelete(w, 0) else NextCopy(w, 0))
    case _ => s
  }

  function StepRead(s: Sys, t: Thread, ok: bool): Sys {
    match PcOf(s, t)
    case Reading(w, i) =>
      if i < |w.variants| && w.source in s.places then
        var at := (s.places[w.source], KeyOf(w, i));
        if ok && at in s.blobs && |s.blobs[at]| == w.variants[i].bytes
        then SetPc(s, t, Writing(w, i, s.blobs[at]))
        else SetPc(s, t, Failing(w))
      else s
    case _ => s
  }

  /** What a write stores may differ from what was sent: the check that follows is there for that. */
  function StepWrite(s: Sys, t: Thread, stored: Bytes, fate: Fate): Sys {
    match PcOf(s, t)
    case Writing(w, i, body) =>
      if i < |w.variants| && w.target in s.places then
        if fate == Aborted then SetPc(s, t, Failing(w))
        else
          var s' := s.(blobs := s.blobs[(s.places[w.target], KeyOf(w, i)) := stored]);
          SetPc(s', t, if fate == Committed then Checking(w, i, body) else Failing(w))
      else s
    case _ => s
  }

  function StepCheck(s: Sys, t: Thread, ok: bool): Sys {
    match PcOf(s, t)
    case Checking(w, i, body) =>
      if i < |w.variants| && w.target in s.places then
        var at := (s.places[w.target], KeyOf(w, i));
        if ok && at in s.blobs && s.blobs[at] == body then SetPc(s, t, NextCopy(w, i + 1))
        else SetPc(s, t, Failing(w))
      else s
    case _ => s
  }

  /** Once MarkItemSwitched was called, an error only ends the round: FailItem is not called. */
  function StepSwitch(s: Sys, t: Thread, now: int, fate: Fate): Sys {
    match PcOf(s, t)
    case Switching(w) =>
      var r := MarkItemSwitched(s.db, w, now);
      if r.Err? || fate == Aborted then SetPc(s, t, Idle)
      else SetPc(Apply(s, r.value, fate), t, if fate == Committed then NextDelete(w.(status := Switched), 0) else Idle)
    case _ => s
  }

  function StepDelete(s: Sys, t: Thread, fate: Fate): Sys {
    match PcOf(s, t)
    case Deleting(w, i) =>
      if i < |w.variants| && w.source in s.places then
        var s' := if fate == Aborted then s else s.(blobs := s.blobs - {(s.places[w.source], KeyOf(w, i))});
        SetPc(s', t, if fate == Committed then NextDelete(w, i + 1) else Idle)
      else s
    case _ => s
  }

  function StepComplete(s: Sys, t: Thread, now: int, fate: Fate): Sys {
    match PcOf(s, t)
    case Completing(w) =>
      var r := CompleteItem(s.db, w, now);
      SetPc(if r.Ok? then Apply(s, r.value, fate) else s, t, Idle)
    case _ => s
  }

  function StepFail(s: Sys, t: Thread, now: int, fate: Fate): Sys {
    match PcOf(s, t)
    case Failing(w) => SetPc(Apply(s, FailItem(s.db, w, now), fate), t, Idle)
    case _ => s
  }

  function StepFinalize(s: Sys, now: int, fate: Fate): Sys {
    var r := FinalizeMigration(s.db, now);
    if r.Ok? then Apply(s, r.value.0, fate) else s
  }

  function StepRetry(s: Sys, instance: nat, control: Control, expected: nat, now: int): Sys {
    var r := RetryMigration(s.db, instance, control, expected, now);
    if r.Ok? then s.(db := r.value) else s
  }

  function Step(s: Sys, e: Event): Sys {
    match e
    case EvClaim(t, worker, a, now, fate) => StepClaim(s, t, worker, a, now, fate)
    case EvResolve(t, ok) => StepResolve(s, t, ok)
    case EvRead(t, ok) => StepRead(s, t, ok)
    case EvWrite(t, stored, fate) => StepWrite(s, t, stored, fate)
    case EvCheck(t, ok) => StepCheck(s, t, ok)
    case EvSwitch(t, now, fate) => StepSwitch(s, t, now, fate)
    case EvDelete(t, fate) => StepDelete(s, t, fate)
    case EvComplete(t, now, fate) => StepComplete(s, t, now, fate)
    case EvFail(t, now, fate) => StepFail(s, t, now, fate)
    case EvFinalize(now, fate) => StepFinalize(s, now, fate)
    case EvRetry(instance, control, expected, now) => StepRetry(s, instance, control, expected, now)
    case EvHeartbeat(instance, beat) => s.(db := s.db.(instances := s.db.instances[instance := beat]))
    case EvCrash(t) => SetPc(s, t, Idle)
    case EvMoveAvatar(a, store) =>
      if a in s.db.avatars then s.(db := s.db.(avatars := s.db.avatars[a := s.db.avatars[a].(store := store)])) else s
  }

  function Run(s: Sys, es: seq<Event>): Sys
    decreases |es|
  {
    if es == [] then s else Step(Run(s, es[..|es| - 1]), es[|es| - 1])
  }
}

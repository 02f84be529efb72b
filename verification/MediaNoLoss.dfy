/** No blob is lost: every variant readable at its avatar's recorded store when a migration
    starts is readable there, with the same bytes, in every state any run reaches. */
module MediaNoLoss {
  import opened Base
  import opened MediaModel
  import opened MediaRuns

  /** The bytes a reader gets who looks a variant up at the avatar's recorded store. */
  function Readable(s: Sys, a: AvatarId, size: nat): Option<Bytes> {
    if a in s.db.avatars && s.db.avatars[a].store in s.places
    then At(s, s.places[s.db.avatars[a].store], Key(a, size)) else None
  }

  /** Both stores of the item resolve, and to one and the same physical place. */
  predicate SamePlace(s: Sys, a: AvatarId)
    requires a in s.db.items
  {
    && s.db.items[a].source in s.places && s.db.items[a].target in s.places
    && s.places[s.db.items[a].source] == s.places[s.db.items[a].target]
  }

  /** No item that has something to copy is migrated onto its own place. */
  ghost predicate DistinctPlaces(s: Sys) {
    forall a | a in s.db.items && a in s.db.avatars && SamePlace(s, a) :: s.db.avatars[a].variants == []
  }

  /** A migration that StartMigration just created, with no worker left over from an earlier one. */
  ghost predicate Started(s: Sys) {
    && s.threads == map[]
    && exists c, i, now :: StartMigration(c, i, now) == Ok(s.db)
  }

  // ---------------------------------------------------------------- the invariant

  predicate Unmoved(st: ItemStatus) {
    st in {Pending, Copying, Failed}
  }

  ghost predicate Frame(s0: Sys, s: Sys) {
    && s.places == s0.places
    && s.db.items.Keys == s0.db.items.Keys
    && s.db.avatars.Keys == s0.db.avatars.Keys
    && s.db.items.Keys <= s.db.avatars.Keys
    && (forall a | a in s.db.items ::
          s.db.items[a].source == s0.db.items[a].source && s.db.items[a].target == s0.db.items[a].target)
    && (forall a | a in s.db.avatars :: s.db.avatars[a].variants == s0.db.avatars[a].variants)
    && (forall a | a in s.db.avatars && a !in s.db.items :: s.db.avatars[a] == s0.db.avatars[a])
  }

  ghost predicate RowsOk(s: Sys)
    requires s.db.items.Keys <= s.db.avatars.Keys
  {
    forall a | a in s.db.items ::
      s.db.avatars[a].store == if Unmoved(s.db.items[a].status) then s.db.items[a].source else s.db.items[a].target
  }

  predicate IsPlace(s: Sys, r: StoreRef, p: Place) {
    r in s.places && s.places[r] == p
  }

  /** Away from an item's target place a blob is as it was at the start, except that a moved
      item's source copy may be gone. */
  ghost predicate Kept(s0: Sys, s: Sys, p: Place, k: Key) {
    if k.avatar !in s.db.items then At(s, p, k) == At(s0, p, k)
    else
      var item := s.db.items[k.avatar];
      || IsPlace(s, item.target, p)
      || At(s, p, k) == At(s0, p, k)
      || (At(s, p, k).None? && !Unmoved(item.status) && IsPlace(s, item.source, p))
  }

  ghost predicate BlobsOk(s0: Sys, s: Sys) {
    forall p, k :: Kept(s0, s, p, k)
  }

  /** The variant's original bytes are at the target place. */
  ghost predicate Landed(s0: Sys, s: Sys, source: StoreRef, target: StoreRef, k: Key) {
    && source in s.places && target in s.places
    && At(s0, s.places[source], k).Some?
    && At(s, s.places[target], k) == At(s0, s.places[source], k)
  }

  ghost predicate MovedOk(s0: Sys, s: Sys)
    requires s.db.items.Keys <= s.db.avatars.Keys
  {
    forall a, i | a in s.db.items && !Unmoved(s.db.items[a].status) && 0 <= i < |s.db.avatars[a].variants| ::
      Landed(s0, s, s.db.items[a].source, s.db.items[a].target, Key(a, s.db.avatars[a].variants[i].size))
  }

  ghost predicate WorkOk(s: Sys, w: Work) {
    && w.avatar in s.db.items && w.avatar in s.db.avatars
    && w.source == s.db.items[w.avatar].source && w.target == s.db.items[w.avatar].target
    && w.variants == s.db.avatars[w.avatar].variants
  }

  ghost predicate CopierOk(s: Sys, w: Work) {
    && WorkOk(s, w)
    && w.attempt <= s.db.items[w.avatar].attempts
    && w.source in s.places && w.target in s.places
  }

  ghost predicate DeleterOk(s: Sys, w: Work) {
    && WorkOk(s, w)
    && !Unmoved(s.db.items[w.avatar].status)
  }

  ghost predicate LandedFrom(s0: Sys, s: Sys, w: Work, n: nat)
    requires n <= |w.variants|
  {
    forall j | 0 <= j < n :: Landed(s0, s, w.source, w.target, KeyOf(w, j))
  }

  /** Being superseded voids what a worker has verified; nothing is claimed of it then. */
  ghost predicate PcOk(s0: Sys, s: Sys, pc: Pc) {
    match pc
    case Idle => true
    case Failing(w) => true
    case Claimed(w) =>
      if w.status == Switched then DeleterOk(s, w)
      else WorkOk(s, w) && w.attempt <= s.db.items[w.avatar].attempts
    case Reading(w, i) =>
      CopierOk(s, w) && i <= |w.variants| && (Current(s.db, w) ==> LandedFrom(s0, s, w, i))
    case Writing(w, i, body) =>
      && CopierOk(s, w) && i < |w.variants| && (Current(s.db, w) ==> LandedFrom(s0, s, w, i))
      && At(s0, s.places[w.source], KeyOf(w, i)) == Some(body)
    case Checking(w, i, body) =>
      && CopierOk(s, w) && i < |w.variants|
      && (Current(s.db, w) ==> forall j | 0 <= j < i && KeyOf(w, j) != KeyOf(w, i) ::
            Landed(s0, s, w.source, w.target, KeyOf(w, j)))
      && At(s0, s.places[w.source], KeyOf(w, i)) == Some(body)
    case Switching(w) =>
      CopierOk(s, w) && (Current(s.db, w) ==> LandedFrom(s0, s, w, |w.variants|))
    case Deleting(w, i) => DeleterOk(s, w)
    case Completing(w) => DeleterOk(s, w)
  }

  function Copier(pc: Pc): Option<Work> {
    match pc
    case Claimed(w) => if w.status == Switched then None else Some(w)
    case Reading(w, _) => Some(w)
    case Writing(w, _, _) => Some(w)
    case Checking(w, _, _) => Some(w)
    case Switching(w) => Some(w)
    case _ => None
  }

  predicate Clash(x: Pc, y: Pc) {
    && Copier(x).Some? && Copier(y).Some?
    && Copier(x).value.avatar == Copier(y).value.avatar && Copier(x).value.attempt == Copier(y).value.attempt
  }

  /** No two workers copy the same item under the same attempt number. */
  ghost predicate AttemptsUnique(s: Sys) {
    forall t, u | t in s.threads && u in s.threads && t != u :: !Clash(s.threads[t], s.threads[u])
  }

  ghost predicate ThreadsOk(s0: Sys, s: Sys) {
    forall t | t in s.threads :: PcOk(s0, s, s.threads[t])
  }

  ghost predicate Inv(s0: Sys, s: Sys) {
    && Frame(s0, s) && RowsOk(s) && BlobsOk(s0, s) && MovedOk(s0, s)
    && ThreadsOk(s0, s) && AttemptsUnique(s) && DistinctPlaces(s)
  }

  // ---------------------------------------------------------------- one lemma per step

  /** PcOk looks at the database, the places and the blobs only. */
  lemma SamePcOk(s0: Sys, s: Sys, s': Sys, pc: Pc)
    requires s'.db == s.db && s'.places == s.places && s'.blobs == s.blobs
    requires PcOk(s0, s, pc)
    ensures PcOk(s0, s', pc)
  {
    forall source, target, k | Landed(s0, s, source, target, k) ensures Landed(s0, s', source, target, k) {}
  }

  lemma MovePc(s0: Sys, s: Sys, t: Thread, pc: Pc)
    requires Inv(s0, s) && PcOk(s0, s, pc)
    requires forall u | u in s.threads && u != t :: !Clash(pc, s.threads[u])
    ensures Inv(s0, SetPc(s, t, pc))
  {
    var s' := SetPc(s, t, pc);
    forall p, k ensures Kept(s0, s', p, k) { assert Kept(s0, s, p, k); }
    forall u | u in s'.threads ensures PcOk(s0, s', s'.threads[u]) {
      SamePcOk(s0, s, s', s'.threads[u]);
    }
    forall a, i | a in s'.db.items && !Unmoved(s'.db.items[a].status) && 0 <= i < |s'.db.avatars[a].variants|
      ensures Landed(s0, s', s'.db.items[a].source, s'.db.items[a].target, Key(a, s'.db.avatars[a].variants[i].size))
    {
      assert Landed(s0, s, s.db.items[a].source, s.db.items[a].target, Key(a, s.db.avatars[a].variants[i].size));
    }
  }

  lemma ThreadFact(s0: Sys, s: Sys, t: Thread)
    requires Inv(s0, s)
    ensures PcOk(s0, s, PcOf(s, t))
  {}

  /** The thread goes on with the claim it has, or lets go of it. */
  lemma KeepClaim(s0: Sys, s: Sys, t: Thread, pc: Pc)
    requires Inv(s0, s) && PcOk(s0, s, pc)
    requires Copier(pc).None? || Copier(pc) == Copier(PcOf(s, t))
    ensures Inv(s0, SetPc(s, t, pc))
  {
    MovePc(s0, s, t, pc);
  }

  lemma LetGo(s0: Sys, s: Sys, t: Thread)
    requires Inv(s0, s)
    ensures Inv(s0, SetPc(s, t, Idle))
  {
    hide Inv;
    KeepClaim(s0, s, t, Idle);
  }

  /** An item update that moves nothing: no avatar row changes, no status crosses the switch,
      and no superseded claim becomes current again. */
  ghost predicate Quiet(x: Item, y: Item) {
    && y.source == x.source && y.target == x.target
    && Unmoved(y.status) == Unmoved(x.status)
    && y.attempts >= x.attempts
    && (y.status == Copying && y.attempts == x.attempts ==> x.status == Copying)
  }

  ghost predicate QuietDb(db: Db, db': Db) {
    && db'.avatars == db.avatars && db'.items.Keys == db.items.Keys
    && forall a | a in db.items :: Quiet(db.items[a], db'.items[a])
  }

  lemma QuietPcOk(s0: Sys, s: Sys, db': Db, pc: Pc)
    requires QuietDb(s.db, db') && PcOk(s0, s, pc)
    ensures PcOk(s0, s.(db := db'), pc)
  {
    var s' := s.(db := db');
    forall source, target, k | Landed(s0, s, source, target, k) ensures Landed(s0, s', source, target, k) {}
    if Copier(pc).Some? {
      var w := Copier(pc).value;
      assert Quiet(s.db.items[w.avatar], db'.items[w.avatar]);
      assert Current(db', w) ==> Current(s.db, w);
    }
  }

  lemma QuietBlobs(s0: Sys, s: Sys, db': Db)
    requires QuietDb(s.db, db') && BlobsOk(s0, s)
    ensures BlobsOk(s0, s.(db := db'))
  {
    forall p, k ensures Kept(s0, s.(db := db'), p, k) { assert Kept(s0, s, p, k); }
  }

  lemma QuietMoved(s0: Sys, s: Sys, db': Db)
    requires s.db.items.Keys <= s.db.avatars.Keys && QuietDb(s.db, db') && MovedOk(s0, s)
    ensures db'.items.Keys <= db'.avatars.Keys && MovedOk(s0, s.(db := db'))
  {
    forall a, i | a in db'.items && !Unmoved(db'.items[a].status) && 0 <= i < |db'.avatars[a].variants|
      ensures Landed(s0, s.(db := db'), db'.items[a].source, db'.items[a].target, Key(a, db'.avatars[a].variants[i].size))
    {
      assert Landed(s0, s, s.db.items[a].source, s.db.items[a].target, Key(a, s.db.avatars[a].variants[i].size));
    }
  }

  lemma QuietStep(s0: Sys, s: Sys, db': Db)
    requires Inv(s0, s) && QuietDb(s.db, db')
    ensures Inv(s0, s.(db := db'))
  {
    var s' := s.(db := db');
    QuietBlobs(s0, s, db');
    QuietMoved(s0, s, db');
    hide BlobsOk, MovedOk, Current;
    forall u | u in s'.threads ensures PcOk(s0, s', s'.threads[u]) {
      QuietPcOk(s0, s, db', s.threads[u]);
    }
  }

  lemma ClaimQuiet(db: Db, a: AvatarId, worker: Worker, now: int)
    requires Claim(db, a, worker, now).Some?
    ensures var (db', w) := Claim(db, a, worker, now).value;
      && QuietDb(db, db')
      && w.avatar == a && a in db'.avatars && w.variants == db'.avatars[a].variants && a in db'.items
      && w.source == db'.items[a].source && w.target == db'.items[a].target
      && (if w.status == Switched then db'.items[a].status == Switched
          else w.attempt == db'.items[a].attempts == db.items[a].attempts + 1)
  {}

  /** A fresh attempt number clashes with no claim made before. */
  lemma FreshAttempt(s0: Sys, s: Sys, w: Work, pc: Pc)
    requires PcOk(s0, s, pc) && w.avatar in s.db.items && s.db.items[w.avatar].attempts < w.attempt
    ensures !Clash(Claimed(w), pc)
  {}

  lemma NewClaimKeeps(s0: Sys, s: Sys, t: Thread, db': Db, w: Work)
    requires Inv(s0, s) && Inv(s0, s.(db := db')) && db'.items.Keys == s.db.items.Keys
    requires WorkOk(s.(db := db'), w) && w.avatar in db'.items
    requires if w.status == Switched then db'.items[w.avatar].status == Switched
             else w.attempt == db'.items[w.avatar].attempts == s.db.items[w.avatar].attempts + 1
    ensures Inv(s0, SetPc(s.(db := db'), t, Claimed(w)))
  {
    hide Inv;
    forall u | u in s.threads && u != t ensures !Clash(Claimed(w), s.threads[u]) {
      ThreadFact(s0, s, u);
      if w.status != Switched { FreshAttempt(s0, s, w, s.threads[u]); }
    }
    MovePc(s0, s.(db := db'), t, Claimed(w));
  }

  lemma ClaimKeeps(s0: Sys, s: Sys, t: Thread, worker: Worker, a: AvatarId, now: int, fate: Fate)
    requires Inv(s0, s)
    ensures Inv(s0, StepClaim(s, t, worker, a, now, fate))
  {
    hide Inv, PcOk, Claim;
    var c := Claim(s.db, a, worker, now);
    if c.Some? && fate != Aborted && PcOf(s, t) == Idle {
      var (db', w) := c.value;
      ClaimQuiet(s.db, a, worker, now);
      QuietStep(s0, s, db');
      if fate == Committed { NewClaimKeeps(s0, s, t, db', w); }
    }
  }

  lemma ResolveKeeps(s0: Sys, s: Sys, t: Thread, ok: bool)
    requires Inv(s0, s)
    ensures Inv(s0, StepResolve(s, t, ok))
  {
    hide Inv;
    ThreadFact(s0, s, t);
    var pc := PcOf(s, t);
    if pc.Claimed? {
      KeepClaim(s0, s, t, PcOf(StepResolve(s, t, ok), t));
    }
  }

  /** What a worker reads at the source is what was there at the start. */
  lemma KeptFact(s0: Sys, s: Sys, p: Place, k: Key, w: Work)
    requires Inv(s0, s) && CopierOk(s, w) && k.avatar == w.avatar && w.variants != [] && p == s.places[w.source]
    ensures At(s, p, k) == None || At(s, p, k) == At(s0, p, k)
  {
    assert Kept(s0, s, p, k);
  }

  lemma ReadKeeps(s0: Sys, s: Sys, t: Thread, ok: bool)
    requires Inv(s0, s)
    ensures Inv(s0, StepRead(s, t, ok))
  {
    hide Inv;
    ThreadFact(s0, s, t);
    var pc := PcOf(s, t);
    if pc.Reading? && pc.i < |pc.w.variants| && pc.w.source in s.places {
      KeptFact(s0, s, s.places[pc.w.source], KeyOf(pc.w, pc.i), pc.w);
      KeepClaim(s0, s, t, PcOf(StepRead(s, t, ok), t));
    }
  }

  lemma CheckKeeps(s0: Sys, s: Sys, t: Thread, ok: bool)
    requires Inv(s0, s)
    ensures Inv(s0, StepCheck(s, t, ok))
  {
    hide Inv;
    ThreadFact(s0, s, t);
    var pc := PcOf(s, t);
    if pc.Checking? && pc.i < |pc.w.variants| && pc.w.target in s.places {
      KeepClaim(s0, s, t, PcOf(StepCheck(s, t, ok), t));
    }
  }

  /** A blob change at one place and key that spoils no landed copy outside `spoiled`. */
  lemma BlobPcOk(s0: Sys, s: Sys, s': Sys, pc: Pc)
    requires s'.db == s.db && s'.places == s.places && PcOk(s0, s, pc)
    requires Copier(pc).Some? && Current(s.db, Copier(pc).value) ==>
               forall k: Key | k.avatar == Copier(pc).value.avatar && Landed(s0, s, Copier(pc).value.source, Copier(pc).value.target, k) ::
                 Landed(s0, s', Copier(pc).value.source, Copier(pc).value.target, k)
    ensures PcOk(s0, s', pc)
  {}

  /** A write of `put` at the target of `w`: the original bytes, or anything at all while `w` is
      current and its holder claims nothing about this key. */
  ghost predicate SafePut(s0: Sys, s: Sys, w: Work, i: nat, put: Bytes) {
    && i < |w.variants| && CopierOk(s, w)
    && At(s0, s.places[w.source], KeyOf(w, i)).Some?
    && (|| At(s0, s.places[w.source], KeyOf(w, i)).value == put
        || (Current(s.db, w) && forall u | u in s.threads && Copier(s.threads[u]).Some? ::
              Copier(s.threads[u]).value.avatar == w.avatar ==> !Current(s.db, Copier(s.threads[u]).value)))
  }

  function PutBlob(s: Sys, w: Work, i: nat, put: Bytes): Sys
    requires i < |w.variants| && w.target in s.places
  {
    s.(blobs := s.blobs[(s.places[w.target], KeyOf(w, i)) := put])
  }

  lemma PutLanded(s0: Sys, s: Sys, w: Work, i: nat, put: Bytes, source: StoreRef, target: StoreRef, k: Key)
    requires i < |w.variants| && w.target in s.places && Landed(s0, s, source, target, k)
    requires k == KeyOf(w, i) && source == w.source && target == w.target ==>
               At(s0, s.places[w.source], k) == Some(put)
    requires k.avatar == w.avatar ==> source == w.source && target == w.target
    ensures Landed(s0, PutBlob(s, w, i, put), source, target, k)
  {}

  lemma PutKept(s0: Sys, s: Sys, w: Work, i: nat, put: Bytes)
    requires BlobsOk(s0, s) && CopierOk(s, w) && i < |w.variants|
    ensures BlobsOk(s0, PutBlob(s, w, i, put))
  {
    forall q, k ensures Kept(s0, PutBlob(s, w, i, put), q, k) { assert Kept(s0, s, q, k); }
  }

  lemma PutMoved(s0: Sys, s: Sys, w: Work, i: nat, put: Bytes)
    requires s.db.items.Keys <= s.db.avatars.Keys && MovedOk(s0, s) && SafePut(s0, s, w, i, put)
    ensures MovedOk(s0, PutBlob(s, w, i, put))
  {
    var s' := PutBlob(s, w, i, put);
    forall a, j | a in s'.db.items && !Unmoved(s'.db.items[a].status) && 0 <= j < |s'.db.avatars[a].variants|
      ensures Landed(s0, s', s'.db.items[a].source, s'.db.items[a].target, Key(a, s'.db.avatars[a].variants[j].size))
    {
      PutLanded(s0, s, w, i, put, s.db.items[a].source, s.db.items[a].target, Key(a, s.db.avatars[a].variants[j].size));
    }
  }

  lemma PutPcOk(s0: Sys, s: Sys, w: Work, i: nat, put: Bytes, u: Thread)
    requires SafePut(s0, s, w, i, put) && u in s.threads && PcOk(s0, s, s.threads[u])
    ensures PcOk(s0, PutBlob(s, w, i, put), s.threads[u])
  {
    var pc := s.threads[u];
    if Copier(pc).Some? && Current(s.db, Copier(pc).value) {
      var v := Copier(pc).value;
      forall k: Key | k.avatar == v.avatar && Landed(s0, s, v.source, v.target, k)
        ensures Landed(s0, PutBlob(s, w, i, put), v.source, v.target, k)
      {
        PutLanded(s0, s, w, i, put, v.source, v.target, k);
      }
    }
    BlobPcOk(s0, s, PutBlob(s, w, i, put), pc);
  }

  lemma PutKeeps(s0: Sys, s: Sys, w: Work, i: nat, put: Bytes)
    requires Inv(s0, s) && SafePut(s0, s, w, i, put)
    ensures Inv(s0, PutBlob(s, w, i, put))
  {
    var s' := PutBlob(s, w, i, put);
    PutKept(s0, s, w, i, put);
    PutMoved(s0, s, w, i, put);
    hide Kept, Landed, Frame, RowsOk, DistinctPlaces, MovedOk, BlobsOk;
    forall u | u in s.threads ensures PcOk(s0, s', s.threads[u]) { PutPcOk(s0, s, w, i, put, u); }
  }

  /** While its holder is between two phases, nobody else is current for the same item. */
  lemma OnlyOneCurrent(s: Sys, t: Thread, u: Thread, w: Work)
    requires AttemptsUnique(s) && t in s.threads && u in s.threads && t != u
    requires Copier(s.threads[t]) == Some(w) && Current(s.db, w)
    ensures Copier(s.threads[u]).Some? && Copier(s.threads[u]).value.avatar == w.avatar ==>
              !Current(s.db, Copier(s.threads[u]).value)
  {
    assert !Clash(s.threads[t], s.threads[u]);
  }

  ghost predicate AboutToWrite(s: Sys, t: Thread) {
    PcOf(s, t).Writing? && PcOf(s, t).i < |PcOf(s, t).w.variants| && PcOf(s, t).w.target in s.places
  }

  lemma WriteSafe(s0: Sys, s: Sys, t: Thread, put: Bytes)
    requires Inv(s0, s) && AboutToWrite(s, t)
    requires put == PcOf(s, t).body || Current(s.db, PcOf(s, t).w)
    ensures SafePut(s0, SetPc(s, t, Failing(PcOf(s, t).w)), PcOf(s, t).w, PcOf(s, t).i, put)
  {
    var w := PcOf(s, t).w;
    assert PcOk(s0, s, PcOf(s, t));
    var s1 := SetPc(s, t, Failing(w));
    forall u | u in s1.threads && Current(s.db, w) && Copier(s1.threads[u]).Some?
      ensures Copier(s1.threads[u]).value.avatar == w.avatar ==> !Current(s.db, Copier(s1.threads[u]).value)
    {
      OnlyOneCurrent(s, t, u, w);
    }
  }

  lemma WriteThenFail(s0: Sys, s: Sys, t: Thread, put: Bytes)
    requires Inv(s0, s) && AboutToWrite(s, t)
    requires put == PcOf(s, t).body || Current(s.db, PcOf(s, t).w)
    ensures var pc := PcOf(s, t); Inv(s0, SetPc(PutBlob(s, pc.w, pc.i, put), t, Failing(pc.w)))
  {
    var pc := PcOf(s, t);
    var s1 := SetPc(s, t, Failing(pc.w));
    KeepClaim(s0, s, t, Failing(pc.w));
    WriteSafe(s0, s, t, put);
    PutKeeps(s0, s1, pc.w, pc.i, put);
    assert PutBlob(s1, pc.w, pc.i, put) == SetPc(PutBlob(s, pc.w, pc.i, put), t, Failing(pc.w));
  }

  lemma NoClash(s0: Sys, s: Sys, t: Thread, u: Thread)
    requires Inv(s0, s) && t in s.threads && u in s.threads && t != u
    ensures !Clash(s.threads[t], s.threads[u])
  {}

  lemma WriteThenCheck(s0: Sys, s: Sys, t: Thread, put: Bytes)
    requires Inv(s0, s) && AboutToWrite(s, t)
    requires put == PcOf(s, t).body || Current(s.db, PcOf(s, t).w)
    ensures var pc := PcOf(s, t); Inv(s0, SetPc(PutBlob(s, pc.w, pc.i, put), t, Checking(pc.w, pc.i, pc.body)))
  {
    hide Inv, PcOk;
    var pc := PcOf(s, t);
    var next := Checking(pc.w, pc.i, pc.body);
    var s2 := SetPc(PutBlob(s, pc.w, pc.i, put), t, Failing(pc.w));
    WriteThenFail(s0, s, t, put);
    ThreadFact(s0, s, t);
    WrittenOk(s0, s, s2, pc.w, pc.i, pc.body, put);
    forall u | u in s2.threads && u != t ensures !Clash(next, s2.threads[u]) { NoClash(s0, s, t, u); }
    MovePc(s0, s2, t, next);
    assert SetPc(s2, t, next) == SetPc(PutBlob(s, pc.w, pc.i, put), t, next);
  }

  lemma WrittenOk(s0: Sys, s: Sys, s2: Sys, w: Work, i: nat, body: Bytes, put: Bytes)
    requires PcOk(s0, s, Writing(w, i, body))
    requires s2.db == s.db && s2.places == s.places && s2.blobs == PutBlob(s, w, i, put).blobs
    ensures PcOk(s0, s2, Checking(w, i, body))
  {
    forall j | 0 <= j < i && KeyOf(w, j) != KeyOf(w, i) && Current(s.db, w)
      ensures Landed(s0, s2, w.source, w.target, KeyOf(w, j))
    {
      assert Landed(s0, s, w.source, w.target, KeyOf(w, j));
    }
  }

  lemma WriteKeeps(s0: Sys, s: Sys, t: Thread, stored: Bytes, fate: Fate)
    requires Inv(s0, s) && LateWriteFaithful(s, EvWrite(t, stored, fate))
    ensures Inv(s0, StepWrite(s, t, stored, fate))
  {
    hide Inv;
    var pc := PcOf(s, t);
    if pc.Writing? && pc.i < |pc.w.variants| && pc.w.target in s.places {
      if fate == Aborted {
        KeepClaim(s0, s, t, Failing(pc.w));
      } else {
        if fate == Committed { WriteThenCheck(s0, s, t, stored); } else { WriteThenFail(s0, s, t, stored); }
      }
    }
  }

  lemma DeleteKept(s0: Sys, s: Sys, w: Work, i: nat)
    requires BlobsOk(s0, s) && DeleterOk(s, w) && i < |w.variants| && w.source in s.places
    ensures BlobsOk(s0, s.(blobs := s.blobs - {(s.places[w.source], KeyOf(w, i))}))
  {
    var s' := s.(blobs := s.blobs - {(s.places[w.source], KeyOf(w, i))});
    forall q, k ensures Kept(s0, s', q, k) { assert Kept(s0, s, q, k); }
  }

  lemma DeletePcOk(s0: Sys, s: Sys, w: Work, i: nat, pc: Pc)
    requires PcOk(s0, s, pc) && DeleterOk(s, w) && i < |w.variants| && w.source in s.places
    ensures PcOk(s0, s.(blobs := s.blobs - {(s.places[w.source], KeyOf(w, i))}), pc)
  {
    BlobPcOk(s0, s, s.(blobs := s.blobs - {(s.places[w.source], KeyOf(w, i))}), pc);
  }

  lemma DeleteMoved(s0: Sys, s: Sys, w: Work, i: nat)
    requires s.db.items.Keys <= s.db.avatars.Keys && MovedOk(s0, s) && DistinctPlaces(s)
    requires DeleterOk(s, w) && i < |w.variants| && w.source in s.places
    ensures MovedOk(s0, s.(blobs := s.blobs - {(s.places[w.source], KeyOf(w, i))}))
  {
    var s' := s.(blobs := s.blobs - {(s.places[w.source], KeyOf(w, i))});
    forall a, j | a in s'.db.items && !Unmoved(s'.db.items[a].status) && 0 <= j < |s'.db.avatars[a].variants|
      ensures Landed(s0, s', s'.db.items[a].source, s'.db.items[a].target, Key(a, s'.db.avatars[a].variants[j].size))
    {
      assert Landed(s0, s, s.db.items[a].source, s.db.items[a].target, Key(a, s.db.avatars[a].variants[j].size));
      assert !SamePlace(s, a);
    }
  }

  /** Deleting a moved item's source copy spoils nothing: source and target are apart. */
  lemma DeleteBlobKeeps(s0: Sys, s: Sys, w: Work, i: nat)
    requires Inv(s0, s) && DeleterOk(s, w) && i < |w.variants| && w.source in s.places
    ensures Inv(s0, s.(blobs := s.blobs - {(s.places[w.source], KeyOf(w, i))}))
  {
    var s' := s.(blobs := s.blobs - {(s.places[w.source], KeyOf(w, i))});
    DeleteKept(s0, s, w, i);
    DeleteMoved(s0, s, w, i);
    hide Kept, Landed, Frame, RowsOk, DistinctPlaces;
    forall u | u in s.threads ensures PcOk(s0, s', s.threads[u]) { DeletePcOk(s0, s, w, i, s.threads[u]); }
  }

  lemma DeleteKeeps(s0: Sys, s: Sys, t: Thread, fate: Fate)
    requires Inv(s0, s)
    ensures Inv(s0, StepDelete(s, t, fate))
  {
    hide Inv;
    ThreadFact(s0, s, t);
    var pc := PcOf(s, t);
    if pc.Deleting? && pc.i < |pc.w.variants| && pc.w.source in s.places {
      var s' := if fate == Aborted then s else s.(blobs := s.blobs - {(s.places[pc.w.source], KeyOf(pc.w, pc.i))});
      if fate != Aborted { DeleteBlobKeeps(s0, s, pc.w, pc.i); }
      KeepClaim(s0, s', t, PcOf(StepDelete(s, t, fate), t));
    }
  }

  lemma SwitchKept(s0: Sys, s: Sys, w: Work, now: int)
    requires BlobsOk(s0, s) && MarkItemSwitched(s.db, w, now).Ok?
    ensures BlobsOk(s0, s.(db := MarkItemSwitched(s.db, w, now).value))
  {
    hide MarkItemSwitched;
    SwitchOutcome(s.db, w, now);
    var s' := s.(db := MarkItemSwitched(s.db, w, now).value);
    forall q, k ensures Kept(s0, s', q, k) { assert Kept(s0, s, q, k); }
  }

  lemma SwitchPlaces(s: Sys, w: Work, now: int)
    requires DistinctPlaces(s) && MarkItemSwitched(s.db, w, now).Ok?
    ensures DistinctPlaces(s.(db := MarkItemSwitched(s.db, w, now).value))
  {
    hide MarkItemSwitched;
    SwitchOutcome(s.db, w, now);
    var s' := s.(db := MarkItemSwitched(s.db, w, now).value);
    forall a | a in s'.db.items && a in s'.db.avatars && SamePlace(s', a) ensures s'.db.avatars[a].variants == [] {
      assert SamePlace(s, a);
    }
  }

  lemma SwitchRows(s0: Sys, s: Sys, w: Work, now: int)
    requires Frame(s0, s) && RowsOk(s) && CopierOk(s, w) && MarkItemSwitched(s.db, w, now).Ok?
    ensures var s' := s.(db := MarkItemSwitched(s.db, w, now).value); Frame(s0, s') && RowsOk(s')
  {
    SwitchFrame(s0, s, w, now);
    hide MarkItemSwitched, Frame;
    SwitchOutcome(s.db, w, now);
    var s' := s.(db := MarkItemSwitched(s.db, w, now).value);
    assert s'.db.items.Keys <= s'.db.avatars.Keys;
  }

  lemma SwitchFrame(s0: Sys, s: Sys, w: Work, now: int)
    requires Frame(s0, s) && MarkItemSwitched(s.db, w, now).Ok?
    ensures Frame(s0, s.(db := MarkItemSwitched(s.db, w, now).value)) && s.db.items.Keys <= s.db.avatars.Keys
  {
    hide MarkItemSwitched;
    SwitchOutcome(s.db, w, now);
  }

  lemma SwitchMovedOk(s0: Sys, s: Sys, w: Work, now: int)
    requires s.db.items.Keys <= s.db.avatars.Keys && MovedOk(s0, s) && MarkItemSwitched(s.db, w, now).Ok?
    requires CopierOk(s, w) && LandedFrom(s0, s, w, |w.variants|)
    ensures var s' := s.(db := MarkItemSwitched(s.db, w, now).value);
      s'.db.items.Keys <= s'.db.avatars.Keys && MovedOk(s0, s')
  {
    hide MarkItemSwitched;
    SwitchOutcome(s.db, w, now);
    var s' := s.(db := MarkItemSwitched(s.db, w, now).value);
    forall a, j | a in s'.db.items && !Unmoved(s'.db.items[a].status) && 0 <= j < |s'.db.avatars[a].variants|
      ensures Landed(s0, s', s'.db.items[a].source, s'.db.items[a].target, Key(a, s'.db.avatars[a].variants[j].size))
    {
      if a == w.avatar {
        assert Landed(s0, s, w.source, w.target, KeyOf(w, j));
      } else {
        assert Landed(s0, s, s.db.items[a].source, s.db.items[a].target, Key(a, s.db.avatars[a].variants[j].size));
      }
    }
  }

  /** The switch: a current worker that verified every variant hands the avatar over. */
  lemma SwitchRowKeeps(s0: Sys, s: Sys, w: Work, now: int)
    requires Inv(s0, s) && MarkItemSwitched(s.db, w, now).Ok?
    requires CopierOk(s, w) && LandedFrom(s0, s, w, |w.variants|)
    ensures Inv(s0, s.(db := MarkItemSwitched(s.db, w, now).value))
  {
    SwitchRows(s0, s, w, now);
    SwitchKept(s0, s, w, now);
    SwitchPlaces(s, w, now);
    SwitchMovedOk(s0, s, w, now);
    hide MarkItemSwitched, Kept, Landed, Frame, RowsOk, DistinctPlaces, MovedOk, BlobsOk;
    var s' := s.(db := MarkItemSwitched(s.db, w, now).value);
    forall u | u in s.threads ensures PcOk(s0, s', s.threads[u]) { SwitchPcOk(s0, s, w, now, s.threads[u]); }
  }

  lemma SwitchPcOk(s0: Sys, s: Sys, w: Work, now: int, pc: Pc)
    requires PcOk(s0, s, pc) && MarkItemSwitched(s.db, w, now).Ok?
    ensures PcOk(s0, s.(db := MarkItemSwitched(s.db, w, now).value), pc)
  {
    var s' := s.(db := MarkItemSwitched(s.db, w, now).value);
    forall source, target, k | Landed(s0, s, source, target, k) ensures Landed(s0, s', source, target, k) {}
    assert Copier(pc).Some? && Current(s'.db, Copier(pc).value) ==> Current(s.db, Copier(pc).value);
  }

  lemma SwitchOutcome(db: Db, w: Work, now: int)
    requires MarkItemSwitched(db, w, now).Ok?
    ensures Current(db, w)
    ensures var db' := MarkItemSwitched(db, w, now).value;
      && db'.items.Keys == db.items.Keys && db'.avatars.Keys == db.avatars.Keys && w.avatar in db.avatars
      && db'.items[w.avatar].source == db.items[w.avatar].source && db'.items[w.avatar].target == db.items[w.avatar].target
      && db'.items[w.avatar].status == Switched
      && db'.avatars[w.avatar].variants == db.avatars[w.avatar].variants && db'.avatars[w.avatar].store == w.target
      && (forall a | a in db.items && a != w.avatar :: db'.items[a] == db.items[a])
      && (forall a | a in db.avatars && a != w.avatar :: db'.avatars[a] == db.avatars[a])
  {}

  lemma SwitchKeeps(s0: Sys, s: Sys, t: Thread, now: int, fate: Fate)
    requires Inv(s0, s)
    ensures Inv(s0, StepSwitch(s, t, now, fate))
  {
    hide Inv, MarkItemSwitched;
    ThreadFact(s0, s, t);
    var pc := PcOf(s, t);
    if pc.Switching? {
      var r := MarkItemSwitched(s.db, pc.w, now);
      if r.Err? || fate == Aborted { KeepClaim(s0, s, t, Idle); }
      else {
        SwitchOutcome(s.db, pc.w, now);
        SwitchRowKeeps(s0, s, pc.w, now);
        KeepClaim(s0, s.(db := r.value), t, PcOf(StepSwitch(s, t, now, fate), t));
      }
    }
  }

  lemma CompleteKeeps(s0: Sys, s: Sys, t: Thread, now: int, fate: Fate)
    requires Inv(s0, s)
    ensures Inv(s0, StepComplete(s, t, now, fate))
  {
    hide Inv, PcOk;
    var pc := PcOf(s, t);
    if pc.Completing? {
      var r := CompleteItem(s.db, pc.w, now);
      if r.Ok? && fate != Aborted { QuietStep(s0, s, r.value); }
      LetGo(s0, if r.Ok? then Apply(s, r.value, fate) else s, t);
    }
  }

  lemma FailKeeps(s0: Sys, s: Sys, t: Thread, now: int, fate: Fate)
    requires Inv(s0, s)
    ensures Inv(s0, StepFail(s, t, now, fate))
  {
    hide Inv, PcOk;
    var pc := PcOf(s, t);
    if pc.Failing? {
      if fate != Aborted { QuietStep(s0, s, FailItem(s.db, pc.w, now)); }
      LetGo(s0, Apply(s, FailItem(s.db, pc.w, now), fate), t);
    }
  }

  lemma FinalizeQuiet(db: Db, now: int)
    requires FinalizeMigration(db, now).Ok?
    ensures QuietDb(db, FinalizeMigration(db, now).value.0)
  {}

  lemma RetryQuiet(db: Db, instance: nat, control: Control, expected: nat, now: int)
    requires RetryMigration(db, instance, control, expected, now).Ok?
    ensures QuietDb(db, RetryMigration(db, instance, control, expected, now).value)
  {}

  lemma OtherStepKeeps(s0: Sys, s: Sys, e: Event)
    requires Inv(s0, s) && (e.EvFinalize? || e.EvRetry? || e.EvHeartbeat?)
    ensures Inv(s0, Step(s, e))
  {
    hide Inv, FinalizeMigration, RetryMigration;
    match e
    case EvFinalize(now, fate) =>
      if FinalizeMigration(s.db, now).Ok? {
        FinalizeQuiet(s.db, now);
        QuietStep(s0, s, FinalizeMigration(s.db, now).value.0);
      }
    case EvRetry(instance, control, expected, now) =>
      if RetryMigration(s.db, instance, control, expected, now).Ok? {
        RetryQuiet(s.db, instance, control, expected, now);
        QuietStep(s0, s, RetryMigration(s.db, instance, control, expected, now).value);
      }
    case EvHeartbeat(instance, beat) =>
      QuietStep(s0, s, s.db.(instances := s.db.instances[instance := beat]));
  }

  lemma StepKeeps(s0: Sys, s: Sys, e: Event)
    requires Inv(s0, s) && !e.EvMoveAvatar? && LateWriteFaithful(s, e)
    ensures Inv(s0, Step(s, e))
  {
    hide Inv, PcOk;
    match e
    case EvClaim(t, worker, a, now, fate) => ClaimKeeps(s0, s, t, worker, a, now, fate);
    case EvResolve(t, ok) => ResolveKeeps(s0, s, t, ok);
    case EvRead(t, ok) => ReadKeeps(s0, s, t, ok);
    case EvWrite(t, stored, fate) => WriteKeeps(s0, s, t, stored, fate);
    case EvCheck(t, ok) => CheckKeeps(s0, s, t, ok);
    case EvSwitch(t, now, fate) => SwitchKeeps(s0, s, t, now, fate);
    case EvDelete(t, fate) => DeleteKeeps(s0, s, t, fate);
    case EvComplete(t, now, fate) => CompleteKeeps(s0, s, t, now, fate);
    case EvFail(t, now, fate) => FailKeeps(s0, s, t, now, fate);
    case EvCrash(t) => LetGo(s0, s, t);
    case _ => OtherStepKeeps(s0, s, e);
  }

  lemma StartedInv(s0: Sys)
    requires Started(s0) && DistinctPlaces(s0)
    ensures Inv(s0, s0)
  {}

  lemma {:induction false} FaithfulFront(s0: Sys, es: seq<Event>)
    requires es != [] && LateWritesFaithful(s0, es)
    ensures LateWritesFaithful(s0, es[..|es| - 1]) && LateWriteFaithful(Run(s0, es[..|es| - 1]), es[|es| - 1])
  {
    hide LateWriteFaithful, Run;
    var front := es[..|es| - 1];
    forall i | 0 <= i < |front| ensures LateWriteFaithful(Run(s0, front[..i]), front[i]) {
      assert front[..i] == es[..i];
    }
  }

  lemma {:induction false} RunKeeps(s0: Sys, es: seq<Event>)
    requires Started(s0) && DistinctPlaces(s0) && MediaPaused(es) && LateWritesFaithful(s0, es)
    ensures Inv(s0, Run(s0, es))
  {
    hide Inv, Step, LateWriteFaithful;
    if es == [] {
      StartedInv(s0);
    } else {
      var front := es[..|es| - 1];
      FaithfulFront(s0, es);
      RunKeeps(s0, front);
      StepKeeps(s0, Run(s0, front), es[|es| - 1]);
    }
  }

  // ---------------------------------------------------------------- main result

  /** Under any interleaving of workers, crashes, lease takeovers, uncertain commits, retries and
      writes that the target stores wrongly, a variant readable at the start stays readable with the
      same bytes, as long as no superseded worker's write is stored wrongly. */
  lemma {:induction false} NoBlobLost(s0: Sys, es: seq<Event>, a: AvatarId, i: nat)
    requires Started(s0) && DistinctPlaces(s0) && MediaPaused(es) && LateWritesFaithful(s0, es)
    requires a in s0.db.avatars && i < |s0.db.avatars[a].variants|
    requires Readable(s0, a, s0.db.avatars[a].variants[i].size).Some?
    ensures Readable(Run(s0, es), a, s0.db.avatars[a].variants[i].size) == Readable(s0, a, s0.db.avatars[a].variants[i].size)
  {
    StartedInv(s0);
    RunKeeps(s0, es);
    var s := Run(s0, es);
    var k := Key(a, s0.db.avatars[a].variants[i].size);
    hide Run, LateWritesFaithful, Started, ThreadsOk, AttemptsUnique;
    assert Kept(s0, s, s0.places[s0.db.avatars[a].store], k);
    if a in s.db.items && !Unmoved(s.db.items[a].status) {
      assert Landed(s0, s, s.db.items[a].source, s.db.items[a].target, Key(a, s.db.avatars[a].variants[i].size));
    }
  }

  // ---------------------------------------------------------------- the hypotheses are exact

  /** The variant is as readable after the run as before it. */
  predicate Preserves(s0: Sys, es: seq<Event>, a: AvatarId, i: nat) {
    a in s0.db.avatars && i < |s0.db.avatars[a].variants| && Readable(s0, a, s0.db.avatars[a].variants[i].size).Some? ==>
      Readable(Run(s0, es), a, s0.db.avatars[a].variants[i].size) == Readable(s0, a, s0.db.avatars[a].variants[i].size)
  }

  ghost predicate PreservesIfOrderly(s0: Sys, es: seq<Event>, a: AvatarId, i: nat) {
    Orderly(s0, es) ==> Preserves(s0, es, a, i)
  }

  /** A pending item whose first blobs are at its source. */
  predicate ReadyItem(s: Sys, a: AvatarId, first: nat) {
    && ReadyFor(s, 0, a, 0) && s.db.items[a].status == Pending
    && s.db.avatars[a].store == s.db.items[a].source && !s.db.avatars[a].deleted
    && 0 < first <= |s.db.avatars[a].variants| && SourceThere(s, a, s.db.items[a].source, s.db.avatars[a].variants[..first])
  }

  /** A pending item with something to copy, whose blobs are all at its source. */
  predicate AllReady(s: Sys, a: AvatarId) {
    a in s.db.avatars && ReadyItem(s, a, |s.db.avatars[a].variants|)
  }

  lemma StartedItem(s0: Sys, a: AvatarId)
    requires Started(s0) && a in s0.db.items
    ensures Claiming(s0.db.mig) && a in s0.db.avatars && s0.db.items[a].status == Pending
    ensures s0.db.avatars[a].store == s0.db.items[a].source && !s0.db.avatars[a].deleted
    ensures s0.threads == map[]
  {}

  /** Claim, resolve and read the first variant. */
  lemma OpeningReach(s: Sys, a: AvatarId) returns (t: Sys, w: Work, body: Bytes)
    requires ReadyItem(s, a, 1)
    ensures Reach(s, t) && t.blobs == s.blobs && t.places == s.places && forall u | u != 0 :: PcOf(t, u) == PcOf(s, u)
    ensures ClaimedBy(s.db, t.db, a, 0, 0) && WorkFor(t.db, w, a, 0)
    ensures w.variants != [] && PcOf(t, 0) == Writing(w, 0, body) && Readable(s, a, w.variants[0].size) == Some(body)
  {
    var u;
    u, w := ClaimAndResolve(s, 0, 0, a, 0);
    assert s.db.avatars[a].variants[..1][0] == w.variants[0];
    body := At(s, s.places[w.source], KeyOf(w, 0)).value;
    t := Step(u, EvRead(0, true));
    assert At(u, u.places[w.source], KeyOf(w, 0)) == Some(body);
    assert t == SetPc(u, 0, Writing(w, 0, body));
    ReachStep(s, u, EvRead(0, true));
  }

  /** Migrating an avatar onto its own place: the first write already goes over the original, and
      the writer is the item's current claimant. */
  lemma OverwriteRun(s: Sys, a: AvatarId, stored: Bytes) returns (es: seq<Event>)
    requires ReadyItem(s, a, 1) && SamePlace(s, a)
    ensures Orderly(s, es) && Readable(Run(s, es), a, s.db.avatars[a].variants[0].size) == Some(stored)
  {
    var u, w, body := OpeningReach(s, a);
    hide Claim, Reach, Orderly;
    ReachStep(s, u, EvWrite(0, stored, Committed));
    es := ReachedBy(s, Step(u, EvWrite(0, stored, Committed)));
    hide Run;
  }

  lemma ReachedBy(s: Sys, s': Sys) returns (es: seq<Event>)
    requires Reach(s, s')
    ensures Orderly(s, es) && Run(s, es) == s'
  {
    es :| Orderly(s, es) && Run(s, es) == s';
  }

  /** Every orderly run over every blob content is loss-free exactly when no item with variants is
      migrated onto its own physical place. */
  lemma NoLossExactly(s0: Sys)
    requires Started(s0)
    ensures (forall blobs, es, a, i: nat :: PreservesIfOrderly(s0.(blobs := blobs), es, a, i)) <==> DistinctPlaces(s0)
  {
    if DistinctPlaces(s0) {
      forall blobs, es, a, i: nat ensures PreservesIfOrderly(s0.(blobs := blobs), es, a, i) {
        NoLossAnywhere(s0, blobs, es, a, i);
      }
    } else {
      var a :| a in s0.db.items && a in s0.db.avatars && SamePlace(s0, a) && s0.db.avatars[a].variants != [];
      StartedItem(s0, a);
      SamePlaceLoses(s0, a);
    }
  }

  lemma NoLossAnywhere(s0: Sys, blobs: map<(Place, Key), Bytes>, es: seq<Event>, a: AvatarId, i: nat)
    requires Started(s0) && DistinctPlaces(s0)
    ensures PreservesIfOrderly(s0.(blobs := blobs), es, a, i)
  {
    var s1 := s0.(blobs := blobs);
    assert DistinctPlaces(s1);
    if Orderly(s1, es) && a in s1.db.avatars && i < |s1.db.avatars[a].variants|
       && Readable(s1, a, s1.db.avatars[a].variants[i].size).Some? {
      NoBlobLost(s1, es, a, i);
    }
  }

  /** Blob contents in which every variant is at the place with its recorded size. */
  lemma Stocked(s0: Sys, a: AvatarId) returns (s: Sys)
    requires a in s0.db.items && a in s0.db.avatars && BothResolve(s0, a) && SizesDiffer(s0.db.avatars[a].variants)
    ensures s == s0.(blobs := s.blobs) && SourceThere(s, a, s0.db.items[a].source, s0.db.avatars[a].variants)
  {
    var p, vs := s0.places[s0.db.items[a].source], s0.db.avatars[a].variants;
    var blobs := Filled(p, a, vs);
    s := s0.(blobs := blobs);
    forall j | 0 <= j < |vs| ensures At(s, p, Key(a, vs[j].size)).Some? && |At(s, p, Key(a, vs[j].size)).value| == vs[j].bytes {
      FilledAt(p, a, vs, j);
    }
  }

  function Filled(p: Place, a: AvatarId, vs: seq<Variant>): map<(Place, Key), Bytes> {
    if vs == [] then map[] else Filled(p, a, vs[..|vs| - 1])[(p, Key(a, vs[|vs| - 1].size)) := seq(vs[|vs| - 1].bytes, _ => 0)]
  }

  lemma {:induction false} FilledAt(p: Place, a: AvatarId, vs: seq<Variant>, j: nat)
    requires j < |vs| && SizesDiffer(vs)
    ensures (p, Key(a, vs[j].size)) in Filled(p, a, vs) && |Filled(p, a, vs)[(p, Key(a, vs[j].size))]| == vs[j].bytes
  {
    if j < |vs| - 1 { FilledAt(p, a, vs[..|vs| - 1], j); }
  }

  lemma SamePlaceLoses(s0: Sys, a: AvatarId)
    requires a in s0.db.items && a in s0.db.avatars && SamePlace(s0, a) && s0.db.avatars[a].variants != []
    requires Claiming(s0.db.mig) && s0.db.items[a].status == Pending && PcOf(s0, 0) == Idle
    requires s0.db.avatars[a].store == s0.db.items[a].source && !s0.db.avatars[a].deleted
    ensures exists blobs, es :: !PreservesIfOrderly(s0.(blobs := blobs), es, a, 0)
  {
    var v := s0.db.avatars[a].variants[0];
    var body: Bytes := seq(v.bytes, _ => 0);
    var s := s0.(blobs := map[(s0.places[s0.db.items[a].source], Key(a, v.size)) := body]);
    var es := OverwriteRun(s, a, body + [1]);
    hide Orderly, Run;
    assert !PreservesIfOrderly(s0.(blobs := s.blobs), es, a, 0);
  }

  // ---------------------------------------------------------------- a write stored wrongly, too late

  lemma AllThere(s: Sys, a: AvatarId)
    requires AllReady(s, a)
    ensures ReadyItem(s, a, 1) && SourceThere(s, a, s.db.items[a].source, s.db.avatars[a].variants)
  {
    var vs := s.db.avatars[a].variants;
    assert vs[..|vs|] == vs && vs[..1] == [vs[0]];
  }

  /** Worker 0 reads and stalls; worker 1 takes the item over after the lease, copies, verifies
      and switches. */
  lemma Overtaken(s: Sys, a: AvatarId) returns (t: Sys, w: Work, body: Bytes)
    requires AllReady(s, a) && PcOf(s, 1) == Idle
    ensures Reach(s, t) && t.places == s.places && PcOf(t, 0) == Writing(w, 0, body)
    ensures w.avatar == a && w.target in t.places && w.variants == s.db.avatars[a].variants && w.variants != []
    ensures a in t.db.avatars && t.db.avatars[a].store == w.target && Readable(s, a, w.variants[0].size) == Some(body)
  {
    hide Step, Run, Reach, MarkItemSwitched, Claim;
    AllThere(s, a);
    var u, c, x;
    u, w, body := OpeningReach(s, a);
    assert ReadyFor(u, 1, a, CLAIM_LEASE);
    c, x := ClaimAndResolve(u, 1, 1, a, CLAIM_LEASE);
    ReachMore(s, u, c);
    var d := CopyLoop(c, 1, x, 0);
    ReachMore(s, c, d);
    t := SwitchOver(d, 1, x, CLAIM_LEASE);
    ReachMore(s, d, t);
  }

  /** A worker that still holds its claim after the copy switches the avatar over. */
  lemma SwitchOver(s: Sys, t: Thread, w: Work, now: int) returns (s': Sys)
    requires PcOf(s, t) == Switching(w) && HoldsClaim(s.db, w)
    requires w.avatar in s.db.avatars && s.db.avatars[w.avatar].store == w.source && !s.db.avatars[w.avatar].deleted
    ensures Reach(s, s') && MarkItemSwitched(s.db, w, now).Ok? && s'.db == MarkItemSwitched(s.db, w, now).value
    ensures s'.blobs == s.blobs && s'.places == s.places && forall u | u != t :: PcOf(s', u) == PcOf(s, u)
    ensures PcOf(s', t) == NextDelete(w.(status := Switched), 0)
    ensures w.avatar in s'.db.avatars && s'.db.avatars[w.avatar].store == w.target
  {
    s' := Step(s, EvSwitch(t, now, Committed));
    ReachSelf(s);
    ReachStep(s, s, EvSwitch(t, now, Committed));
  }

  /** Without that hypothesis a blob is lost even between distinct places, in a run whose every
      other step is orderly: the late write goes over the copy that the avatar now relies on. */
  lemma LateCorruptionLoses(s: Sys, a: AvatarId, stored: Bytes) returns (es: seq<Event>)
    requires AllReady(s, a) && PcOf(s, 1) == Idle
    ensures MediaPaused(es) && es != [] && Orderly(s, es[..|es| - 1])
    ensures Readable(s, a, s.db.avatars[a].variants[0].size).Some?
    ensures Readable(Run(s, es), a, s.db.avatars[a].variants[0].size) == Some(stored)
  {
    var t, w, body := Overtaken(s, a);
    hide Reach, Readable;
    var front := ReachedBy(s, t);
    es := front + [EvWrite(0, stored, Committed)];
    hide Run, Step, LateWritesFaithful;
    RunOne(s, front, EvWrite(0, stored, Committed));
    assert es[..|es| - 1] == front;
    LateWrite(t, w, body, stored);
  }

  lemma LateWrite(s: Sys, w: Work, body: Bytes, stored: Bytes)
    requires PcOf(s, 0) == Writing(w, 0, body) && w.variants != [] && w.target in s.places
    requires w.avatar in s.db.avatars && s.db.avatars[w.avatar].store == w.target
    ensures Readable(Step(s, EvWrite(0, stored, Committed)), w.avatar, w.variants[0].size) == Some(stored)
  {}

  /** So in any started migration with an avatar that has anything to copy, some paused run over
      some blob content is not loss-free, wherever the places are. */
  lemma LateHypothesisNeeded(s0: Sys, a: AvatarId)
    requires Started(s0) && a in s0.db.items && BothResolve(s0, a)
    requires a in s0.db.avatars && s0.db.avatars[a].variants != [] && SizesDiffer(s0.db.avatars[a].variants)
    ensures exists blobs, es :: MediaPaused(es) && !Preserves(s0.(blobs := blobs), es, a, 0)
  {
    StartedItem(s0, a);
    var s := Stocked(s0, a);
    assert s.db.avatars[a].variants[..|s.db.avatars[a].variants|] == s.db.avatars[a].variants;
    hide Started, Run, Orderly, MediaPaused;
    var body := Readable(s, a, s.db.avatars[a].variants[0].size).value;
    var es := LateCorruptionLoses(s, a, body + [1]);
    assert MediaPaused(es) && !Preserves(s0.(blobs := s.blobs), es, a, 0);
  }

  // ---------------------------------------------------------------- onto the same place

  /** Even when every write is stored faithfully, migrating an avatar onto its own place ends with
      every variant deleted. */
  lemma SelfMigrationDeletes(s: Sys, a: AvatarId) returns (es: seq<Event>)
    requires AllReady(s, a) && SamePlace(s, a)
    ensures Orderly(s, es)
    ensures forall i | 0 <= i < |s.db.avatars[a].variants| :: Readable(Run(s, es), a, s.db.avatars[a].variants[i].size) == None
  {
    AllThere(s, a);
    var u, w := ClaimAndResolve(s, 0, 0, a, 0);
    var c := CopyLoop(u, 0, w, 0);
    var d := SwitchOver(c, 0, w, 0);
    var e := DeleteLoop(d, 0, w.(status := Switched), 0);
    hide Reach, MarkItemSwitched, Claim, Orderly;
    ReachMore(s, u, c);
    ReachMore(s, c, d);
    ReachMore(s, d, e);
    es := ReachedBy(s, e);
    hide Run;
    forall i | 0 <= i < |w.variants| ensures Readable(e, a, w.variants[i].size) == None {
      assert At(e, e.places[w.source], KeyOf(w.(status := Switched), i)) == None;
    }
  }
}

/** The imperative form of the media runtime: the rows that the store's transactions update in
    place, proved against the transactions of MediaModel, and the copy and delete loops of a worker. */
module MediaStore {
  import opened Base
  import opened MediaModel

  /** ORDER BY of the claim query: switched before pending before failed before expired copies. */
  function Rank(st: ItemStatus): nat {
    match st
    case Switched => 0
    case Pending => 1
    case Failed => 2
    case _ => 3
  }

  predicate Precedes(items: map<AvatarId, Item>, a: AvatarId, b: AvatarId)
    requires a in items && b in items
  {
    var x, y := items[a], items[b];
    || Rank(x.status) < Rank(y.status)
    || (Rank(x.status) == Rank(y.status) && (x.updatedAt < y.updatedAt || (x.updatedAt == y.updatedAt && a <= b)))
  }

  class Store {
    var mig: Migration
    var items: map<AvatarId, Item>
    var avatars: map<AvatarId, Avatar>
    var state: StateRow
    var instances: map<nat, Instance>

    ghost function View(): Db
      reads this
    {
      Db(mig, items, avatars, state, instances)
    }

    /** The items' foreign key to user_avatars. */
    ghost predicate Valid()
      reads this
    {
      items.Keys <= avatars.Keys
    }

    constructor (db: Db)
      requires db.items.Keys <= db.avatars.Keys
      ensures Valid() && View() == db
    {
      mig, items, avatars, state, instances := db.mig, db.items, db.avatars, db.state, db.instances;
    }

    /** `busy` are the rows another transaction holds locked: the query skips them. The claim
        takes the first eligible row of the query's order, and none only if there is none. */
    method ClaimMigrationItem(worker: Worker, now: int, busy: set<AvatarId>) returns (r: Option<Work>)
      requires Valid()
      modifies this
      ensures Valid()
      ensures r.None? ==> View() == old(View())
      ensures r.None? && Claiming(mig) ==> forall a | a in items && a !in busy :: !Claimable(items[a], now)
      ensures r.Some? ==>
                && r.value.avatar !in busy
                && Claim(old(View()), r.value.avatar, worker, now) == Some((View(), r.value))
                && forall b | b in old(items) && b !in busy && Claimable(old(items)[b], now) ::
                     r.value.avatar in old(items) && Precedes(old(items), r.value.avatar, b)
    {
      if !Claiming(mig) { return None; }
      var rest := items.Keys - busy;
      var best: Option<AvatarId> := None;
      while rest != {}
        invariant rest <= items.Keys - busy
        invariant View() == old(View())
        invariant best.None? ==> forall a | a in items && a !in busy && a !in rest :: !Claimable(items[a], now)
        invariant best.Some? ==> best.value in items && best.value !in busy && Claimable(items[best.value], now)
        invariant best.Some? ==> forall b | b in items && b !in busy && b !in rest && Claimable(items[b], now) ::
                                   Precedes(items, best.value, b)
        decreases |rest|
      {
        var a :| a in rest;
        if Claimable(items[a], now) && (best.None? || Precedes(items, a, best.value)) {
          best := Some(a);
        }
        rest := rest - {a};
      }
      if best.None? { return None; }
      var a := best.value;
      var item := items[a];
      if item.status == Switched {
        item := item.(lock := None, updatedAt := now);
      } else {
        item := item.(status := Copying, lock := Some(Lock(worker, now)), attempts := item.attempts + 1, updatedAt := now);
      }
      items := items[a := item];
      mig := mig.(status := MRunning);
      r := Some(Work(a, worker, item.attempts, item.source, item.target, item.status, avatars[a].variants));
    }

    method MarkSwitched(w: Work, now: int) returns (r: Result<(), Error>)
      requires Valid()
      modifies this
      ensures Valid()
      ensures match MarkItemSwitched(old(View()), w, now)
              case Ok(db) => r == Ok(()) && View() == db
              case Err(e) => r == Err(e) && View() == old(View())
    {
      if w.avatar !in avatars || avatars[w.avatar].store.profile != w.source.profile || avatars[w.avatar].deleted {
        return Err(OwnershipChanged);
      }
      if w.avatar !in items || items[w.avatar].status != Copying || items[w.avatar].attempts != w.attempt
         || items[w.avatar].lock.None? || items[w.avatar].lock.value.owner != w.worker {
        return Err(ClaimLost);
      }
      avatars := avatars[w.avatar := avatars[w.avatar].(store := w.target)];
      items := items[w.avatar := items[w.avatar].(status := Switched, lock := None, updatedAt := now)];
      mig := mig.(copied := CountIn(items, {Switched, Completed}), failed := CountIn(items, {Failed}));
      r := Ok(());
    }

    method Complete(w: Work, now: int) returns (r: Result<(), Error>)
      requires Valid()
      modifies this`items, this`mig
      ensures Valid()
      ensures match CompleteItem(old(View()), w, now)
              case Ok(db) => r == Ok(()) && View() == db
              case Err(e) => r == Err(e) && View() == old(View())
    {
      if w.avatar !in items || items[w.avatar].status != Switched { return Err(NotSwitched); }
      items := items[w.avatar := items[w.avatar].(status := Completed, updatedAt := now)];
      mig := mig.(completed := CountIn(items, {Completed}));
      r := Ok(());
    }

    method Fail(w: Work, now: int)
      requires Valid()
      modifies this`items, this`mig
      ensures Valid() && View() == FailItem(old(View()), w, now)
    {
      if w.avatar in items && items[w.avatar].status == Copying && items[w.avatar].attempts == w.attempt
         && items[w.avatar].lock.Some? && items[w.avatar].lock.value.owner == w.worker {
        items := items[w.avatar := items[w.avatar].(status := Failed, lock := None, updatedAt := now)];
      }
      mig := mig.(status := MFailed, failed := CountIn(items, {Failed}));
    }

    method Finalize(now: int) returns (r: Result<bool, Error>)
      requires Valid()
      modifies this`mig, this`state
      ensures Valid()
      ensures match FinalizeMigration(old(View()), now)
              case Ok((db, finished)) => r == Ok(finished) && View() == db
              case Err(e) => r == Err(e) && View() == old(View())
    {
      if mig.status == MApplying {
        if state.active != mig.target.profile { return Err(CandidateChanged); }
        var unprepared := set i | i in instances && LiveInstance(instances[i], now) && instances[i].loaded < state.revision;
        if unprepared != {} {
          assert exists i :: i in unprepared;
          return Ok(false);
        }
        assert forall i | i in instances :: i !in unprepared;
        mig := mig.(status := MCompleted, completed := mig.total);
        return Ok(true);
      }
      if !Claiming(mig) { return Ok(false); }
      if exists a | a in items :: items[a].status != Completed { return Ok(false); }
      if state.active != mig.source { return Err(CandidateChanged); }
      if mig.target.backend == S3 {
        if mig.target.profile.None? || state.candidate != mig.target.profile { return Err(CandidateChanged); }
      } else if mig.target.profile.Some? {
        return Err(InvalidConfig);
      }
      state := StateRow(state.revision + 1, mig.target.profile, None, mig.source);
      mig := mig.(status := MApplying, completed := mig.total);
      r := Ok(false);
    }

    method Retry(instance: nat, control: Control, expected: nat, now: int) returns (r: Result<(), Error>)
      requires Valid()
      modifies this`items, this`mig
      ensures Valid()
      ensures match RetryMigration(old(View()), instance, control, expected, now)
              case Ok(db) => r == Ok(()) && View() == db
              case Err(e) => r == Err(e) && View() == old(View())
    {
      if mig.status != MFailed { return Err(MigrationNotFound); }
      if mig.target.backend == S3 {
        if mig.target.profile.None? || state.candidate != mig.target.profile { return Err(CandidateChanged); }
      } else {
        if mig.target.profile.Some? { return Err(InvalidConfig); }
        if exists i | i in instances :: i != instance && LiveInstance(instances[i], now) { return Err(SingleInstanceRequired); }
      }
      if !control.mediaPaused || control.revision != expected { return Err(NotPaused); }
      var reset := map a | a in items && items[a].status == Failed :: items[a].(status := Pending, lock := None, updatedAt := now);
      items := items + reset;
      mig := mig.(status := MPending, failed := 0);
      r := Ok(());
    }
  }

  // ---------------------------------------------------------------- the worker's loops

  datatype BlobError = Missing | Unavailable | SizeMismatch | VerificationFailed

  /** A blob store whose operations may fail; `up` says, operation by operation, which succeed. */
  class BlobStore {
    var objects: map<Key, Bytes>

    constructor ()
      ensures objects == map[]
    {
      objects := map[];
    }

    method Get(key: Key, up: bool) returns (r: Result<Bytes, BlobError>)
      ensures r == if !up then Err(Unavailable) else if key in objects then Ok(objects[key]) else Err(Missing)
    {
      if !up { return Err(Unavailable); }
      if key !in objects { return Err(Missing); }
      r := Ok(objects[key]);
    }

    /** `wrote` is what the put stored, if anything: neither its success nor its failure tells. */
    method Put(key: Key, contents: Bytes, up: bool, wrote: Option<Bytes>) returns (ok: bool)
      modifies this
      ensures ok == up
      ensures objects == if wrote.Some? then old(objects)[key := wrote.value] else old(objects)
    {
      if wrote.Some? { objects := objects[key := wrote.value]; }
      ok := up;
    }

    method Delete(key: Key, up: bool) returns (ok: bool)
      modifies this
      ensures ok == up && objects == if up then old(objects) - {key} else old(objects)
    {
      if up { objects := objects - {key}; }
      ok := up;
    }
  }

  function Keys(a: AvatarId, variants: seq<Variant>): set<Key> {
    set v | v in variants :: Key(a, v.size)
  }

  /** The variant is at the source with its recorded size, and the target holds the same bytes. */
  ghost predicate Copied(source: map<Key, Bytes>, target: map<Key, Bytes>, a: AvatarId, v: Variant) {
    var k := Key(a, v.size);
    k in source && |source[k]| == v.bytes && k in target && target[k] == source[k]
  }

  /** How the blob stores serve one variant: which calls succeed, and what the put stored. */
  datatype Service = Service(read: bool, put: bool, wrote: Option<Bytes>, check: bool)

  /** The variant is at the source with its recorded size. */
  predicate Stocked(source: map<Key, Bytes>, a: AvatarId, v: Variant) {
    Key(a, v.size) in source && |source[Key(a, v.size)]| == v.bytes
  }

  /** Every call succeeds, and the target ends up with the source's bytes: the put stored them, or
      it stored nothing and they were there already. */
  predicate Served(source: map<Key, Bytes>, target: map<Key, Bytes>, a: AvatarId, v: Variant, how: Service) {
    var k := Key(a, v.size);
    && how.read && how.put && how.check && Stocked(source, a, v)
    && if how.wrote.Some? then how.wrote.value == source[k] else k in target && target[k] == source[k]
  }

  ghost predicate SameOutside(x: map<Key, Bytes>, y: map<Key, Bytes>, keys: set<Key>) {
    forall k | k !in keys :: (k in x <==> k in y) && (k in x ==> x[k] == y[k])
  }

  /** copyAndVerifyVariants; the two stores may be one. */
  method CopyAndVerifyVariants(source: BlobStore, target: BlobStore, a: AvatarId, variants: seq<Variant>, how: nat -> Service)
    returns (r: Result<(), BlobError>)
    modifies target
    ensures r.Ok? || source != target ==> source.objects == old(source.objects)
    ensures r.Ok? ==> forall i | 0 <= i < |variants| :: Copied(source.objects, target.objects, a, variants[i])
    ensures SameOutside(target.objects, old(target.objects), Keys(a, variants))
    ensures SizesDiffer(variants) ==>
              (r.Ok? <==> forall i | 0 <= i < |variants| :: Served(old(source.objects), old(target.objects), a, variants[i], how(i)))
  {
    for n := 0 to |variants|
      invariant source.objects == old(source.objects)
      invariant forall i | 0 <= i < n :: Copied(source.objects, target.objects, a, variants[i])
      invariant SameOutside(target.objects, old(target.objects), Keys(a, variants[..n]))
      invariant SizesDiffer(variants) ==> forall i | 0 <= i < n :: Served(old(source.objects), old(target.objects), a, variants[i], how(i))
    {
      var key := Key(a, variants[n].size);
      KeysUpTo(a, variants, n);
      var service := how(n);
      var body := source.Get(key, service.read);
      if body.Err? { return Err(body.error); }
      if |body.value| != variants[n].bytes { return Err(SizeMismatch); }
      var stored := target.Put(key, body.value, service.put, service.wrote);
      if !stored { return Err(Unavailable); }
      var copied := target.Get(key, service.check);
      if copied.Err? { return Err(copied.error); }
      if copied.value != body.value { return Err(VerificationFailed); }
    }
    assert variants[..|variants|] == variants;
    r := Ok(());
  }

  lemma KeysUpTo(a: AvatarId, variants: seq<Variant>, n: nat)
    requires n < |variants|
    ensures Keys(a, variants[..n + 1]) == Keys(a, variants[..n]) + {Key(a, variants[n].size)}
    ensures Keys(a, variants[..n + 1]) <= Keys(a, variants)
    ensures SizesDiffer(variants) ==> Key(a, variants[n].size) !in Keys(a, variants[..n])
  {
    assert variants[..n + 1] == variants[..n] + [variants[n]];
  }

  /** The delete loop after the switch; it stops at the first failure. */
  method DeleteVariants(source: BlobStore, a: AvatarId, variants: seq<Variant>, up: nat -> bool) returns (ok: bool)
    modifies source
    ensures ok ==> source.objects == old(source.objects) - Keys(a, variants)
    ensures SameOutside(source.objects, old(source.objects), Keys(a, variants))
    ensures ok <==> forall i | 0 <= i < |variants| :: up(i)
  {
    for n := 0 to |variants|
      invariant source.objects == old(source.objects) - Keys(a, variants[..n])
      invariant forall i | 0 <= i < n :: up(i)
    {
      KeysUpTo(a, variants, n);
      ok := source.Delete(Key(a, variants[n].size), up(n));
      if !ok { return; }
    }
    assert variants[..|variants|] == variants;
    ok := true;
  }
}

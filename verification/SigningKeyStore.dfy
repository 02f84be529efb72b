/** The imperative form of the key manager: the jwk_keys table updated in place, proved against the
    transactions of SigningKeys. */
module SigningKeyStore {
  import opened Base
  import opened SigningKeys

  const MASTER_KEY_LENGTH := 32

  function Demoted(key: Key, c: Config, now: int): Key {
    key.(status := Verification, private := None, verifyUntil := now + Retention(c))
  }

  /** Demoting the one signing row demotes them all. */
  lemma DemoteOne(keys: Keys, o: Option<Kid>, c: Config, now: int)
    requires o.None? ==> forall k :: !IsSigning(keys, k)
    requires o.Some? ==> IsSigning(keys, o.value) && forall k :: IsSigning(keys, k) ==> k == o.value
    ensures Demote(keys, c, now) == if o.Some? then keys[o.value := Demoted(keys[o.value], c, now)] else keys
  {
    forall k | k in keys ensures keys[k].status == Signing <==> o == Some(k) { assert IsSigning(keys, k) <==> o == Some(k); }
  }

  class Manager {
    var keys: Keys
    var configured: bool
    var rotation: int
    var retention: int
    ghost var maxTtl: int

    /** What the retention stands for. */
    ghost predicate Valid()
      reads this
    {
      retention == Retention(Settings())
    }

    ghost function Settings(): Config
      reads this
    {
      Config(rotation, maxTtl)
    }

    constructor (rotation: int)
      ensures Valid() && keys == map[] && !configured && this.rotation == rotation && maxTtl == 0
    {
      keys, configured, this.rotation := map[], false, rotation;
      retention, maxTtl := 31 * DAY + SKEW, 0;
    }

    /** A maximum that is not positive leaves the retention as it was. */
    method Configure(masterKeyLength: nat, maximum: int) returns (ok: bool)
      requires Valid()
      modifies this`configured, this`retention, this`maxTtl
      ensures Valid()
      ensures ok <==> masterKeyLength == MASTER_KEY_LENGTH
      ensures ok ==> configured && maxTtl == if maximum > 0 then maximum else old(maxTtl)
      ensures !ok ==> configured == old(configured) && maxTtl == old(maxTtl)
    {
      if masterKeyLength != MASTER_KEY_LENGTH { return false; }
      configured := true;
      if maximum > 0 {
        retention := maximum + SKEW;
        maxTtl := maximum;
      }
      return true;
    }

    method GenerateKey(kid: Kid, secret: nat, now: int) returns (ok: bool)
      requires Valid() && kid !in keys
      modifies this`keys
      ensures Valid()
      ensures ok <==> configured && rotation > 0
      ensures keys == if ok then Generate(old(keys), Settings(), kid, secret, now) else old(keys)
    {
      if !configured || rotation <= 0 { return false; }
      keys := map k | k in keys ::
        if keys[k].status == Signing then keys[k].(status := Verification, private := None, verifyUntil := now + retention) else keys[k];
      keys := keys[kid := Key(Signing, Some(secret), now, now + (rotation + retention))];
      return true;
    }

    /** The row that signs, of which the table's unique index allows one. */
    method SigningRow() returns (o: Option<Kid>)
      ensures o.None? <==> forall k :: !IsSigning(keys, k)
      ensures o.Some? ==> IsSigning(keys, o.value)
    {
      o := None;
      var left := keys.Keys;
      while left != {}
        invariant left <= keys.Keys
        invariant o.Some? ==> IsSigning(keys, o.value)
        invariant o.None? ==> forall k :: IsSigning(keys, k) ==> k in left
        decreases left
      {
        var k :| k in left;
        left := left - {k};
        if keys[k].status == Signing {
          assert IsSigning(keys, k);
          return Some(k);
        }
      }
    }

    /** Retires what has run out, and replaces the signing key when it is due or missing. */
    method RotateKeys(kid: Kid, secret: nat, now: int) returns (ok: bool)
      requires Valid() && kid !in keys
      requires forall j, k :: IsSigning(keys, j) && IsSigning(keys, k) ==> j == k
      modifies this`keys
      ensures Valid()
      ensures ok <==> configured && rotation > 0
      ensures keys == if ok then Rotate(old(keys), Settings(), kid, secret, now) else old(keys)
      ensures forall j, k :: IsSigning(keys, j) && IsSigning(keys, k) ==> j == k
    {
      if !configured || rotation <= 0 { return false; }
      keys := map k | k in keys ::
        if keys[k].status == Verification && keys[k].verifyUntil <= now then keys[k].(status := Retired, private := None) else keys[k];
      ghost var kept := keys;
      assert kept == RetireExpired(old(keys), now);
      assert forall k :: IsSigning(kept, k) <==> IsSigning(old(keys), k);
      hide RetireExpired, Demote;
      var o := SigningRow();
      if o.Some? {
        if now < keys[o.value].startedAt + rotation {
          assert Young(kept, Settings(), now);
          return true;
        }
        keys := keys[o.value := keys[o.value].(status := Verification, private := None, verifyUntil := now + retention)];
      }
      assert forall k :: k in kept && kept[k].status == Signing ==> IsSigning(kept, k);
      DemoteOne(kept, o, Settings(), now);
      keys := keys[kid := Key(Signing, Some(secret), now, now + (rotation + retention))];
      return true;
    }

    /** getPublicKey: searches the listed keys. */
    method GetPublicKey(kid: Kid, at: int) returns (found: bool)
      ensures found <==> Listed(keys, kid, at)
    {
      var left := set k | k in keys && (keys[k].status == Signing || (keys[k].status == Verification && keys[k].verifyUntil > at));
      while left != {}
        invariant Listed(keys, kid, at) ==> kid in left
        invariant forall k :: k in left ==> Listed(keys, k, at)
        decreases left
      {
        var k :| k in left;
        if k == kid { return true; }
        left := left - {k};
      }
      return false;
    }
  }
}

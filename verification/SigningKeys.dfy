/** Signing key rotation of internal/auth/jwk.go and the life of the tokens signed with a key
    (internal/auth/token.go). A rotation is one transaction under the rotation lock; a signer loaded
    the private key in one step and signs in a later one. Times are microseconds on one clock. */
module SigningKeys {
  import opened Base

  type Kid = nat
  type Thread = nat

  const SKEW := 2 * MINUTE
  const DEFAULT_MAX_TTL := 31 * DAY

  datatype Status = Signing | Verification | Retired

  /** `private` is the encrypted private key, which the table holds or not. */
  datatype Key = Key(status: Status, private: Option<nat>, startedAt: int, verifyUntil: int)

  type Keys = map<Kid, Key>

  /** How often keys rotate, and the longest token lifetime given to Configure, if positive. */
  datatype Config = Config(rotation: int, maxTtl: int)

  /** The longest lifetime of a token that the retention of old keys provides for. */
  function MaxTtl(c: Config): int {
    if c.maxTtl > 0 then c.maxTtl else DEFAULT_MAX_TTL
  }

  function Retention(c: Config): int {
    MaxTtl(c) + SKEW
  }

  // ---------------------------------------------------------------- transactions

  predicate IsSigning(keys: Keys, kid: Kid) {
    kid in keys && keys[kid].status == Signing
  }

  function RetireExpired(keys: Keys, now: int): Keys {
    map k | k in keys ::
      if keys[k].status == Verification && keys[k].verifyUntil <= now then keys[k].(status := Retired, private := None) else keys[k]
  }

  function Demote(keys: Keys, c: Config, now: int): Keys {
    map k | k in keys ::
      if keys[k].status == Signing then keys[k].(status := Verification, private := None, verifyUntil := now + Retention(c)) else keys[k]
  }

  function NewKey(c: Config, secret: nat, now: int): Key {
    Key(Signing, Some(secret), now, now + (c.rotation + Retention(c)))
  }

  /** GenerateKey. */
  function Generate(keys: Keys, c: Config, kid: Kid, secret: nat, now: int): Keys {
    Demote(keys, c, now)[kid := NewKey(c, secret, now)]
  }

  predicate Young(keys: Keys, c: Config, now: int) {
    exists k | k in keys :: keys[k].status == Signing && now < keys[k].startedAt + c.rotation
  }

  /** RotateKeys and EnsureActiveKey. */
  function Rotate(keys: Keys, c: Config, kid: Kid, secret: nat, now: int): Keys {
    var kept := RetireExpired(keys, now);
    if Young(kept, c, now) then kept else Generate(kept, c, kid, secret, now)
  }

  /** ListActivePublicKeys, which getPublicKey searches. */
  predicate Listed(keys: Keys, kid: Kid, at: int) {
    kid in keys && (keys[kid].status == Signing || (keys[kid].status == Verification && keys[kid].verifyUntil > at))
  }

  /** Claims carry whole seconds. */
  function WholeSeconds(t: int): int {
    t / SECOND * SECOND
  }

  /** `current` says whether the key was still the signing key when the token was signed. */
  datatype Token = Token(kid: Kid, signedAt: int, ttl: int, expiresAt: int, current: bool)

  /** The expiry check of parseSignedToken, with its leeway. */
  predicate Accepted(t: Token, at: int) {
    at < t.expiresAt + SKEW
  }

  // ---------------------------------------------------------------- runs

  /** `loaded` are the keys that signers hold in memory; `moved` says when a key stopped signing. */
  datatype Sys = Sys(keys: Keys, clock: int, loaded: map<Thread, Kid>, tokens: seq<Token>, moved: map<Kid, int>)

  datatype Event =
    | EvRotate(kid: Kid, secret: nat, now: int)
    | EvGenerate(kid: Kid, secret: nat, now: int)
    | EvRead(t: Thread, kid: Kid, now: int)
    | EvSign(t: Thread, ttl: int, now: int)

  const START := Sys(map[], 0, map[], [], map[])

  /** What a transaction that leaves `keys` moved away from signing. */
  function Moved(s: Sys, keys: Keys, now: int): map<Kid, int> {
    s.moved + map k | k in s.keys && IsSigning(s.keys, k) && !IsSigning(keys, k) :: now
  }

  function WithKeys(s: Sys, keys: Keys, now: int): Sys {
    s.(keys := keys, moved := Moved(s, keys, now))
  }

  function Step(s0: Sys, c: Config, e: Event): Sys {
    if e.now < s0.clock then s0
    else
      var s := s0.(clock := e.now);
      match e
      case EvRotate(kid, secret, now) =>
        if kid in s.keys || c.rotation <= 0 then s else WithKeys(s, Rotate(s.keys, c, kid, secret, now), now)
      case EvGenerate(kid, secret, now) =>
        if kid in s.keys || c.rotation <= 0 then s else WithKeys(s, Generate(s.keys, c, kid, secret, now), now)
      case EvRead(t, kid, now) => if IsSigning(s.keys, kid) then s.(loaded := s.loaded[t := kid]) else s
      case EvSign(t, ttl, now) =>
        if t !in s.loaded then s
        else s.(tokens := s.tokens + [Token(s.loaded[t], now, ttl, WholeSeconds(now + ttl), IsSigning(s.keys, s.loaded[t]))])
  }

  function Run(c: Config, es: seq<Event>): Sys
    decreases |es|
  {
    if es == [] then START else Step(Run(c, es[..|es| - 1]), c, es[|es| - 1])
  }

  // ---------------------------------------------------------------- invariants

  /** Private material is there exactly while signing; a key that stopped signing is kept for the
      retention time and retired only after it. */
  predicate KeyOk(s: Sys, c: Config, k: Kid) {
    && k in s.keys
    && (s.keys[k].status == Signing <==> s.keys[k].private.Some?)
    && (s.keys[k].status == Signing <==> k !in s.moved)
    && (k in s.moved ==> s.keys[k].verifyUntil == s.moved[k] + Retention(c) && s.moved[k] <= s.clock)
    && (s.keys[k].status == Retired ==> s.keys[k].verifyUntil <= s.clock)
  }

  predicate TokenOk(s: Sys, t: Token) {
    && t.kid in s.keys && t.signedAt <= s.clock && t.expiresAt == WholeSeconds(t.signedAt + t.ttl)
    && (t.current && t.kid in s.moved ==> t.signedAt <= s.moved[t.kid])
  }

  ghost predicate OneSigner(keys: Keys) {
    && (forall j, k :: IsSigning(keys, j) && IsSigning(keys, k) ==> j == k)
    && (keys != map[] ==> exists k :: IsSigning(keys, k))
  }

  ghost predicate Inv(s: Sys, c: Config) {
    && OneSigner(s.keys)
    && (forall k :: k in s.keys ==> KeyOk(s, c, k))
    && (forall k :: k in s.moved ==> k in s.keys)
    && (forall t :: t in s.loaded ==> s.loaded[t] in s.keys)
    && (forall t :: t in s.tokens ==> TokenOk(s, t))
  }

  lemma GenerateKeeps(s: Sys, c: Config, kid: Kid, secret: nat, now: int)
    requires Inv(s, c) && s.clock <= now && kid !in s.keys
    ensures Inv(WithKeys(s.(clock := now), Generate(s.keys, c, kid, secret, now), now), c)
  {
    var keys := Generate(s.keys, c, kid, secret, now);
    var t := WithKeys(s.(clock := now), keys, now);
    assert forall k :: IsSigning(keys, k) <==> k == kid;
    assert IsSigning(keys, kid);
    forall k | k in keys ensures KeyOk(t, c, k) {
      if k in s.keys { assert KeyOk(s, c, k); }
    }
    forall x | x in t.tokens ensures TokenOk(t, x) { assert TokenOk(s, x); }
  }

  lemma RetireKeeps(s: Sys, c: Config, now: int)
    requires Inv(s, c) && s.clock <= now
    ensures Inv(s.(clock := now, keys := RetireExpired(s.keys, now)), c)
    ensures forall k :: IsSigning(RetireExpired(s.keys, now), k) <==> IsSigning(s.keys, k)
    ensures RetireExpired(s.keys, now).Keys == s.keys.Keys
  {
    var t := s.(clock := now, keys := RetireExpired(s.keys, now));
    assert forall k :: IsSigning(t.keys, k) <==> IsSigning(s.keys, k);
    forall k | k in t.keys ensures KeyOk(t, c, k) { assert KeyOk(s, c, k); }
    forall x | x in t.tokens ensures TokenOk(t, x) { assert TokenOk(s, x); }
  }

  lemma SameMoved(s: Sys, t: Sys, keys: Keys, now: int)
    requires t == s.(keys := t.keys)
    requires forall k :: IsSigning(s.keys, k) <==> IsSigning(t.keys, k)
    ensures WithKeys(s, keys, now) == WithKeys(t, keys, now)
  {
    assert (map k | k in s.keys && IsSigning(s.keys, k) && !IsSigning(keys, k) :: now)
        == (map k | k in t.keys && IsSigning(t.keys, k) && !IsSigning(keys, k) :: now);
  }

  lemma NothingMoved(s: Sys, now: int)
    ensures Moved(s, s.keys, now) == s.moved
  {
    assert (map k | k in s.keys && IsSigning(s.keys, k) && !IsSigning(s.keys, k) :: now) == map[];
  }

  /** A rotation is a retirement followed, unless the key is young, by a generation. */
  lemma RotateKeeps(s: Sys, c: Config, kid: Kid, secret: nat, now: int)
    requires Inv(s, c) && s.clock <= now && kid !in s.keys
    ensures Inv(WithKeys(s.(clock := now), Rotate(s.keys, c, kid, secret, now), now), c)
  {
    var kept := RetireExpired(s.keys, now);
    var mid := s.(clock := now, keys := kept);
    RetireKeeps(s, c, now);
    hide Inv, Young, RetireExpired, Generate, IsSigning, Demote;
    var keys := Rotate(s.keys, c, kid, secret, now);
    SameMoved(s.(clock := now), mid, keys, now);
    if Young(kept, c, now) {
      assert WithKeys(mid, kept, now) == mid by { NothingMoved(mid, now); }
    } else {
      GenerateKeeps(mid, c, kid, secret, now);
    }
  }

  lemma StepKeeps(s: Sys, c: Config, e: Event)
    requires Inv(s, c)
    ensures Inv(Step(s, c, e), c)
  {
    var t := Step(s, c, e);
    if s.clock <= e.now {
      if (e.EvRotate? || e.EvGenerate?) && e.kid !in s.keys && c.rotation > 0 {
        if e.EvRotate? { RotateKeeps(s, c, e.kid, e.secret, e.now); } else { GenerateKeeps(s, c, e.kid, e.secret, e.now); }
      } else {
        assert t.keys == s.keys && t.moved == s.moved;
        forall k | k in t.keys ensures KeyOk(t, c, k) { assert KeyOk(s, c, k); }
        forall x | x in t.tokens ensures TokenOk(t, x) {
          if x in s.tokens { assert TokenOk(s, x); } else { assert KeyOk(s, c, x.kid); }
        }
      }
    }
  }

  lemma {:induction false} Always(c: Config, es: seq<Event>)
    ensures Inv(Run(c, es), c)
    decreases |es|
  {
    if es != [] {
      Always(c, es[..|es| - 1]);
      StepKeeps(Run(c, es[..|es| - 1]), c, es[|es| - 1]);
    }
  }

  // ---------------------------------------------------------------- main results

  /** At most one key signs, and only it keeps private material; once there is a key, one signs. */
  lemma {:induction false} OneKeySigns(c: Config, es: seq<Event>, j: Kid, k: Kid)
    requires j in Run(c, es).keys && k in Run(c, es).keys
    ensures Run(c, es).keys[j].private.Some? && Run(c, es).keys[k].private.Some? ==> j == k
    ensures Run(c, es).keys[k].private.Some? <==> IsSigning(Run(c, es).keys, k)
    ensures exists x :: IsSigning(Run(c, es).keys, x)
  {
    Always(c, es);
    hide Run;
    var s := Run(c, es);
    assert KeyOk(s, c, j) && KeyOk(s, c, k);
    assert s.keys[j].private.Some? <==> IsSigning(s.keys, j);
    assert s.keys[k].private.Some? <==> IsSigning(s.keys, k);
  }

  /** Whatever runs from here on, the token's key is listed at every instant at which the token
      passes the expiry check. */
  ghost predicate Covered(c: Config, es: seq<Event>, t: Token) {
    forall more: seq<Event>, at: int :: CoveredIn(Run(c, es + more), t, at)
  }

  predicate CoveredIn(s: Sys, t: Token, at: int) {
    s.clock <= at && Accepted(t, at) ==> Listed(s.keys, t.kid, at)
  }

  /** When the key stopped signing, or now if it still signs. */
  function SignsUntil(s: Sys, kid: Kid): int {
    if kid in s.moved then s.moved[kid] else s.clock
  }

  /** A key of `s` is still in the later state `t`, and the time at which it stopped signing is final. */
  predicate KeyLater(s: Sys, t: Sys, kid: Kid) {
    && kid in t.keys && s.clock <= t.clock && SignsUntil(s, kid) <= SignsUntil(t, kid)
    && (kid in s.moved ==> kid in t.moved && t.moved[kid] == s.moved[kid])
  }

  lemma StepLater(s: Sys, c: Config, e: Event, kid: Kid)
    requires Inv(s, c) && kid in s.keys
    ensures KeyLater(s, Step(s, c, e), kid)
  {
    assert KeyOk(s, c, kid);
    if kid in s.moved { assert !IsSigning(s.keys, kid); }
  }

  lemma {:induction false} RunLater(c: Config, es: seq<Event>, more: seq<Event>, kid: Kid)
    requires kid in Run(c, es).keys
    ensures KeyLater(Run(c, es), Run(c, es + more), kid)
    decreases |more|
  {
    hide Step, Inv;
    if more == [] {
      assert es + more == es;
    } else {
      var front, e := more[..|more| - 1], more[|more| - 1];
      RunLater(c, es, front, kid);
      Always(c, es + front);
      assert (es + more)[..|es + more| - 1] == es + front;
      StepLater(Run(c, es + front), c, e, kid);
    }
  }

  lemma CoveredNow(s: Sys, c: Config, t: Token, at: int)
    requires Inv(s, c) && t.kid in s.keys && t.expiresAt <= SignsUntil(s, t.kid) + MaxTtl(c)
    ensures CoveredIn(s, t, at)
  {
    assert KeyOk(s, c, t.kid);
  }

  /** An identifier that no key has. */
  lemma FreshKid(kids: set<Kid>) returns (kid: Kid)
    ensures kid !in kids && forall k :: k in kids ==> k < kid
  {
    if kids == {} {
      kid := 0;
    } else {
      var k :| k in kids;
      var rest := FreshKid(kids - {k});
      kid := if rest <= k then k + 1 else rest;
      forall x | x in kids ensures x < kid {
        if x != k { assert x in kids - {k}; }
      }
    }
  }

  lemma {:induction false} KeysNeedRotation(c: Config, es: seq<Event>)
    requires Run(c, es).keys != map[]
    ensures c.rotation > 0
  {
    if es != [] && Run(c, es[..|es| - 1]).keys != map[] { KeysNeedRotation(c, es[..|es| - 1]); }
  }

  /** Replacing the signing key right away uncovers a token that may live longer than the maximum
      from now. */
  lemma {:induction false} GenerateUncovers(c: Config, es: seq<Event>, t: Token)
    requires IsSigning(Run(c, es).keys, t.kid) && t.expiresAt > Run(c, es).clock + MaxTtl(c)
    ensures !Covered(c, es, t)
  {
    var s := Run(c, es);
    Always(c, es);
    KeysNeedRotation(c, es);
    var kid := FreshKid(s.keys.Keys);
    var more := [EvGenerate(kid, 0, s.clock)];
    assert (es + more)[..|es|] == es;
    var u := Run(c, es + more);
    assert u == Step(s, c, more[0]);
    var at := s.clock + Retention(c);
    assert u.keys[t.kid].verifyUntil == at && u.clock == s.clock;
    assert !CoveredIn(u, t, at);
  }

  lemma {:induction false} MovedUncovers(c: Config, es: seq<Event>, t: Token)
    requires t.kid in Run(c, es).moved && t.expiresAt > Run(c, es).moved[t.kid] + MaxTtl(c) && Accepted(t, Run(c, es).clock)
    ensures !Covered(c, es, t)
  {
    var s := Run(c, es);
    Always(c, es);
    assert KeyOk(s, c, t.kid);
    assert es + [] == es;
    var until := s.keys[t.kid].verifyUntil;
    assert !CoveredIn(Run(c, es + []), t, if s.clock < until then until else s.clock);
  }

  /** Exactly when a token is covered: it expires no later than the maximal lifetime after its key
      stopped signing, or after now if the key still signs; or it is no longer accepted. */
  lemma {:induction false} CoveredExactly(c: Config, es: seq<Event>, t: Token)
    requires t in Run(c, es).tokens
    ensures var s := Run(c, es);
      Covered(c, es, t) <==> t.expiresAt <= SignsUntil(s, t.kid) + MaxTtl(c) || !Accepted(t, s.clock)
  {
    var s := Run(c, es);
    Always(c, es);
    assert TokenOk(s, t) && KeyOk(s, c, t.kid);
    if t.expiresAt <= SignsUntil(s, t.kid) + MaxTtl(c) || !Accepted(t, s.clock) {
      forall more: seq<Event>, at: int ensures CoveredIn(Run(c, es + more), t, at) {
        RunLater(c, es, more, t.kid);
        Always(c, es + more);
        if Accepted(t, s.clock) { CoveredNow(Run(c, es + more), c, t, at); }
      }
    } else if t.kid in s.moved {
      MovedUncovers(c, es, t);
    } else {
      GenerateUncovers(c, es, t);
    }
  }

  /** Every token signed by a key while it was the signing key, with at most the maximal lifetime,
      finds that key listed for as long as it is accepted, whatever runs from here on. */
  lemma {:induction false} SignedTokensVerify(c: Config, es: seq<Event>, t: Token)
    requires t in Run(c, es).tokens && t.current && t.ttl <= MaxTtl(c)
    ensures Covered(c, es, t)
  {
    Always(c, es);
    assert TokenOk(Run(c, es), t);
    CoveredExactly(c, es, t);
  }

  /** A key read just before a rotation still signs after it. Such a token outlives its key's
      listing unless its lifetime leaves room for the delay. */
  lemma {:induction false} LateTokens(c: Config, es: seq<Event>, t: Token)
    requires t in Run(c, es).tokens && t.kid in Run(c, es).moved
    requires t.ttl + (t.signedAt - Run(c, es).moved[t.kid]) <= MaxTtl(c)
    ensures Covered(c, es, t)
  {
    Always(c, es);
    assert TokenOk(Run(c, es), t);
    CoveredExactly(c, es, t);
  }

  const RACE_CONFIG := Config(DAY, 15 * MINUTE)
  const RACE := [EvGenerate(1, 7, 0), EvRead(0, 1, 0), EvGenerate(2, 8, 0), EvSign(0, 15 * MINUTE, 10 * SECOND)]

  lemma RaceRead()
    ensures Run(RACE_CONFIG, RACE[..2]) == Sys(map[1 := NewKey(RACE_CONFIG, 7, 0)], 0, map[0 := 1], [], map[])
  {
    var c := RACE_CONFIG;
    assert RACE[..2][..1] == RACE[..1] && RACE[..1][..0] == [];
    assert Run(c, RACE[..1]) == Step(START, c, RACE[0]);
    assert Moved(START, Generate(map[], c, 1, 7, 0), 0) == map[];
    assert Generate(map[], c, 1, 7, 0) == map[1 := NewKey(c, 7, 0)];
    assert Run(c, RACE[..2]) == Step(Run(c, RACE[..1]), c, RACE[1]);
  }

  lemma RaceRotated()
    ensures var s := Run(RACE_CONFIG, RACE[..3]);
      && s.clock == 0 && s.loaded == map[0 := 1] && s.tokens == []
      && 1 in s.keys && s.keys[1].status == Verification && s.keys[1].verifyUntil == 17 * MINUTE
  {
    RaceRead();
    assert RACE[..3][..2] == RACE[..2];
    assert Run(RACE_CONFIG, RACE[..3]) == Step(Run(RACE_CONFIG, RACE[..2]), RACE_CONFIG, RACE[2]);
  }

  /** The race is real: read, rotate, sign ten seconds later with the maximal lifetime. */
  lemma RaceOutlivesKey()
    ensures var s := Run(RACE_CONFIG, RACE);
      |s.tokens| == 1 && s.tokens[0].ttl <= MaxTtl(RACE_CONFIG) && !Covered(RACE_CONFIG, RACE, s.tokens[0])
  {
    RaceRotated();
    assert RACE[..3] == RACE[..|RACE| - 1];
    var s := Run(RACE_CONFIG, RACE);
    assert s == Step(Run(RACE_CONFIG, RACE[..3]), RACE_CONFIG, RACE[3]);
    var t := s.tokens[0];
    assert t.expiresAt == 15 * MINUTE + 10 * SECOND;
    assert RACE + [] == RACE;
    assert !CoveredIn(Run(RACE_CONFIG, RACE + []), t, 17 * MINUTE);
  }
}

/** What a rotation does: whom it keeps, whom it replaces, and what it retires, over every run. */
module SigningRotation {
  import opened Base
  import opened SigningKeys

  /** Event `i` made the key. */
  ghost predicate MadeBy(c: Config, es: seq<Event>, i: nat, kid: Kid) {
    && i < |es| && (es[i].EvRotate? || es[i].EvGenerate?) && es[i].kid == kid
    && kid !in Run(c, es[..i]).keys && kid in Run(c, es[..i + 1]).keys
  }

  lemma {:induction false} RunOne(c: Config, es: seq<Event>, e: Event)
    ensures Run(c, es + [e]) == Step(Run(c, es), c, e)
  {
    assert (es + [e])[..|es|] == es;
  }

  /** A key's start and, while it has one, its secret stay as they were made. */
  predicate AsMade(keys: Keys, kid: Kid, e: Event) {
    && kid in keys && (e.EvRotate? || e.EvGenerate?)
    && keys[kid].startedAt == e.now && keys[kid].private in {None, Some(e.secret)}
  }

  lemma StepAsMade(s: Sys, c: Config, e: Event, kid: Kid, m: Event)
    requires kid in Step(s, c, e).keys && (kid in s.keys ==> AsMade(s.keys, kid, m))
    ensures kid in s.keys ==> AsMade(Step(s, c, e).keys, kid, m)
    ensures kid !in s.keys ==> (e.EvRotate? || e.EvGenerate?) && e.kid == kid && AsMade(Step(s, c, e).keys, kid, e)
  {
    hide Moved, Young;
  }

  /** Every key was made by one event of the run, signing since then. */
  lemma {:induction false} KeysAsMade(c: Config, es: seq<Event>, kid: Kid)
    requires kid in Run(c, es).keys
    ensures exists i: nat :: MadeBy(c, es, i, kid) && AsMade(Run(c, es).keys, kid, es[i])
  {
    var front, e := es[..|es| - 1], es[|es| - 1];
    hide Step, AsMade;
    if kid in Run(c, front).keys {
      KeysAsMade(c, front, kid);
      var i: nat :| MadeBy(c, front, i, kid) && AsMade(Run(c, front).keys, kid, front[i]);
      StepAsMade(Run(c, front), c, e, kid, front[i]);
      assert front[..i] == es[..i] && front[..i + 1] == es[..i + 1];
      assert MadeBy(c, es, i, kid);
    } else {
      StepAsMade(Run(c, front), c, e, kid, e);
      assert es[..|front|] == front && es[..|es|] == es;
      assert MadeBy(c, es, |front|, kid);
    }
  }

  /** A key is made only once. */
  lemma {:induction false} MadeOnce(c: Config, es: seq<Event>, i: nat, j: nat, kid: Kid)
    requires MadeBy(c, es, i, kid) && MadeBy(c, es, j, kid)
    ensures i == j
  {
    if i < j { KeyStays(c, es, i + 1, j, kid); } else if j < i { KeyStays(c, es, j + 1, i, kid); }
  }

  lemma {:induction false} KeyStays(c: Config, es: seq<Event>, i: nat, j: nat, kid: Kid)
    requires i <= j <= |es| && kid in Run(c, es[..i]).keys
    ensures kid in Run(c, es[..j]).keys
    decreases j
  {
    if i < j {
      KeyStays(c, es, i, j - 1, kid);
      assert es[..j] == es[..j - 1] + [es[j - 1]];
      RunOne(c, es[..j - 1], es[j - 1]);
    }
  }

  /** The keys after a call that may replace the signing key: it does so or not, the new key signs
      from now on, and the others keep their start. */
  predicate Replaced(keys: Keys, after: Keys, kid: Kid, secret: nat, now: int, replaced: bool) {
    && (forall k | k in keys.Keys + after.Keys :: IsSigning(after, k) <==> if replaced then k == kid else IsSigning(keys, k))
    && after.Keys == (if replaced then keys.Keys + {kid} else keys.Keys)
    && (replaced ==> after[kid].startedAt == now && after[kid].private == Some(secret))
  }

  /** No key is still offered for verification after its time. */
  predicate NoneOverdue(keys: Keys, now: int) {
    forall k | k in keys && keys[k].status == Verification :: now < keys[k].verifyUntil
  }

  lemma RotateKeys(s: Sys, c: Config, kid: Kid, secret: nat, now: int)
    requires s.clock <= now && kid !in s.keys && c.rotation > 0
    ensures Step(s, c, EvRotate(kid, secret, now)).keys == Rotate(s.keys, c, kid, secret, now)
  {
    hide Rotate, Moved;
  }

  lemma RotateReplaces(s: Sys, c: Config, kid: Kid, secret: nat, now: int, signer: Kid)
    requires Inv(s, c) && s.clock <= now && kid !in s.keys && c.rotation > 0 && IsSigning(s.keys, signer)
    ensures var after := Step(s, c, EvRotate(kid, secret, now)).keys;
      Replaced(s.keys, after, kid, secret, now, now - s.keys[signer].startedAt >= c.rotation) && NoneOverdue(after, now)
  {
    RotateKeys(s, c, kid, secret, now);
    Retired(s, c, now, signer);
    hide Step, Inv, NoneOverdue, RetireExpired, Generate;
    var kept := RetireExpired(s.keys, now);
    assert Young(kept, c, now) <==> now - s.keys[signer].startedAt < c.rotation;
    if !Young(kept, c, now) { GeneratedOver(kept, c, kid, secret, now); }
  }

  lemma Retired(s: Sys, c: Config, now: int, signer: Kid)
    requires Inv(s, c) && IsSigning(s.keys, signer)
    ensures var kept := RetireExpired(s.keys, now);
      && kept.Keys == s.keys.Keys && kept[signer] == s.keys[signer] && NoneOverdue(kept, now)
      && forall k | k in kept :: (IsSigning(kept, k) <==> k == signer) && (IsSigning(s.keys, k) <==> k == signer)
  {
    forall k | k in s.keys ensures IsSigning(s.keys, k) <==> k == signer {}
  }

  lemma GeneratedOver(kept: Keys, c: Config, kid: Kid, secret: nat, now: int)
    requires NoneOverdue(kept, now) && kid !in kept
    ensures NoneOverdue(Generate(kept, c, kid, secret, now), now)
    ensures Replaced(kept, Generate(kept, c, kid, secret, now), kid, secret, now, true)
  {}

  lemma FirstKey(s: Sys, c: Config, kid: Kid, secret: nat, now: int)
    requires s.keys == map[] && s.clock <= now && c.rotation > 0
    ensures var after := Step(s, c, EvRotate(kid, secret, now)).keys;
      Replaced(s.keys, after, kid, secret, now, true) && NoneOverdue(after, now)
  {
    hide Moved;
  }

  /** A rotation keeps the signing key exactly if it was made less than the rotation interval ago;
      otherwise, or if there is none, the new key signs from now on. No verification key whose time is
      over is left. */
  lemma {:induction false} RotatesExactly(c: Config, es: seq<Event>, kid: Kid, secret: nat, now: int)
    requires Run(c, es).clock <= now && kid !in Run(c, es).keys && c.rotation > 0
    ensures var s, t := Run(c, es), Run(c, es + [EvRotate(kid, secret, now)]);
      && NoneOverdue(t.keys, now)
      && (s.keys == map[] ==> Replaced(s.keys, t.keys, kid, secret, now, true))
      && (forall i: nat, signer | MadeBy(c, es, i, signer) && IsSigning(s.keys, signer) ::
            Replaced(s.keys, t.keys, kid, secret, now, now - es[i].now >= c.rotation))
  {
    var s := Run(c, es);
    Always(c, es);
    RunOne(c, es, EvRotate(kid, secret, now));
    hide Step, Inv, Run, Replaced, NoneOverdue;
    if s.keys == map[] {
      FirstKey(s, c, kid, secret, now);
    } else {
      var k := Signer(s, c);
      RotateReplaces(s, c, kid, secret, now, k);
    }
    forall i: nat, signer | MadeBy(c, es, i, signer) && IsSigning(s.keys, signer)
      ensures Replaced(s.keys, Run(c, es + [EvRotate(kid, secret, now)]).keys, kid, secret, now, now - es[i].now >= c.rotation)
    {
      KeysAsMade(c, es, signer);
      var j: nat :| MadeBy(c, es, j, signer) && AsMade(s.keys, signer, es[j]);
      MadeOnce(c, es, i, j, signer);
      RotateReplaces(s, c, kid, secret, now, signer);
    }
  }

  lemma Signer(s: Sys, c: Config) returns (k: Kid)
    requires Inv(s, c) && s.keys != map[]
    ensures IsSigning(s.keys, k)
  {
    k :| IsSigning(s.keys, k);
  }

  /** A forced generation always makes the new key the signing one. */
  lemma {:induction false} GeneratesExactly(c: Config, es: seq<Event>, kid: Kid, secret: nat, now: int)
    requires Run(c, es).clock <= now && kid !in Run(c, es).keys && c.rotation > 0
    ensures Replaced(Run(c, es).keys, Run(c, es + [EvGenerate(kid, secret, now)]).keys, kid, secret, now, true)
  {
    RunOne(c, es, EvGenerate(kid, secret, now));
    hide Run, Moved;
  }

  /** A key that stopped signing is kept for verification for the longest lifetime of a token, the
      configured one or else thirty-one days, and two minutes. */
  lemma {:induction false} DemotedKept(c: Config, es: seq<Event>, kid: Kid)
    requires kid in Run(c, es).keys && !IsSigning(Run(c, es).keys, kid)
    ensures kid in Run(c, es).moved
    ensures Run(c, es).keys[kid].verifyUntil == Run(c, es).moved[kid] + (if c.maxTtl > 0 then c.maxTtl else 31 * DAY) + 2 * MINUTE
  {
    Always(c, es);
    assert KeyOk(Run(c, es), c, kid);
    hide Run;
  }
}

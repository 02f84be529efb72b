/** What the updates of an OAuth client come to over a run: whose count, what each field holds, and
    when each of the two revisions rises. */
module ClientUpdates {
  import opened Base
  import opened ClientRevision

  datatype Field = Identity | Redirects | Grants | Scopes | OptionalScopes | Claims

  function Get(c: Client, f: Field): seq<string> {
    match f
    case Identity => c.identity
    case Redirects => c.redirects
    case Grants => c.grants
    case Scopes => c.scopes
    case OptionalScopes => c.optionalScopes
    case Claims => c.claims
  }

  function Asked(r: Request, f: Field): Option<seq<string>> {
    match f
    case Identity => r.identity
    case Redirects => r.redirects
    case Grants => r.grants
    case Scopes => r.scopes
    case OptionalScopes => r.optionalScopes
    case Claims => r.claims
  }

  /** The client's owner, or an administrator, asks for an update that passes validation. */
  predicate Counts(c: Client, e: Event) {
    e.EvUpdate? && e.accepted && (e.actor == None || e.actor == c.owner)
  }

  /** An update of anybody else, or one that is not valid, changes nothing; the owner is changed by
      nothing but a change of owner. */
  lemma OthersChangeNothing(c: Client, e: Event)
    ensures e.EvUpdate? && !Counts(c, e) ==> Step(c, e) == c
    ensures Step(c, e).owner == if e.EvOwner? then e.owner else c.owner
  {}

  lemma FieldStep(c: Client, e: Event, f: Field)
    ensures Get(Step(c, e), f) == if Counts(c, e) && Asked(e.request, f).Some? then Asked(e.request, f).value else Get(c, f)
  {}

  lemma PolicyStep(c: Client, e: Event)
    ensures Step(c, e).accessPolicy ==
      if !Counts(c, e) then c.accessPolicy
      else if e.request.accessPolicy.Some? && e.request.accessPolicy.value != "" then e.request.accessPolicy.value
      else if e.request.accessPolicy.None? && c.accessPolicy != "" then c.accessPolicy
      else "open"
  {}

  /** The `k`-th event is an update that counts and asks for the field. */
  predicate Asks(c: Client, es: seq<Event>, k: nat, f: Field) {
    k < |es| && Counts(Run(c, es[..k]), es[k]) && Asked(es[k].request, f).Some?
  }

  lemma {:induction false} AsksFront(c: Client, es: seq<Event>, k: nat, f: Field)
    requires k < |es| - 1
    ensures Asks(c, es, k, f) <==> Asks(c, es[..|es| - 1], k, f)
  {
    assert es[..|es| - 1][..k] == es[..k];
  }

  /** The `k`-th event is the last that asks for the field. */
  ghost predicate LastAsks(c: Client, es: seq<Event>, k: nat, f: Field) {
    Asks(c, es, k, f) && forall j: nat | k < j < |es| :: !Asks(c, es, j, f)
  }

  lemma {:induction false} LastAsksFront(c: Client, es: seq<Event>, k: nat, f: Field)
    requires es != [] && LastAsks(c, es, k, f)
    ensures k == |es| - 1 || (LastAsks(c, es[..|es| - 1], k, f) && !Asks(c, es, |es| - 1, f))
  {
    assert k < |es|;
    hide Asks;
    var front := es[..|es| - 1];
    if k < |es| - 1 {
      AsksFront(c, es, k, f);
      forall j: nat | k < j < |front| ensures !Asks(c, front, j, f) { AsksFront(c, es, j, f); }
    }
  }

  lemma {:induction false} AsksLast(c: Client, es: seq<Event>, f: Field)
    requires es != []
    ensures Asks(c, es, |es| - 1, f) <==> Counts(Run(c, es[..|es| - 1]), es[|es| - 1]) && Asked(es[|es| - 1].request, f).Some?
  {
    hide Run, Counts, Asked;
  }

  /** A field holds what the last update that counts and asked for it asked for. */
  lemma {:induction false} FieldHoldsLastAsked(c: Client, es: seq<Event>, f: Field, k: nat)
    requires LastAsks(c, es, k, f)
    ensures es[k].EvUpdate? && Asked(es[k].request, f) == Some(Get(Run(c, es), f))
    decreases |es|
  {
    var front, e := es[..|es| - 1], es[|es| - 1];
    LastAsksFront(c, es, k, f);
    FieldStep(Run(c, front), e, f);
    AsksLast(c, es, f);
    hide Step, Asked, Get, Asks, LastAsks;
    if k < |front| { FieldHoldsLastAsked(c, front, f, k); }
  }

  /** Without such an update it stays as it was. */
  lemma {:induction false} FieldStays(c: Client, es: seq<Event>, f: Field)
    requires forall k: nat :: !Asks(c, es, k, f)
    ensures Get(Run(c, es), f) == Get(c, f)
    decreases |es|
  {
    if es != [] {
      var front, e := es[..|es| - 1], es[|es| - 1];
      FieldStep(Run(c, front), e, f);
      AsksLast(c, es, f);
      hide Step, Asked, Get;
      forall k: nat ensures !Asks(c, front, k, f) { if k < |front| { AsksFront(c, es, k, f); } }
      FieldStays(c, front, f);
    }
  }

  // ---------------------------------------------------------------- the two revisions

  /** The event changes what the client shows of itself, or its publisher's verification. */
  predicate ShowsOther(c: Client, e: Event) {
    e.EvPublisher? || (Counts(c, e) && e.request.identity.Some? && e.request.identity.value != c.identity)
  }

  /** Something that `a` allowed is missing in `b`, or users are sent or let in differently. */
  predicate TakesAway(a: Client, b: Client) {
    || (exists x | x in a.scopes :: x !in b.scopes)
    || (exists x | x in a.grants :: x !in b.grants)
    || (exists x | x in a.claims :: x !in b.claims)
    || |a.redirects| != |b.redirects| || (exists x | x in a.redirects :: x !in b.redirects) || (exists x | x in b.redirects :: x !in a.redirects)
    || a.accessPolicy != b.accessPolicy
  }

  /** How many events of the run are of that kind. */
  function CountOf(c: Client, es: seq<Event>, kind: (Client, Event) -> bool): nat
    decreases |es|
  {
    if es == [] then 0
    else CountOf(c, es[..|es| - 1], kind) + if kind(Run(c, es[..|es| - 1]), es[|es| - 1]) then 1 else 0
  }

  predicate Narrows(c: Client, e: Event) {
    TakesAway(c, Step(c, e))
  }

  lemma RevisionsStep(c: Client, e: Event)
    ensures Step(c, e).identityRevision == c.identityRevision + if ShowsOther(c, e) then 1 else 0
    ensures Step(c, e).authorizationRevision == c.authorizationRevision + if Narrows(c, e) then 1 else 0
  {
    StepRevision(c, e);
  }

  /** The identity revision counts the changes of what the client shows; the authorization revision
      counts the updates that took something away. */
  lemma {:induction false} RevisionsCount(c: Client, es: seq<Event>)
    ensures Run(c, es).identityRevision == c.identityRevision + CountOf(c, es, ShowsOther)
    ensures Run(c, es).authorizationRevision == c.authorizationRevision + CountOf(c, es, Narrows)
    decreases |es|
  {
    if es != [] {
      RevisionsCount(c, es[..|es| - 1]);
      RevisionsStep(Run(c, es[..|es| - 1]), es[|es| - 1]);
      hide Step, ShowsOther, Narrows;
    }
  }

  lemma {:induction false} CountGrows(c: Client, es: seq<Event>, i: nat, kind: (Client, Event) -> bool)
    requires i <= |es|
    ensures CountOf(c, es[..i], kind) <= CountOf(c, es, kind)
    ensures CountOf(c, es[..i], kind) == CountOf(c, es, kind) <==> NoneFrom(c, es, i, kind)
    decreases |es|
  {
    if i == |es| {
      assert es[..i] == es;
    } else {
      var front := es[..|es| - 1];
      assert front[..i] == es[..i];
      CountGrows(c, front, i, kind);
      NoneFromFront(c, es, i, kind);
    }
  }

  /** No event from the `i`-th on is of the kind. */
  ghost predicate NoneFrom(c: Client, es: seq<Event>, i: nat, kind: (Client, Event) -> bool) {
    forall k: nat | i <= k < |es| :: !kind(At(c, es, k), es[k])
  }

  lemma {:induction false} NoneFromFront(c: Client, es: seq<Event>, i: nat, kind: (Client, Event) -> bool)
    requires i < |es|
    ensures NoneFrom(c, es, i, kind) <==> NoneFrom(c, es[..|es| - 1], i, kind) && !kind(Run(c, es[..|es| - 1]), es[|es| - 1])
  {
    var front := es[..|es| - 1];
    hide Run;
    forall k: nat | k <= |front| ensures At(c, es, k) == At(c, front, k) { assert front[..k] == es[..k]; }
    assert front[..|front|] == front;
    if NoneFrom(c, es, i, kind) {
      forall k: nat | i <= k < |front| ensures !kind(At(c, front, k), front[k]) { assert !kind(At(c, es, k), es[k]); }
      assert !kind(At(c, es, |front|), es[|front|]);
    }
    if NoneFrom(c, front, i, kind) && !kind(Run(c, front), es[|es| - 1]) {
      forall k: nat | i <= k < |es| ensures !kind(At(c, es, k), es[k]) {
        if k < |front| { assert !kind(At(c, front, k), front[k]); }
      }
    }
  }

  /** The identity revision is the same at two times exactly when nothing the client shows changed
      in between. */
  lemma {:induction false} SameIdentityExactly(c: Client, es: seq<Event>, i: nat)
    requires i <= |es|
    ensures At(c, es, i).identityRevision == Run(c, es).identityRevision <==> NoneFrom(c, es, i, ShowsOther)
  {
    RevisionsCount(c, es);
    RevisionsCount(c, es[..i]);
    hide Run, NoneFrom;
    CountGrows(c, es, i, ShowsOther);
  }
}

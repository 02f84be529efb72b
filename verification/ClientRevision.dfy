/** The authorization revision of an OAuth client (internal/client/store.go): a counter that stands
    in for a subset relation. While it stays the same, whatever updates ran, nothing that was once
    allowed has been taken away, so the rechecks of a grant made at that revision cannot fail. */
module ClientRevision {
  import opened Base
  import opened Text

  datatype Client = Client(identity: seq<string>, redirects: seq<string>, grants: seq<string>, scopes: seq<string>,
                           optionalScopes: seq<string>, claims: seq<string>, accessPolicy: string, owner: Option<string>,
                           identityRevision: nat, authorizationRevision: nat)

  /** What an update asks for; a missing field leaves the client's own. */
  datatype Request = Request(identity: Option<seq<string>>, redirects: Option<seq<string>>, grants: Option<seq<string>>,
                             scopes: Option<seq<string>>, optionalScopes: Option<seq<string>>, claims: Option<seq<string>>,
                             accessPolicy: Option<string>)

  datatype Error = NotOwner | Invalid

  const OPEN := "open"

  function Or<T>(o: Option<T>, was: T): T {
    if o.Some? then o.value else was
  }

  /** applyClientUpdate, before validation. */
  function Apply(c: Client, r: Request): Client {
    var policy := Or(r.accessPolicy, c.accessPolicy);
    c.(identity := Or(r.identity, c.identity), redirects := Or(r.redirects, c.redirects), grants := Or(r.grants, c.grants),
       scopes := Or(r.scopes, c.scopes), optionalScopes := Or(r.optionalScopes, c.optionalScopes),
       claims := Or(r.claims, c.claims), accessPolicy := if policy == "" then OPEN else policy)
  }

  /** isSubset. */
  predicate Within(a: seq<string>, b: seq<string>) {
    forall x :: x in a ==> x in b
  }

  predicate SameStrings(a: seq<string>, b: seq<string>) {
    |a| == |b| && Within(a, b) && Within(b, a)
  }

  /** Nothing that `a` allowed is missing in `b`. */
  predicate Keeps(a: Client, b: Client) {
    && SameStrings(a.redirects, b.redirects) && a.accessPolicy == b.accessPolicy
    && Within(a.grants, b.grants) && Within(a.scopes, b.scopes) && Within(a.claims, b.claims)
  }

  /** updateRequestWithOAuthPolicy. `valid` is the verdict of the validators on the updated client;
      an actor that is no administrator must own it. */
  function Update(c: Client, r: Request, actor: Option<string>, valid: Client -> bool): Result<Client, Error> {
    if actor.Some? && c.owner != actor then Err(NotOwner)
    else
      var u := Apply(c, r);
      if !valid(u) then Err(Invalid)
      else Ok(u.(identityRevision := c.identityRevision + if u.identity != c.identity then 1 else 0,
                 authorizationRevision := c.authorizationRevision + if Keeps(c, u) then 0 else 1))
  }

  datatype Event =
    | EvUpdate(request: Request, actor: Option<string>, accepted: bool)
    | EvOwner(owner: Option<string>)
    | EvPublisher

  /** UpdateOwner and UpdatePublisherVerification touch nothing that the revision guards. */
  function Step(c: Client, e: Event): Client {
    match e
    case EvUpdate(request, actor, accepted) =>
      (match Update(c, request, actor, _ => accepted) case Ok(u) => u case Err(_) => c)
    case EvOwner(owner) => c.(owner := owner)
    case EvPublisher => c.(identityRevision := c.identityRevision + 1)
  }

  function Run(c: Client, es: seq<Event>): Client
    decreases |es|
  {
    if es == [] then c else Step(Run(c, es[..|es| - 1]), es[|es| - 1])
  }

  // ---------------------------------------------------------------- the revision

  lemma StepRevision(c: Client, e: Event)
    ensures Step(c, e).authorizationRevision == c.authorizationRevision + if Keeps(c, Step(c, e)) then 0 else 1
  {}

  lemma KeepsTransitive(a: Client, b: Client, c: Client)
    requires Keeps(a, b) && Keeps(b, c)
    ensures Keeps(a, c)
  {}

  /** The client after the first k updates. */
  function At(c: Client, es: seq<Event>, k: nat): Client
    requires k <= |es|
  {
    Run(c, es[..k])
  }

  lemma {:induction false} NeverFalls(c: Client, es: seq<Event>, i: nat)
    requires i <= |es|
    ensures At(c, es, i).authorizationRevision <= Run(c, es).authorizationRevision
    decreases |es|
  {
    if i == |es| {
      assert es[..i] == es;
    } else {
      var front := es[..|es| - 1];
      assert front[..i] == es[..i];
      NeverFalls(c, front, i);
      StepRevision(Run(c, front), es[|es| - 1]);
    }
  }

  /** The same revision at two times: nothing allowed at the first is missing at the second. */
  lemma {:induction false} SameRevisionKeeps(c: Client, es: seq<Event>, i: nat)
    requires i <= |es| && At(c, es, i).authorizationRevision == Run(c, es).authorizationRevision
    ensures Keeps(At(c, es, i), Run(c, es))
    decreases |es|
  {
    if i == |es| {
      assert es[..i] == es;
    } else {
      var front, last := es[..|es| - 1], es[|es| - 1];
      assert front[..i] == es[..i];
      StepRevision(Run(c, front), last);
      NeverFalls(c, front, i);
      SameRevisionKeeps(c, front, i);
      hide Keeps, Step;
      KeepsTransitive(At(c, es, i), Run(c, front), Run(c, es));
    }
  }

  /** The k-th update takes nothing away. */
  predicate Harmless(c: Client, es: seq<Event>, k: nat)
    requires k < |es|
  {
    Keeps(At(c, es, k), At(c, es, k + 1))
  }

  lemma {:induction false} HarmlessFront(c: Client, es: seq<Event>, k: nat)
    requires k < |es| - 1
    ensures Harmless(c, es, k) <==> Harmless(c, es[..|es| - 1], k)
  {
    hide Keeps, Run;
    var front := es[..|es| - 1];
    assert front[..k] == es[..k] && front[..k + 1] == es[..k + 1];
  }

  /** Every update from the i-th on is harmless. */
  ghost predicate AllHarmless(c: Client, es: seq<Event>, i: nat) {
    forall k :: i <= k < |es| ==> Harmless(c, es, k)
  }

  lemma AllHarmlessFront(c: Client, es: seq<Event>, i: nat)
    requires i < |es|
    ensures AllHarmless(c, es, i) <==> AllHarmless(c, es[..|es| - 1], i) && Harmless(c, es, |es| - 1)
  {
    hide Harmless;
    var front := es[..|es| - 1];
    forall k | i <= k < |front| ensures Harmless(c, es, k) <==> Harmless(c, front, k) { HarmlessFront(c, es, k); }
  }

  /** Exactly when the revision stays: no update in between takes anything away. */
  lemma {:induction false} SameRevisionExactly(c: Client, es: seq<Event>, i: nat)
    requires i <= |es|
    ensures At(c, es, i).authorizationRevision == Run(c, es).authorizationRevision <==> AllHarmless(c, es, i)
    decreases |es|
  {
    hide Keeps, Step, AllHarmless;
    if i == |es| {
      assert es[..i] == es;
      assert AllHarmless(c, es, i) by { NoneLeft(c, es); }
    } else {
      var front, last := es[..|es| - 1], es[|es| - 1];
      assert front[..i] == es[..i];
      assert es[..|es|] == es;
      StepRevision(Run(c, front), last);
      NeverFalls(c, front, i);
      SameRevisionExactly(c, front, i);
      AllHarmlessFront(c, es, i);
    }
  }

  lemma NoneLeft(c: Client, es: seq<Event>)
    ensures AllHarmless(c, es, |es|)
  {}

  const AS_IS := Request(None, None, None, None, None, None, None)
  const NARROW := EvUpdate(AS_IS.(scopes := Some(["openid"])), None, true)
  const WIDEN := EvUpdate(AS_IS.(scopes := Some(["openid", "email"])), None, true)

  lemma Narrowed(c: Client)
    requires c.scopes == ["openid", "email"] && c.accessPolicy == OPEN
    ensures Step(c, NARROW) == c.(scopes := ["openid"], authorizationRevision := c.authorizationRevision + 1)
  {
    assert "email" in c.scopes && "email" != "openid";
    assert !Within(c.scopes, ["openid"]);
  }

  /** The revision remembers more than the contents: taking a scope away and giving it back leaves
      the same client at another revision. */
  lemma NarrowThenWiden(c: Client)
    requires c.scopes == ["openid", "email"] && c.accessPolicy == OPEN
    ensures Run(c, [NARROW, WIDEN]) == c.(authorizationRevision := c.authorizationRevision + 1)
  {
    assert [NARROW, WIDEN][..1] == [NARROW] && [NARROW][..0] == [];
    Narrowed(c);
    assert Run(c, [NARROW]) == Step(c, NARROW);
    assert Run(c, [NARROW, WIDEN]) == Step(Step(c, NARROW), WIDEN);
  }

  // ---------------------------------------------------------------- the rechecks of a grant

  /** Scope definitions of the OAuth policy: the claims that a scope releases. */
  type Policy = map<string, seq<string>>

  const ORDERED := ["sub", "preferred_username", "name", "picture", "email", "email_verified", "role"]

  /** A claim that a granted scope releases and the client may have. */
  predicate Released(claim: string, scopes: seq<string>, allowed: seq<string>, policy: Policy) {
    claim in allowed && exists s | s in scopes :: s in policy && claim in policy[s]
  }

  predicate Distinct(words: seq<string>) {
    forall i, j :: 0 <= i < j < |words| ==> words[i] != words[j]
  }

  /** What parseAndValidateScopes accepts. */
  predicate ScopesOk(raw: string, allowed: seq<string>) {
    Within(Fields(raw), allowed) && Distinct(Fields(raw))
  }

  /** What a user granted, and at which revision of the client. */
  datatype Grant = Grant(scopes: seq<string>, claims: seq<string>, revision: nat)

  /** The grant was made from scopes and claims that the client had. */
  predicate GrantedBy(g: Grant, c: Client, policy: Policy) {
    && g.revision == c.authorizationRevision
    && Within(g.scopes, c.scopes) && Distinct(g.scopes) && (forall i :: 0 <= i < |g.scopes| ==> Word(g.scopes[i]))
    && (forall x :: x in g.claims ==> x in ORDERED && Released(x, g.scopes, c.claims, policy))
  }

  /** Of a grant made at the current revision no recheck fails: its scopes, joined and split again,
      are still allowed, and its claims are still released. */
  lemma {:induction false} RechecksPass(c: Client, es: seq<Event>, i: nat, g: Grant, policy: Policy)
    requires i <= |es| && GrantedBy(g, At(c, es, i), policy)
    requires Run(c, es).authorizationRevision == g.revision
    ensures ScopesOk(Join(g.scopes), Run(c, es).scopes)
    ensures Within(g.scopes, Run(c, es).scopes)
    ensures forall x :: x in g.claims ==> x in ORDERED && Released(x, g.scopes, Run(c, es).claims, policy)
    ensures SameStrings(At(c, es, i).redirects, Run(c, es).redirects) && At(c, es, i).accessPolicy == Run(c, es).accessPolicy
  {
    SameRevisionKeeps(c, es, i);
    FieldsJoin(g.scopes);
    hide Run;
  }

  method IsSubset(candidate: seq<string>, allowed: seq<string>) returns (r: bool)
    ensures r <==> Within(candidate, allowed)
  {
    var i := 0;
    while i < |candidate|
      invariant 0 <= i <= |candidate| && Within(candidate[..i], allowed)
    {
      if candidate[i] !in allowed { return false; }
      assert candidate[..i + 1] == candidate[..i] + [candidate[i]];
      i := i + 1;
    }
    assert candidate[..i] == candidate;
    return true;
  }

  method SameStringSet(left: seq<string>, right: seq<string>) returns (r: bool)
    ensures r <==> SameStrings(left, right)
  {
    if |left| != |right| { return false; }
    r := IsSubset(left, right);
    if r { r := IsSubset(right, left); }
  }

  /** scopesAreSubset: the allowed ones in a set first. */
  method ScopesAreSubset(requested: seq<string>, allowed: seq<string>) returns (r: bool)
    ensures r <==> Within(requested, allowed)
  {
    var known: set<string> := {};
    for i := 0 to |allowed|
      invariant forall x :: x in known <==> x in allowed[..i]
    {
      assert allowed[..i + 1] == allowed[..i] + [allowed[i]];
      known := known + {allowed[i]};
    }
    assert allowed[..|allowed|] == allowed;
    var i := 0;
    while i < |requested|
      invariant 0 <= i <= |requested| && Within(requested[..i], allowed)
    {
      if requested[i] !in known { return false; }
      assert requested[..i + 1] == requested[..i] + [requested[i]];
      i := i + 1;
    }
    assert requested[..i] == requested;
    return true;
  }

  /** Lexicographic order of strings, on characters. */
  predicate Below(x: string, y: string) {
    if x == "" then true
    else if y == "" then false
    else x[0] < y[0] || (x[0] == y[0] && Below(x[1..], y[1..]))
  }

  lemma BelowTotal(x: string, y: string)
    ensures Below(x, y) || Below(y, x)
  {}

  predicate Ascending(words: seq<string>) {
    forall i | 0 < i < |words| :: Below(words[i - 1], words[i])
  }

  /** `word` put after every word of an ascending list that is not above it. */
  function Insert(words: seq<string>, word: string): (r: seq<string>)
    ensures |r| == |words| + 1
  {
    if words == [] || Below(words[|words| - 1], word) then words + [word]
    else Insert(words[..|words| - 1], word) + [words[|words| - 1]]
  }

  lemma {:induction false} InsertKeeps(words: seq<string>, word: string)
    ensures multiset(Insert(words, word)) == multiset(words) + multiset{word}
  {
    if words != [] {
      assert words == words[..|words| - 1] + [words[|words| - 1]];
      InsertKeeps(words[..|words| - 1], word);
    }
  }

  /** sort.Strings. */
  function SortStrings(words: seq<string>): seq<string> {
    if words == [] then [] else Insert(SortStrings(words[..|words| - 1]), words[|words| - 1])
  }

  lemma {:induction false} InsertAscends(words: seq<string>, word: string)
    requires Ascending(words)
    ensures Ascending(Insert(words, word))
    ensures Insert(words, word)[|words|] == word || (words != [] && Insert(words, word)[|words|] == words[|words| - 1])
  {
    if words != [] && !Below(words[|words| - 1], word) {
      var front, last := words[..|words| - 1], words[|words| - 1];
      BelowTotal(last, word);
      InsertAscends(front, word);
      var inserted := Insert(front, word);
      hide Below;
      assert Below(inserted[|front|], last);
    }
  }

  /** The sorted list is ascending and has the same words. */
  lemma {:induction false} SortSorts(words: seq<string>)
    ensures Ascending(SortStrings(words)) && multiset(SortStrings(words)) == multiset(words)
  {
    if words != [] {
      var front := words[..|words| - 1];
      assert words == front + [words[|words| - 1]];
      SortSorts(front);
      InsertAscends(SortStrings(front), words[|words| - 1]);
      InsertKeeps(SortStrings(front), words[|words| - 1]);
    }
  }

  method ParseAndValidateScopes(raw: string, allowed: seq<string>) returns (r: Result<seq<string>, ()>)
    ensures r.Ok? <==> ScopesOk(raw, allowed)
    ensures r.Ok? ==> multiset(r.value) == multiset(Fields(raw)) && Ascending(r.value)
  {
    var requested := Fields(raw);
    var seen: set<string> := {};
    var result := [];
    var i := 0;
    while i < |requested|
      invariant 0 <= i <= |requested| && result == requested[..i]
      invariant forall x :: x in seen <==> x in result
      invariant Within(result, allowed) && Distinct(result)
    {
      var scope := requested[i];
      if scope !in allowed { return Err(()); }
      if scope in seen { return Err(()); }
      seen, result := seen + {scope}, result + [scope];
      i := i + 1;
    }
    assert result == requested;
    SortSorts(result);
    return Ok(SortStrings(result));
  }

  function Filter(words: seq<string>, keep: string -> bool): seq<string> {
    if words == [] then []
    else
      var last := words[|words| - 1];
      Filter(words[..|words| - 1], keep) + if keep(last) then [last] else []
  }

  /** claimsForGrantedScopes over scopeClaimsForClient: the released claims in their fixed order. */
  method CurrentClaims(scopes: seq<string>, allowed: seq<string>, policy: Policy) returns (result: seq<string>)
    ensures forall x :: x in result <==> x in ORDERED && Released(x, scopes, allowed, policy)
    ensures Distinct(result) && result == Filter(ORDERED, x => Released(x, scopes, allowed, policy))
  {
    var selected: set<string> := {};
    for i := 0 to |scopes|
      invariant forall x :: x in selected <==> Released(x, scopes[..i], allowed, policy)
    {
      assert scopes[..i + 1] == scopes[..i] + [scopes[i]];
      if scopes[i] in policy {
        selected := selected + set x | x in policy[scopes[i]] && x in allowed;
      }
    }
    assert scopes[..|scopes|] == scopes;
    assert Distinct(ORDERED);
    result := [];
    for j := 0 to |ORDERED|
      invariant forall x :: x in result <==> x in ORDERED[..j] && x in selected
      invariant Distinct(result) && result == Filter(ORDERED[..j], x => Released(x, scopes, allowed, policy))
    {
      assert ORDERED[..j + 1] == ORDERED[..j] + [ORDERED[j]];
      assert ORDERED[..j + 1][..j] == ORDERED[..j];
      if ORDERED[j] in selected { result := result + [ORDERED[j]]; }
    }
    assert ORDERED[..|ORDERED|] == ORDERED;
  }

  // ---------------------------------------------------------------- the client row

  class Store {
    var client: Client

    constructor (client: Client)
      ensures this.client == client
    {
      this.client := client;
    }

    method UpdateRequest(request: Request, actor: Option<string>, valid: Client -> bool) returns (r: Result<(), Error>)
      modifies this
      ensures match Update(old(client), request, actor, valid)
        case Ok(u) => r == Ok(()) && client == u
        case Err(e) => r == Err(e) && client == old(client)
    {
      if actor.Some? && client.owner != actor { return Err(NotOwner); }
      var updated := Apply(client, request);
      if !valid(updated) { return Err(Invalid); }
      var identityChanged := client.identity != updated.identity;
      var kept := SameStringSet(client.redirects, updated.redirects);
      if kept { kept := IsSubset(client.grants, updated.grants); }
      if kept { kept := client.accessPolicy == updated.accessPolicy; }
      if kept { kept := IsSubset(client.scopes, updated.scopes); }
      if kept { kept := IsSubset(client.claims, updated.claims); }
      if identityChanged { updated := updated.(identityRevision := updated.identityRevision + 1); }
      if !kept { updated := updated.(authorizationRevision := updated.authorizationRevision + 1); }
      client := updated;
      return Ok(());
    }
  }
}

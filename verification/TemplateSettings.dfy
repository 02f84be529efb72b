/** Normalization of the email template settings: what is accepted, and that every mail built from
    accepted settings renders, whatever the values, and shows its required variables. */
module TemplateSettings {
  import opened Base
  import opened Text
  import opened TemplateScanner

  const SITE_NAME := "site_name"
  const MAX_SUBJECT := 160
  const MAX_HEADING := 120
  const MAX_BODY := 2400
  const MAX_BUTTON_LABEL := 48
  const MAX_FOOTER := 600

  datatype Content = Content(subject: string, heading: string, body: string, buttonLabel: string)

  datatype Settings = Settings(footer: string, templates: map<string, Content>)

  datatype Definition = Definition(id: string, action: bool, bodyVariables: seq<string>, required: seq<string>, standard: Content)

  predicate DistinctIds(defs: seq<Definition>) {
    forall i, j :: 0 <= i < j < |defs| ==> defs[i].id != defs[j].id
  }

  function Ids(defs: seq<Definition>): set<string> {
    set i | 0 <= i < |defs| :: defs[i].id
  }

  function Trimmed(c: Content): Content {
    Content(TrimSpace(c.subject), TrimSpace(c.heading), TrimSpace(c.body), TrimSpace(c.buttonLabel))
  }

  /** The content that is set for a message type, or its standard one. */
  function Chosen(value: Settings, d: Definition): Content {
    if d.id in value.templates then value.templates[d.id] else d.standard
  }

  predicate ContentOk(d: Definition, c: Content) {
    && Valid(c.subject, MAX_SUBJECT, false, [SITE_NAME])
    && Valid(c.heading, MAX_HEADING, false, [])
    && Valid(c.body, MAX_BODY, true, d.bodyVariables)
    && (forall v :: v in d.required ==> v in Used(c.body))
    && (if d.action then Valid(c.buttonLabel, MAX_BUTTON_LABEL, false, []) else c.buttonLabel == "")
  }

  predicate FooterOk(footer: string) {
    footer == "" || Valid(footer, MAX_FOOTER, true, [SITE_NAME])
  }

  predicate Acceptable(value: Settings, defs: seq<Definition>) {
    && FooterOk(TrimSpace(value.footer))
    && (forall id :: id in value.templates ==> id in Ids(defs))
    && (forall i :: 0 <= i < |defs| ==> ContentOk(defs[i], Trimmed(Chosen(value, defs[i]))))
  }

  /** Every message type is there, trimmed, and nothing else. */
  predicate Normal(value: Settings, defs: seq<Definition>, n: Settings) {
    && n.footer == TrimSpace(value.footer) && n.templates.Keys == Ids(defs)
    && (forall i :: 0 <= i < |defs| ==> defs[i].id in n.templates && n.templates[defs[i].id] == Trimmed(Chosen(value, defs[i])))
  }

  method CheckContent(d: Definition, c: Content) returns (ok: bool)
    ensures ok <==> ContentOk(d, c)
  {
    hide Valid, Used;
    ok := ValidateEmailTemplateText(c.subject, MAX_SUBJECT, false, [SITE_NAME]);
    if !ok { return; }
    ok := ValidateEmailTemplateText(c.heading, MAX_HEADING, false, []);
    if !ok { return; }
    ok := ValidateEmailTemplateText(c.body, MAX_BODY, true, d.bodyVariables);
    if !ok { return; }
    ok := RequireEmailTemplateVariables(c.body, d.required);
    if !ok { return; }
    if d.action {
      ok := ValidateEmailTemplateText(c.buttonLabel, MAX_BUTTON_LABEL, false, []);
    } else {
      ok := c.buttonLabel == "";
    }
  }

  lemma IdsSnoc(defs: seq<Definition>, i: nat)
    requires i < |defs|
    ensures Ids(defs[..i + 1]) == Ids(defs[..i]) + {defs[i].id}
  {
    assert defs[..i + 1] == defs[..i] + [defs[i]];
    forall id | id in Ids(defs[..i]) ensures id in Ids(defs[..i + 1]) {
      var k :| 0 <= k < i && defs[..i][k].id == id;
      assert defs[..i + 1][k].id == id;
    }
    assert defs[..i + 1][i] == defs[i];
  }

  /** NormalizeEmailTemplateSettings. */
  method NormalizeEmailTemplateSettings(value: Settings, defs: seq<Definition>) returns (r: Result<Settings, ()>)
    requires DistinctIds(defs)
    ensures r.Ok? <==> Acceptable(value, defs)
    ensures r.Ok? ==> Normal(value, defs, r.value)
  {
    hide Valid, ContentOk;
    var footer := TrimSpace(value.footer);
    if footer != "" {
      var ok := ValidateEmailTemplateText(footer, MAX_FOOTER, true, [SITE_NAME]);
      if !ok { return Err(()); }
    }
    if exists id | id in value.templates :: id !in Ids(defs) { return Err(()); }
    var normalized: map<string, Content> := map[];
    var i := 0;
    while i < |defs|
      invariant 0 <= i <= |defs| && normalized.Keys == Ids(defs[..i])
      invariant forall j :: 0 <= j < i ==> defs[j].id in normalized && normalized[defs[j].id] == Trimmed(Chosen(value, defs[j]))
      invariant forall j :: 0 <= j < i ==> ContentOk(defs[j], Trimmed(Chosen(value, defs[j])))
    {
      var content := Trimmed(Chosen(value, defs[i]));
      var ok := CheckContent(defs[i], content);
      if !ok { return Err(()); }
      IdsSnoc(defs, i);
      normalized := normalized[defs[i].id := content];
      i := i + 1;
    }
    assert defs[..i] == defs;
    return Ok(Settings(footer, normalized));
  }

  // ---------------------------------------------------------------- properties

  lemma {:induction false} TrimLeftStops(s: string)
    ensures TrimLeft(s) == "" || !IsSpace(TrimLeft(s)[0])
  {
    if s != "" && IsSpace(s[0]) { TrimLeftStops(s[1..]); }
  }

  /** Trimming on the right keeps the first character, or leaves nothing. */
  lemma {:induction false} TrimRightStops(s: string)
    ensures TrimRight(s) == "" || (!IsSpace(TrimRight(s)[|TrimRight(s)| - 1]) && TrimRight(s)[0] == s[0])
  {
    if s != "" && IsSpace(s[|s| - 1]) { TrimRightStops(s[..|s| - 1]); }
  }

  lemma TrimTwice(s: string)
    ensures TrimSpace(TrimSpace(s)) == TrimSpace(s)
  {
    TrimLeftStops(s);
    TrimRightStops(TrimLeft(s));
  }

  lemma TrimmedTwice(c: Content)
    ensures Trimmed(Trimmed(c)) == Trimmed(c)
  {
    TrimTwice(c.subject);
    TrimTwice(c.heading);
    TrimTwice(c.body);
    TrimTwice(c.buttonLabel);
  }

  /** Normalized settings are accepted and normalize to themselves. */
  lemma NormalizeTwice(value: Settings, defs: seq<Definition>, n: Settings)
    requires DistinctIds(defs) && Acceptable(value, defs) && Normal(value, defs, n)
    ensures Acceptable(n, defs) && Normal(n, defs, n)
  {
    hide ContentOk, TrimSpace, FooterOk;
    TrimTwice(value.footer);
    forall i | 0 <= i < |defs| ensures Trimmed(Chosen(n, defs[i])) == Trimmed(Chosen(value, defs[i])) {
      TrimmedTwice(Chosen(value, defs[i]));
    }
  }

  lemma EmptyRenders(allowed: seq<string>)
    ensures Renderable("", allowed)
  {}

  /** Every text of a mail built from accepted settings renders, for every assignment of values. */
  lemma NormalizedRenders(value: Settings, defs: seq<Definition>, n: Settings, i: nat)
    requires Acceptable(value, defs) && Normal(value, defs, n) && i < |defs|
    ensures defs[i].id in n.templates
    ensures var c := n.templates[defs[i].id];
      && Renderable(c.subject, [SITE_NAME]) && Renderable(c.heading, []) && Renderable(c.body, defs[i].bodyVariables)
      && Renderable(c.buttonLabel, []) && Renderable(n.footer, [SITE_NAME])
  {
    hide Renderable, Used, TrimSpace;
    EmptyRenders([]);
    EmptyRenders([SITE_NAME]);
    assert ContentOk(defs[i], n.templates[defs[i].id]);
  }

  /** Its body has each required variable among its parsed ones, and renders. */
  lemma RequiredShown(value: Settings, defs: seq<Definition>, n: Settings, i: nat, v: string)
    requires Acceptable(value, defs) && Normal(value, defs, n) && i < |defs| && v in defs[i].required
    ensures defs[i].id in n.templates && Parse(n.templates[defs[i].id].body).Some?
    ensures v in Names(Parse(n.templates[defs[i].id].body).value.segments)
    ensures Renderable(n.templates[defs[i].id].body, defs[i].bodyVariables)
  {
    NormalizedRenders(value, defs, n, i);
    hide Renderable, Used, Parse, TrimSpace, Names;
    assert ContentOk(defs[i], n.templates[defs[i].id]);
    UsedAreParsed(n.templates[defs[i].id].body);
  }
}

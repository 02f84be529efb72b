/** What rendering and validation come to, apart from how the scanner goes about it. */
module TemplateRendering {
  import opened Base
  import opened Text
  import opened TemplateScanner
  import opened TemplateSettings

  // ---------------------------------------------------------------- rendering

  /** Every variable stands for itself: the value of a name is the name between braces. */
  predicate StandsForItself(t: Template, variables: map<string, string>) {
    forall i | 0 <= i < |t.segments| ::
      Name(t.segments[i]) in variables && variables[Name(t.segments[i])] == "{{" + t.segments[i].inner + "}}"
  }

  lemma {:induction false} SubstituteCons(s: Segment, rest: seq<Segment>, variables: map<string, string>)
    ensures Substitute([s] + rest, variables) == s.literal + Value(variables, Name(s)) + Substitute(rest, variables)
  {
    hide Name, Value;
    var all := [s] + rest;
    if rest == [] {
      assert all[..0] == [] && all[0] == s;
      assert Substitute([], variables) == "";
    } else {
      SubstituteCons(s, rest[..|rest| - 1], variables);
      assert all[..|all| - 1] == [s] + rest[..|rest| - 1];
      assert all[|all| - 1] == rest[|rest| - 1];
    }
  }

  lemma {:induction false} SelfSubstitution(t: Template, variables: map<string, string>)
    requires StandsForItself(t, variables)
    ensures Substitute(t.segments, variables) + t.tail == TextOf(t)
    decreases |t.segments|
  {
    hide Name;
    if t.segments != [] {
      var s, rest := t.segments[0], Template(t.segments[1..], t.tail);
      assert t.segments == [s] + rest.segments;
      forall i | 0 <= i < |rest.segments|
        ensures Name(rest.segments[i]) in variables && variables[Name(rest.segments[i])] == "{{" + rest.segments[i].inner + "}}"
      {
        assert rest.segments[i] == t.segments[i + 1];
      }
      SelfSubstitution(rest, variables);
      SubstituteCons(s, rest.segments, variables);
      assert Value(variables, Name(s)) == "{{" + s.inner + "}}";
      assert TextOf(t) == Spell(s) + TextOf(rest);
      hide Substitute, TextOf, Spell;
      SpellAround(s, Substitute(rest.segments, variables), t.tail);
    }
  }

  lemma SpellAround(s: Segment, more: string, tail: string)
    ensures s.literal + ("{{" + s.inner + "}}") + more + tail == Spell(s) + (more + tail)
  {
    assert s.literal + ("{{" + s.inner + "}}") == Spell(s);
  }

  /** Round trip: with every variable standing for itself, rendering gives the text back, so each
      literal, each value and the tail come out in their place and nothing else does. */
  lemma RenderBack(value: string, variables: map<string, string>)
    requires Parse(value).Some? && StandsForItself(Parse(value).value, variables)
    ensures Rendered(value, variables) == value
  {
    ParseExactly(value, Parse(value).value);
    SelfSubstitution(Parse(value).value, variables);
  }

  /** A variable that has no value is rendered as if its value were empty. */
  lemma {:induction false} MissingIsEmpty(segments: seq<Segment>, variables: map<string, string>, name: string)
    requires name !in variables
    ensures Substitute(segments, variables) == Substitute(segments, variables[name := ""])
  {
    hide Name;
    if segments != [] { MissingIsEmpty(segments[..|segments| - 1], variables, name); }
  }

  /** What comes first is reported first: a segment whose name is not allowed, or else what is wrong
      with the rest. */
  lemma ProblemOfFirst(s: Segment, more: string, allowed: seq<string>)
    requires SegmentOk(s)
    ensures Problem(Spell(s) + more, allowed) ==
      if TrimSpace(s.inner) == "" || TrimSpace(s.inner) !in allowed then Some(UnsupportedVariable) else Problem(more, allowed)
  {
    CutComplete(s, more);
  }

  /** And a text that begins with no well-formed segment is malformed, or spells no variable at all. */
  lemma ProblemOfNone(value: string, allowed: seq<string>)
    requires forall s: Segment, more: string | SegmentOk(s) :: value != Spell(s) + more
    ensures Problem(value, allowed) == if NoPair(value, '{') && NoPair(value, '}') then None else Some(MalformedVariable)
  {
    if FirstCut(value).Cut? { CutSound(value); }
    if NoPair(value, '}') { NoIndex(value, '}'); }
    if NoPair(value, '{') { NoIndex(value, '{'); }
    PairAt(value, '{');
    PairAt(value, '}');
    hide FirstCut, SegmentOk, Spell, NoPair, Index;
    PairlessCut(value);
  }

  lemma PairAt(value: string, c: char)
    ensures NoPair(value, c) <==> Index(value, c) < 0
  {
    if Index(value, c) >= 0 { PairBreaks(value, c, Index(value, c), |value|); assert value[..|value|] == value; }
  }

  lemma PairlessCut(value: string)
    ensures FirstCut(value).NoVariable? <==> Index(value, '{') < 0
  {}

  // ---------------------------------------------------------------- validation

  /** What a mail header or body line may hold. */
  predicate Printable(c: char) {
    && ' ' <= c && !('\U{7F}' <= c <= '\U{9F}')
    && c != '\U{200E}' && c != '\U{200F}' && !('\U{202A}' <= c <= '\U{202E}') && !('\U{2066}' <= c <= '\U{2069}')
  }

  /** The text spells a template whose variables are among the allowed ones. */
  ghost predicate Spells(value: string, allowed: seq<string>) {
    exists t :: WellFormed(t) && TextOf(t) == value
      && (forall i | 0 <= i < |t.segments| :: TrimSpace(t.segments[i].inner) != "" && TrimSpace(t.segments[i].inner) in allowed)
  }

  /** A text is valid exactly when it is not empty or too long, holds printable characters and, where
      they are permitted, line feeds, and spells a template with allowed variables. */
  lemma ValidExactly(value: string, limit: nat, allowNewline: bool, allowed: seq<string>)
    ensures Valid(value, limit, allowNewline, allowed) <==>
      && 0 < |value| <= limit
      && (forall i | 0 <= i < |value| :: Printable(value[i]) || (allowNewline && value[i] == '\n'))
      && Spells(value, allowed)
  {
    RenderableExactly(value, allowed);
    hide Renderable, Spells;
    forall i | 0 <= i < |value| ensures Unsafe(value[i], allowNewline) <==> !(Printable(value[i]) || (allowNewline && value[i] == '\n')) {}
  }

  lemma RenderableExactly(value: string, allowed: seq<string>)
    ensures Renderable(value, allowed) <==> Spells(value, allowed)
  {
    hide Parse, WellFormed, TextOf;
    if Renderable(value, allowed) {
      ParseExactly(value, Parse(value).value);
    }
    if Spells(value, allowed) {
      var t :| WellFormed(t) && TextOf(t) == value
        && (forall i | 0 <= i < |t.segments| :: TrimSpace(t.segments[i].inner) != "" && TrimSpace(t.segments[i].inner) in allowed);
      ParseExactly(value, t);
    }
  }

  /** The content of a message is acceptable exactly within these limits: one printable line each for
      subject, heading and, where there is one, the button; a body of printable lines that shows what
      it has to; only the subject may name the site. */
  lemma ContentExactly(d: Definition, c: Content)
    ensures ContentOk(d, c) <==>
      && Valid(c.subject, 160, false, ["site_name"]) && Valid(c.heading, 120, false, [])
      && Valid(c.body, 2400, true, d.bodyVariables) && (forall v | v in d.required :: v in Names(Parse(c.body).value.segments))
      && (d.action ==> Valid(c.buttonLabel, 48, false, [])) && (!d.action ==> c.buttonLabel == "")
  {
    if Valid(c.body, 2400, true, d.bodyVariables) { UsedAreParsed(c.body); }
    hide Parse, Used, Names;
  }

  /** The texts of one message type: what was set for it, or else the standard ones, trimmed. */
  predicate TextsOf(value: Settings, d: Definition, c: Content) {
    var chosen := if d.id in value.templates then value.templates[d.id] else d.standard;
    && c.subject == TrimSpace(chosen.subject) && c.heading == TrimSpace(chosen.heading)
    && c.body == TrimSpace(chosen.body) && c.buttonLabel == TrimSpace(chosen.buttonLabel)
  }

  /** Normalized settings hold the trimmed footer and, for each message type and nothing else, its
      texts; settings are acceptable exactly when they name no other message type, the footer is empty
      or printable lines that may name the site, and the content of every message type is. */
  lemma NormalExactly(value: Settings, defs: seq<Definition>, n: Settings)
    ensures Normal(value, defs, n) <==>
      && n.footer == TrimSpace(value.footer)
      && (forall id :: id in n.templates <==> exists i :: 0 <= i < |defs| && defs[i].id == id)
      && (forall i :: 0 <= i < |defs| ==> TextsOf(value, defs[i], n.templates[defs[i].id]))
    ensures Normal(value, defs, n) ==>
      (Acceptable(value, defs) <==>
        && (forall id :: id in value.templates ==> exists i :: 0 <= i < |defs| && defs[i].id == id)
        && (n.footer == "" || Valid(n.footer, 600, true, ["site_name"]))
        && (forall i :: 0 <= i < |defs| ==> ContentOk(defs[i], n.templates[defs[i].id])))
  {
    hide TrimSpace, Valid, ContentOk;
    forall id ensures id in Ids(defs) <==> exists i :: 0 <= i < |defs| && defs[i].id == id {}
    if forall id :: id in n.templates <==> exists i :: 0 <= i < |defs| && defs[i].id == id {
      assert n.templates.Keys == Ids(defs);
    }
    forall i, c: Content | 0 <= i < |defs| ensures TextsOf(value, defs[i], c) <==> c == Trimmed(Chosen(value, defs[i])) {}
  }

  // ---------------------------------------------------------------- trimming

  predicate AllSpace(s: string) {
    forall i | 0 <= i < |s| :: IsSpace(s[i])
  }

  lemma {:induction false} TrimLeftSplits(s: string) returns (left: string)
    ensures s == left + TrimLeft(s) && AllSpace(left) && (TrimLeft(s) == "" || !IsSpace(TrimLeft(s)[0]))
  {
    left := "";
    if s != "" && IsSpace(s[0]) {
      var more := TrimLeftSplits(s[1..]);
      left := [s[0]] + more;
    }
  }

  lemma {:induction false} TrimRightSplits(s: string) returns (right: string)
    ensures s == TrimRight(s) + right && AllSpace(right)
    ensures TrimRight(s) == "" || (!IsSpace(TrimRight(s)[|TrimRight(s)| - 1]) && TrimRight(s)[0] == s[0])
  {
    right := "";
    if s != "" && IsSpace(s[|s| - 1]) {
      var more := TrimRightSplits(s[..|s| - 1]);
      right := more + [s[|s| - 1]];
    }
  }

  /** Trimming takes away spaces on both sides, all of them, and nothing else. */
  lemma TrimExactly(s: string) returns (left: string, right: string)
    ensures s == left + TrimSpace(s) + right && AllSpace(left) && AllSpace(right)
    ensures TrimSpace(s) == "" || (!IsSpace(TrimSpace(s)[0]) && !IsSpace(TrimSpace(s)[|TrimSpace(s)| - 1]))
  {
    left := TrimLeftSplits(s);
    right := TrimRightSplits(TrimLeft(s));
  }
}

/** The email template scanner of internal/account/email_templates.go against an independent grammar:
    a template is a sequence of literals and variables and a tail, and the scanner accepts a text
    exactly when it spells such a template, which is then unique. */
module TemplateScanner {
  import opened Base
  import opened Text

  // ---------------------------------------------------------------- pairs

  /** The same character twice in a row does not occur. */
  predicate NoPair(s: string, c: char) {
    forall k :: 0 <= k < |s| - 1 ==> !(s[k] == c && s[k + 1] == c)
  }

  /** strings.Index for "{{" or "}}": the first place where `c` occurs twice in a row, or -1. */
  function Index(s: string, c: char): (i: int)
    ensures i == -1 || 0 <= i < |s| - 1
    ensures i == -1 ==> NoPair(s, c)
    ensures i >= 0 ==> s[i] == c && s[i + 1] == c && NoPair(s[..i + 1], c)
  {
    if |s| < 2 then -1
    else if s[0] == c && s[1] == c then 0
    else
      var j := Index(s[1..], c);
      if j < 0 then assert forall k :: 0 < k < |s| - 1 ==> s[k] == s[1..][k - 1]; -1
      else assert forall k :: 0 < k <= j + 1 ==> s[k] == s[1..][k - 1] && s[..j + 2][k] == s[1..][..j + 1][k - 1]; j + 1
  }

  lemma PairBreaks(s: string, c: char, i: nat, n: nat)
    requires i + 1 < |s| && s[i] == c && s[i + 1] == c && n <= |s|
    ensures i + 1 < n ==> !NoPair(s[..n], c)
  {
    if i + 1 < n { assert s[..n][i] == c && s[..n][i + 1] == c; }
  }

  lemma IndexIs(s: string, c: char, i: nat)
    requires i + 1 < |s| && s[i] == c && s[i + 1] == c && NoPair(s[..i + 1], c)
    ensures Index(s, c) == i
  {
    var j := Index(s, c);
    assert j >= 0;
    PairBreaks(s, c, j, i + 1);
    PairBreaks(s, c, i, j + 1);
  }

  lemma NoIndex(s: string, c: char)
    requires NoPair(s, c)
    ensures Index(s, c) == -1
  {}

  // ---------------------------------------------------------------- grammar

  /** A literal and the variable that follows it, as written between the braces. */
  datatype Segment = Segment(literal: string, inner: string)

  datatype Template = Template(segments: seq<Segment>, tail: string)

  function Spell(s: Segment): string {
    s.literal + "{{" + s.inner + "}}"
  }

  /** The text of a template. */
  function TextOf(t: Template): string
    decreases |t.segments|
  {
    if t.segments == [] then t.tail else Spell(t.segments[0]) + TextOf(Template(t.segments[1..], t.tail))
  }

  /** A literal holds no "{{", not even with the brace that follows; what is between the braces
      holds no "{{", and no "}}", not even with the brace that follows. */
  predicate SegmentOk(s: Segment) {
    NoPair(s.literal + "{", '{') && NoPair(s.inner + "}", '}') && NoPair(s.inner, '{')
  }

  /** The tail holds neither pair; a literal before a variable may hold "}}". */
  predicate WellFormed(t: Template) {
    (forall i :: 0 <= i < |t.segments| ==> SegmentOk(t.segments[i])) && NoPair(t.tail, '{') && NoPair(t.tail, '}')
  }

  // ---------------------------------------------------------------- parsing

  /** How a text begins: with no variable, with a malformed one, or with a segment and the rest. */
  datatype Cut = NoVariable | Malformed | Cut(segment: Segment, rest: string)

  function FirstCut(value: string): (c: Cut)
    ensures c.Cut? ==> |c.rest| < |value|
  {
    var start := Index(value, '{');
    if start < 0 then NoVariable
    else
      var rest := value[start + 2..];
      var end := Index(rest, '}');
      if end < 0 || Index(rest[..end], '{') >= 0 then Malformed
      else Cut(Segment(value[..start], rest[..end]), rest[end + 2..])
  }

  /** What the scanner reads: the template that a text spells, if it spells one. */
  function Parse(value: string): (o: Option<Template>)
    decreases |value|
  {
    match FirstCut(value)
    case NoVariable => if Index(value, '}') >= 0 then None else Some(Template([], value))
    case Malformed => None
    case Cut(segment, rest) => Prepend([segment], Parse(rest))
  }

  function Prepend(done: seq<Segment>, o: Option<Template>): Option<Template> {
    if o.None? then None else Some(Template(done + o.value.segments, o.value.tail))
  }

  lemma PrependTwice(a: seq<Segment>, b: seq<Segment>, o: Option<Template>)
    ensures Prepend(a, Prepend(b, o)) == Prepend(a + b, o)
  {
    if o.Some? { assert a + (b + o.value.segments) == (a + b) + o.value.segments; }
  }

  /** A pair splits its text. */
  lemma PairSplits(s: string, c: char, i: nat)
    requires Index(s, c) == i
    ensures s == s[..i] + [c, c] + s[i + 2..] && NoPair(s[..i] + [c], c)
  {
    assert s[..i] + [c] == s[..i + 1];
  }

  /** A segment that is cut off is well formed and spells the part cut off. */
  lemma CutSound(value: string)
    requires FirstCut(value).Cut?
    ensures SegmentOk(FirstCut(value).segment) && value == Spell(FirstCut(value).segment) + FirstCut(value).rest
  {
    var start := Index(value, '{');
    var rest := value[start + 2..];
    var end := Index(rest, '}');
    PairSplits(value, '{', start);
    PairSplits(rest, '}', end);
    Glue(value[..start], rest[..end], rest[end + 2..]);
    assert rest == rest[..end] + "}}" + rest[end + 2..];
    assert value == value[..start] + "{{" + rest;
    hide NoPair, Index, Spell;
  }

  lemma Glue(literal: string, inner: string, more: string)
    ensures Spell(Segment(literal, inner)) + more == literal + "{{" + (inner + "}}" + more)
  {}

  /** And a well-formed segment is cut off, whatever follows it. */
  lemma CutComplete(s: Segment, more: string)
    requires SegmentOk(s)
    ensures FirstCut(Spell(s) + more) == Cut(s, more)
  {
    SegmentFound(s, more);
    InnerFound(s, more);
  }

  /** Where a well-formed segment's braces are found. */
  lemma SegmentFound(s: Segment, more: string)
    requires SegmentOk(s)
    ensures var value := Spell(s) + more;
      && Index(value, '{') == |s.literal| && value[..|s.literal|] == s.literal
      && value[|s.literal| + 2..] == s.inner + "}}" + more
  {
    var value := Spell(s) + more;
    assert value == s.literal + "{{" + (s.inner + "}}" + more);
    assert value[..|s.literal| + 1] == s.literal + "{";
    IndexIs(value, '{', |s.literal|);
  }

  lemma InnerFound(s: Segment, more: string)
    requires SegmentOk(s)
    ensures var rest := s.inner + "}}" + more;
      Index(rest, '}') == |s.inner| && rest[..|s.inner|] == s.inner && rest[|s.inner| + 2..] == more && Index(s.inner, '{') == -1
  {
    var rest := s.inner + "}}" + more;
    assert rest[..|s.inner| + 1] == s.inner + "}";
    IndexIs(rest, '}', |s.inner|);
  }

  lemma {:induction false} ParseSound(value: string)
    requires Parse(value).Some?
    ensures WellFormed(Parse(value).value) && TextOf(Parse(value).value) == value
    decreases |value|
  {
    if FirstCut(value).Cut? {
      hide FirstCut, SegmentOk, NoPair;
      var segment, rest := FirstCut(value).segment, FirstCut(value).rest;
      CutSound(value);
      ParseSound(rest);
      assert Parse(value).value.segments[1..] == Parse(rest).value.segments;
    }
  }

  lemma ParseTail(tail: string)
    requires NoPair(tail, '{') && NoPair(tail, '}')
    ensures Parse(tail) == Some(Template([], tail))
  {
    NoIndex(tail, '{');
    NoIndex(tail, '}');
  }

  lemma {:induction false} ParseComplete(t: Template)
    requires WellFormed(t)
    ensures Parse(TextOf(t)) == Some(t)
    decreases |t.segments|
  {
    if t.segments == [] {
      ParseTail(t.tail);
    } else {
      hide FirstCut, SegmentOk, NoPair, Index, Spell;
      var s, rest := t.segments[0], Template(t.segments[1..], t.tail);
      var text := TextOf(t);
      assert text == Spell(s) + TextOf(rest);
      CutComplete(s, TextOf(rest));
      ParseComplete(rest);
      hide WellFormed, TextOf;
      assert Parse(text) == Prepend([s], Some(rest));
      assert [s] + rest.segments == t.segments;
    }
  }

  /** A text is accepted exactly when it spells a well-formed template, and that template is the
      only one that it spells. */
  lemma ParseExactly(value: string, t: Template)
    ensures Parse(value) == Some(t) <==> WellFormed(t) && TextOf(t) == value
  {
    if Parse(value) == Some(t) { ParseSound(value); }
    if WellFormed(t) && TextOf(t) == value { ParseComplete(t); }
  }

  // ---------------------------------------------------------------- rendering

  function Name(s: Segment): string {
    TrimSpace(s.inner)
  }

  predicate Allowed(t: Template, allowed: seq<string>) {
    forall i :: 0 <= i < |t.segments| ==> Name(t.segments[i]) != "" && Name(t.segments[i]) in allowed
  }

  function Value(variables: map<string, string>, name: string): string {
    if name in variables then variables[name] else ""
  }

  /** Each literal followed by its variable's value, in order. */
  function Substitute(segments: seq<Segment>, variables: map<string, string>): string {
    if segments == [] then ""
    else
      var last := segments[|segments| - 1];
      Substitute(segments[..|segments| - 1], variables) + last.literal + Value(variables, Name(last))
  }

  /** A text that the renderer accepts, which does not depend on the values. */
  predicate Renderable(value: string, allowed: seq<string>) {
    Parse(value).Some? && Allowed(Parse(value).value, allowed)
  }

  datatype RenderError = MalformedVariable | UnsupportedVariable

  /** The first thing wrong with a text, read from the left. */
  function Problem(value: string, allowed: seq<string>): Option<RenderError>
    decreases |value|
  {
    match FirstCut(value)
    case NoVariable => if Index(value, '}') >= 0 then Some(MalformedVariable) else None
    case Malformed => Some(MalformedVariable)
    case Cut(segment, rest) =>
      if Name(segment) == "" || Name(segment) !in allowed then Some(UnsupportedVariable) else Problem(rest, allowed)
  }

  /** Nothing is wrong exactly with the texts that spell a template with allowed names; a text that
      parses can only have an unsupported variable. */
  lemma {:induction false} ProblemExactly(value: string, allowed: seq<string>)
    ensures Problem(value, allowed).None? <==> Renderable(value, allowed)
    ensures Parse(value).Some? ==> Problem(value, allowed) != Some(MalformedVariable)
    decreases |value|
  {
    hide Index, Name, FirstCut, Allowed;
    match FirstCut(value)
    case NoVariable => if Index(value, '}') < 0 { NoneAllowed(value, allowed); }
    case Malformed =>
    case Cut(segment, rest) =>
      ProblemExactly(rest, allowed);
      if Parse(rest).Some? { AllowedCons(segment, Parse(rest).value, allowed); }
  }

  lemma NoneAllowed(tail: string, allowed: seq<string>)
    ensures Allowed(Template([], tail), allowed)
  {}

  lemma AllowedCons(s: Segment, t: Template, allowed: seq<string>)
    ensures Allowed(Template([s] + t.segments, t.tail), allowed) <==> Name(s) != "" && Name(s) in allowed && Allowed(t, allowed)
  {
    hide Name;
    var all := [s] + t.segments;
    assert all[0] == s;
    assert forall i :: 0 <= i < |t.segments| ==> all[i + 1] == t.segments[i];
    assert forall i :: 0 < i < |all| ==> all[i] == t.segments[i - 1];
  }

  function Rendered(value: string, variables: map<string, string>): string
    requires Parse(value).Some?
  {
    Substitute(Parse(value).value.segments, variables) + Parse(value).value.tail
  }

  /** The loop so far: `done` is read and written, `value` is still to read. */
  ghost predicate Reading(text: string, done: seq<Segment>, value: string, allowed: seq<string>) {
    Parse(text) == Prepend(done, Parse(value)) && Allowed(Template(done, ""), allowed)
  }

  lemma ReadOne(text: string, done: seq<Segment>, value: string, allowed: seq<string>)
    requires Reading(text, done, value, allowed) && FirstCut(value).Cut?
    ensures var s := FirstCut(value).segment;
      if Name(s) != "" && Name(s) in allowed then Reading(text, done + [s], FirstCut(value).rest, allowed)
      else !Renderable(text, allowed)
  {
    hide FirstCut, Name;
    var s, rest := FirstCut(value).segment, FirstCut(value).rest;
    PrependTwice(done, [s], Parse(rest));
    assert Parse(text) == Prepend(done + [s], Parse(rest));
    if Parse(text).Some? { assert Parse(text).value.segments[|done|] == s; }
  }

  lemma ReadAll(text: string, done: seq<Segment>, value: string, allowed: seq<string>)
    requires Reading(text, done, value, allowed) && !FirstCut(value).Cut?
    ensures FirstCut(value) == NoVariable && Index(value, '}') < 0
      ==> Renderable(text, allowed) && Parse(text).value == Template(done, value)
    ensures FirstCut(value) == Malformed || Index(value, '}') >= 0 ==> !Renderable(text, allowed)
  {
    hide FirstCut, Name, Index;
    assert done + [] == done;
  }

  /** renderEmailTemplateText. Values are inserted as they are: what was written is never read again. */
  method RenderEmailTemplateText(text: string, allowed: seq<string>, variables: map<string, string>) returns (r: Result<string, RenderError>)
    ensures r.Ok? <==> Renderable(text, allowed)
    ensures r.Ok? ==> r.value == Rendered(text, variables)
    ensures r.Err? ==> Problem(text, allowed) == Some(r.error)
  {
    hide Index, Parse, Renderable, Allowed, Prepend;
    var value, result := text, "";
    ghost var done: seq<Segment> := [];
    ReadNothing(text, allowed);
    while true
      invariant Reading(text, done, value, allowed) && result == Substitute(done, variables)
      invariant Problem(text, allowed) == Problem(value, allowed)
      decreases |value|
    {
      var start := Index(value, '{');
      if start < 0 {
        ReadAll(text, done, value, allowed);
        if Index(value, '}') >= 0 { return Err(MalformedVariable); }
        return Ok(result + value);
      }
      var rest := value[start + 2..];
      var end := Index(rest, '}');
      if end < 0 || Index(rest[..end], '{') >= 0 {
        ReadAll(text, done, value, allowed);
        return Err(MalformedVariable);
      }
      var name := TrimSpace(rest[..end]);
      ghost var segment := FirstCut(value).segment;
      ReadOne(text, done, value, allowed);
      if name == "" || name !in allowed { return Err(UnsupportedVariable); }
      assert (done + [segment])[..|done|] == done;
      result := result + value[..start] + Value(variables, name);
      done := done + [segment];
      value := rest[end + 2..];
    }
  }

  lemma ReadNothing(text: string, allowed: seq<string>)
    ensures Reading(text, [], text, allowed)
  {
    if Parse(text).Some? { assert [] + Parse(text).value.segments == Parse(text).value.segments; }
  }

  // ---------------------------------------------------------------- validation

  predicate Bidirectional(c: char) {
    c == '\U{200E}' || c == '\U{200F}' || '\U{202A}' <= c <= '\U{202E}' || '\U{2066}' <= c <= '\U{2069}'
  }

  /** unicode.IsControl. */
  predicate Control(c: char) {
    c < ' ' || '\U{7F}' <= c <= '\U{9F}'
  }

  predicate Unsafe(c: char, allowNewline: bool) {
    (Control(c) || Bidirectional(c)) && !(c == '\n' && allowNewline)
  }

  predicate Valid(value: string, limit: nat, allowNewline: bool, allowed: seq<string>) {
    && value != "" && |value| <= limit
    && (forall i :: 0 <= i < |value| ==> !Unsafe(value[i], allowNewline))
    && Renderable(value, allowed)
  }

  method ContainsUnsafeEmailText(value: string, allowNewline: bool) returns (r: bool)
    ensures r <==> exists i :: 0 <= i < |value| && Unsafe(value[i], allowNewline)
  {
    for i := 0 to |value|
      invariant forall j :: 0 <= j < i ==> !Unsafe(value[j], allowNewline)
    {
      var c := value[i];
      if c == '\n' && allowNewline { continue; }
      if c == '\r' || c == '\n' || c == '\0' || Bidirectional(c) || Control(c) {
        assert Unsafe(value[i], allowNewline);
        return true;
      }
    }
    return false;
  }

  /** validateEmailTemplateText, which renders with no values. */
  method ValidateEmailTemplateText(value: string, limit: nat, allowNewline: bool, allowed: seq<string>) returns (ok: bool)
    ensures ok <==> Valid(value, limit, allowNewline, allowed)
  {
    if value == "" || |value| > limit { return false; }
    var bad := ContainsUnsafeEmailText(value, allowNewline);
    if bad { return false; }
    var r := RenderEmailTemplateText(value, allowed, map[]);
    return r.Ok?;
  }

  // ---------------------------------------------------------------- required variables

  /** The names that requireEmailTemplateVariables collects; it does not mind malformed text. */
  function Used(value: string): set<string>
    decreases |value|
  {
    var start := Index(value, '{');
    if start < 0 then {}
    else
      var rest := value[start + 2..];
      var end := Index(rest, '}');
      if end < 0 then {} else {TrimSpace(rest[..end])} + Used(rest[end + 2..])
  }

  method RequireEmailTemplateVariables(value: string, required: seq<string>) returns (ok: bool)
    ensures ok <==> forall v :: v in required ==> v in Used(value)
  {
    hide Index, TrimSpace;
    if |required| == 0 { return true; }
    var used, remaining := {}, value;
    while true
      invariant used + Used(remaining) == Used(value)
      decreases |remaining|
    {
      var start := Index(remaining, '{');
      if start < 0 { break; }
      var rest := remaining[start + 2..];
      var end := Index(rest, '}');
      if end < 0 {
        assert Used(remaining) == {};
        break;
      }
      used := used + {TrimSpace(rest[..end])};
      remaining := rest[end + 2..];
    }
    assert used == Used(value);
    for i := 0 to |required|
      invariant forall j :: 0 <= j < i ==> required[j] in Used(value)
    {
      if required[i] !in used { return false; }
    }
    return true;
  }

  function Names(segments: seq<Segment>): set<string> {
    set i | 0 <= i < |segments| :: Name(segments[i])
  }

  lemma NamesCons(s: Segment, rest: seq<Segment>)
    ensures Names([s] + rest) == {Name(s)} + Names(rest)
  {
    var all := [s] + rest;
    assert all[0] == s;
    forall n | n in Names(rest) ensures n in Names(all) {
      var i :| 0 <= i < |rest| && Name(rest[i]) == n;
      assert all[i + 1] == rest[i];
    }
  }

  lemma UsedCut(value: string)
    ensures FirstCut(value).NoVariable? ==> Used(value) == {}
    ensures FirstCut(value).Cut? ==> Used(value) == {Name(FirstCut(value).segment)} + Used(FirstCut(value).rest)
  {
    hide Index;
  }

  /** On a text that parses, the names collected are those of its variables, so the requirement
      holds exactly when each required name is one of them. */
  lemma {:induction false} UsedAreParsed(value: string)
    requires Parse(value).Some?
    ensures Used(value) == Names(Parse(value).value.segments)
    decreases |value|
  {
    hide FirstCut, Used, Names, Name, Index;
    UsedCut(value);
    if FirstCut(value).Cut? {
      UsedAreParsed(FirstCut(value).rest);
      NamesCons(FirstCut(value).segment, Parse(FirstCut(value).rest).value.segments);
    } else {
      NoNames();
    }
  }

  lemma NoNames()
    ensures Names([]) == {}
  {}
}

/**
 Metadata derived from a body (content/mod.rs, note.rs): title, tags and status.
 */
module Derivation {
  import opened Text
  import opened Documents
  import Frontmatter
  import Tags

  const DEFAULT_NOTE_TYPE := "note"

  function LeadingHashes(line: string): (n: nat)
    ensures n <= |line|
  {
    if line != "" && line[0] == '#' then 1 + LeadingHashes(line[1..]) else 0
  }

  /** One to six hashes and a space are a heading; a `#tag` line keeps its hash. */
  function StripHeading(line: string): string {
    var n := LeadingHashes(line);
    if 1 <= n <= 6 && n < |line| && line[n] == ' ' then line[n + 1..] else line
  }

  predicate IsDivider(line: string) {
    forall i | 0 <= i < |line| :: line[i] == '-' || line[i] == '|' || line[i] == ':' || line[i] == ' '
  }

  predicate IsTitleLine(line: string) {
    line != "" && line[0] != '|' && !IsDivider(line)
  }

  function TitleFrom(ls: seq<string>): string {
    if ls == [] then ""
    else if IsTitleLine(Trim(ls[0])) then Trim(StripHeading(Trim(ls[0])))
    else TitleFrom(ls[1..])
  }

  function DeriveTitle(body: string): string {
    TitleFrom(Lines(Tags.Normalize(body)))
  }

  // ---- what a title is ----

  /** A line of text: neither empty nor a table row, and not of dashes, bars, colons and blanks alone. */
  ghost predicate Usable(line: string) {
    line != "" && line[0] != '|' && exists i | 0 <= i < |line| :: line[i] !in {'-', '|', ':', ' '}
  }

  /** `n` hashes and a space in front: a heading, if there are one to six of them. */
  ghost predicate HeadingMark(line: string, n: nat) {
    1 <= n <= 6 && n < |line| && line[n] == ' ' && forall i | 0 <= i < n :: line[i] == '#'
  }

  /** `text` is the line without its heading marker, if it has one. */
  ghost predicate Unmarked(line: string, text: string) {
    || (text == line && forall n: nat :: !HeadingMark(line, n))
    || exists n: nat :: HeadingMark(line, n) && text == line[n + 1..]
  }

  /** Line `n` is the first that can be a title. */
  ghost predicate FirstTitle(ls: seq<string>, n: nat) {
    n < |ls| && Usable(Trim(ls[n])) && forall k | 0 <= k < n :: !Usable(Trim(ls[k]))
  }

  /** The title is the first line that can be one, without its heading marker; or there is none. */
  ghost predicate IsTitleOf(ls: seq<string>, title: string) {
    || (title == "" && forall k | 0 <= k < |ls| :: !Usable(Trim(ls[k])))
    || exists n: nat, text :: FirstTitle(ls, n) && Unmarked(Trim(ls[n]), text) && IsTrimOf(text, title)
  }

  lemma UnmarkedOnce(line: string, a: string, b: string)
    requires Unmarked(line, a) && Unmarked(line, b)
    ensures a == b
  {
    if m: nat :| HeadingMark(line, m) && a == line[m + 1..] {
      if n: nat :| HeadingMark(line, n) && b == line[n + 1..] { assert m == n; }
    }
  }

  lemma TitleOnce(ls: seq<string>, a: string, b: string)
    requires IsTitleOf(ls, a) && IsTitleOf(ls, b)
    ensures a == b
  {
    hide Usable, Unmarked, Trim, IsTrimOf;
    if m: nat, s :| FirstTitle(ls, m) && Unmarked(Trim(ls[m]), s) && IsTrimOf(s, a) {
      if n: nat, t :| FirstTitle(ls, n) && Unmarked(Trim(ls[n]), t) && IsTrimOf(t, b) {
        assert m == n;
        UnmarkedOnce(Trim(ls[m]), s, t);
        TrimOnce(s, a, b);
      }
    }
  }

  lemma UsableIff(line: string)
    ensures IsTitleLine(line) <==> Usable(line)
  {
    if line != "" && line[0] != '|' && !IsDivider(line) {
      var i :| 0 <= i < |line| && !(line[i] == '-' || line[i] == '|' || line[i] == ':' || line[i] == ' ');
      assert line[i] !in {'-', '|', ':', ' '};
    }
  }

  lemma {:induction false} LeadingHashesAre(line: string)
    ensures forall i | 0 <= i < LeadingHashes(line) :: line[i] == '#'
    ensures LeadingHashes(line) < |line| ==> line[LeadingHashes(line)] != '#'
  {
    if line != "" && line[0] == '#' {
      LeadingHashesAre(line[1..]);
      forall i | 1 <= i < LeadingHashes(line) ensures line[i] == '#' { assert line[i] == line[1..][i - 1]; }
    }
  }

  lemma StripHeadingIs(line: string)
    ensures Unmarked(line, StripHeading(line))
  {
    LeadingHashesAre(line);
    var h := LeadingHashes(line);
    hide LeadingHashes;
    forall n: nat | HeadingMark(line, n) ensures n == h { assert line[n] == ' '; }
    if StripHeading(line) != line { assert HeadingMark(line, h); }
  }

  lemma {:induction false} TitleFromIs(ls: seq<string>)
    ensures IsTitleOf(ls, TitleFrom(ls))
  {
    hide Usable, IsTitleLine, Unmarked, StripHeading, Trim, IsTrimOf;
    if ls != [] {
      UsableIff(Trim(ls[0]));
      var text := StripHeading(Trim(ls[0]));
      if IsTitleLine(Trim(ls[0])) {
        StripHeadingIs(Trim(ls[0]));
        TrimIs(text);
        assert FirstTitle(ls, 0);
      } else {
        TitleFromIs(ls[1..]);
        TitleShifts(ls, TitleFrom(ls[1..]));
      }
    }
  }

  lemma TitleShifts(ls: seq<string>, title: string)
    requires ls != [] && !Usable(Trim(ls[0])) && IsTitleOf(ls[1..], title)
    ensures IsTitleOf(ls, title)
  {
    hide Usable, Unmarked, Trim, IsTrimOf;
    assert forall k | 1 <= k < |ls| :: ls[k] == ls[1..][k - 1];
    if n: nat, text :| FirstTitle(ls[1..], n) && Unmarked(Trim(ls[1..][n]), text) && IsTrimOf(text, title) {
      assert ls[n + 1] == ls[1..][n];
      assert FirstTitle(ls, n + 1);
    }
  }

  lemma TitleIs(body: string)
    ensures IsTitleOf(Lines(Tags.Normalize(body)), DeriveTitle(body))
  {
    TitleFromIs(Lines(Tags.Normalize(body)));
  }

  method FindTitle(body: string) returns (title: string)
    ensures title == DeriveTitle(body) && IsTitleOf(Lines(Tags.Normalize(body)), title)
  {
    TitleIs(body);
    var ls := Lines(Tags.Normalize(body));
    hide Lines, StripHeading, IsTitleLine, Trim, IsTitleOf;
    for n := 0 to |ls|
      invariant TitleFrom(ls[n..]) == TitleFrom(ls)
    {
      assert ls[n..][1..] == ls[n + 1..];
      var line := Trim(ls[n]);
      if IsTitleLine(line) { return Trim(StripHeading(line)); }
    }
    title := "";
  }

  /** A title is one line without blanks around it. */
  lemma TitleShape(body: string)
    ensures OneLine(DeriveTitle(body)) && Trim(DeriveTitle(body)) == DeriveTitle(body)
  {
    TitleFromShape(Lines(Tags.Normalize(body)));
  }

  lemma {:induction false} TitleFromShape(ls: seq<string>)
    requires forall i | 0 <= i < |ls| :: OneLine(ls[i])
    ensures OneLine(TitleFrom(ls)) && Trim(TitleFrom(ls)) == TitleFrom(ls)
  {
    hide StripHeading, IsTitleLine, Trim;
    if ls == [] {
      TrimmedShape("");
    } else {
      TitleFromShape(ls[1..]);
      TrimmedShape(ls[0]);
      StrippedShape(Trim(ls[0]));
      TrimmedShape(StripHeading(Trim(ls[0])));
    }
  }

  lemma StrippedShape(line: string)
    requires OneLine(line)
    ensures OneLine(StripHeading(line))
  {
    var s := StripHeading(line);
    assert forall c | c in s :: c in line;
  }

  lemma TrimmedShape(s: string)
    ensures Trim(Trim(s)) == Trim(s) && |Trim(s)| <= |s|
    ensures OneLine(s) ==> OneLine(Trim(s))
  {
    var t := TrimStart(s);
    TrimStartBlanks(s);
    TrimEndBlanks(t);
    TrimStartTwice(s);
    TrimEndKeepsFront(t);
    TrimEndFixed(TrimEnd(t));
    assert forall c | c in TrimEnd(t) :: c in t;
    assert forall c | c in t :: c in s;
  }

  lemma TrimEndFixed(s: string)
    requires s == "" || !IsHorizontal(s[|s| - 1])
    ensures TrimEnd(s) == s
  {
  }

  /** `update_body_at`: the body replaced and everything derived from it derived again. */
  function WithBody(n: Fields, body: string, now: Stamp): Fields {
    n.(body := body, title := DeriveTitle(Frontmatter.Rest(body)), tags := Frontmatter.DerivedTags(body),
       status := Frontmatter.Status(body), modifiedAt := now)
  }

  /** `NoteDoc::new_with`. */
  function NewNote(id: NoteId, body: string, author: string, now: Stamp): Fields {
    Fields(id, DeriveTitle(Frontmatter.Rest(body)), Frontmatter.DerivedTags(body), author, DEFAULT_NOTE_TYPE,
           false, false, now, now, Frontmatter.Status(body), body)
  }

  // ---- what is derived ----

  /** Title, tags and status are those of the body: read behind its fence, and in it. */
  ghost predicate Derived(n: Fields) {
    && Frontmatter.IsStatus(n.body, n.status)
    && exists rest ::
         && Frontmatter.IsRest(n.body, rest)
         && IsTitleOf(Lines(Tags.Normalize(rest)), n.title) && n.tags == Tags.ExtractTags(rest)
  }

  /** `n` is `was` with another body and all that derives from it; nothing else but the stamp changed. */
  ghost predicate BodyReplaced(was: Fields, n: Fields, body: string, now: Stamp) {
    && n.body == body && n.modifiedAt == now && Derived(n)
    && n.id == was.id && n.author == was.author && n.createdAt == was.createdAt
    && n.noteType == was.noteType && n.pinned == was.pinned && n.deleted == was.deleted
  }

  lemma WithBodyReplaces(was: Fields, body: string, now: Stamp)
    ensures BodyReplaced(was, WithBody(was, body, now), body, now)
  {
    hide Frontmatter.IsStatus, Frontmatter.IsRest, Frontmatter.Rest, Frontmatter.Status, IsTitleOf, DeriveTitle;
    Frontmatter.StatusIs(body);
    Frontmatter.RestIs(body);
    TitleIs(Frontmatter.Rest(body));
  }

  /** A new note: its metadata are derived, and it is an untyped note, neither pinned nor trashed. */
  ghost predicate IsNew(n: Fields, id: NoteId, body: string, author: string, now: Stamp) {
    && n.id == id && n.body == body && n.author == author && n.createdAt == now && n.modifiedAt == now
    && n.noteType == "note" && !n.pinned && !n.deleted && Derived(n)
  }

  lemma NewNoteIsNew(id: NoteId, body: string, author: string, now: Stamp)
    ensures IsNew(NewNote(id, body, author, now), id, body, author, now)
  {
    hide Frontmatter.IsStatus, Frontmatter.IsRest, Frontmatter.Rest, Frontmatter.Status, IsTitleOf, DeriveTitle;
    Frontmatter.StatusIs(body);
    Frontmatter.RestIs(body);
    TitleIs(Frontmatter.Rest(body));
  }

  /** A body has one title, one status and one list of tags: an edited note has what a new one would. */
  lemma DerivedOnce(a: Fields, b: Fields)
    requires Derived(a) && Derived(b) && a.body == b.body
    ensures a.title == b.title && a.tags == b.tags && a.status == b.status
  {
    hide Frontmatter.IsStatus, Frontmatter.IsRest, IsTitleOf;
    Frontmatter.StatusOnce(a.body, a.status, b.status);
    var s :|
      && Frontmatter.IsRest(a.body, s)
      && IsTitleOf(Lines(Tags.Normalize(s)), a.title) && a.tags == Tags.ExtractTags(s);
    var t :|
      && Frontmatter.IsRest(b.body, t)
      && IsTitleOf(Lines(Tags.Normalize(t)), b.title) && b.tags == Tags.ExtractTags(t);
    Frontmatter.RestOnce(a.body, s, t);
    TitleOnce(Lines(Tags.Normalize(s)), a.title, b.title);
  }
}

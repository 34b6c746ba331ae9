/**
 Importing a list of Markdown files as notes (transfer.rs): each file joins its project's tag, a
 body that the project already has is skipped, and importing the same files again does nothing
 exactly when every body can be found under the tag it was given.
 */
module Import {
  import opened Text
  import opened Tags
  import Derivation
  import Frontmatter
  import Project
  import Transfer

  datatype Note = Note(body: string, tags: seq<string>, noteType: string, deleted: bool)
  /** `text` is what reading the file gives, if it can be read. */
  datatype File = File(folder: string, text: Option<string>)
  datatype Source = Folders | OneTag(tag: string) | NoProject
  /** A file and the tag its source gives it. */
  datatype Entry = Entry(text: string, tag: Option<string>)
  /** Notes of the store and, per tag already met, the bodies known to carry it. */
  datatype State = State(notes: seq<Note>, existing: map<string, set<string>>)

  predicate IsBlank(text: string) {
    Transfer.TrimAll(text) == ""
  }

  function Body(e: Entry): string {
    match e.tag case Some(tag) => EnsureTag(e.text, tag) case None => e.text
  }

  function Key(e: Entry): string {
    match e.tag case Some(tag) => tag case None => ""
  }

  /** `create_note_with_type`: metadata derived from the body, type read from its fence. */
  function Created(body: string): Note {
    var read := match Transfer.TypeIn(body) case Some(t) => Transfer.TrimAll(t) case None => "";
    Note(body, Frontmatter.DerivedTags(body), if read == "" then Derivation.DEFAULT_NOTE_TYPE else read, false)
  }

  predicate Matches(n: Note, tag: Option<string>) {
    !n.deleted && (tag.Some? ==> tag.value in n.tags)
  }

  /** Bodies of the live notes carrying the tag, or of all live notes. */
  function Known(notes: seq<Note>, tag: Option<string>): set<string> {
    set n | n in notes && Matches(n, tag) :: n.body
  }

  function Load(s: State, e: Entry): (r: State)
    ensures Key(e) in r.existing
  {
    if Key(e) in s.existing then s else s.(existing := s.existing[Key(e) := Known(s.notes, e.tag)])
  }

  function Add(s: State, key: string, body: string): State
    requires key in s.existing
  {
    if body in s.existing[key] then s
    else State(s.notes + [Created(body)], s.existing[key := s.existing[key] + {body}])
  }

  function Step(s: State, e: Entry): State {
    if IsBlank(e.text) then s else Add(Load(s, e), Key(e), Body(e))
  }

  function Run(s: State, es: seq<Entry>): State {
    if es == [] then s else Step(Run(s, es[..|es| - 1]), es[|es| - 1])
  }

  function NonBlank(es: seq<Entry>): nat {
    if es == [] then 0
    else NonBlank(es[..|es| - 1]) + if IsBlank(es[|es| - 1].text) then 0 else 1
  }

  function TagOf(source: Source, folder: string): Option<Option<string>> {
    match source
    case NoProject => Some(None)
    case OneTag(tag) => Some(Some(tag))
    case Folders => match Project.TagFor(folder) case Some(tag) => Some(Some(tag)) case None => None
  }

  ghost predicate AllNamed(source: Source, files: seq<File>) {
    forall k | 0 <= k < |files| :: TagOf(source, files[k].folder).Some?
  }

  ghost predicate AllRead(files: seq<File>) {
    forall k | 0 <= k < |files| :: files[k].text.Some?
  }

  /** The tags of all files, found before anything is written. */
  function Entries(source: Source, files: seq<File>): (es: seq<Entry>)
    requires AllNamed(source, files) && AllRead(files)
    ensures |es| == |files|
  {
    seq(|files|, k requires 0 <= k < |files| => Entry(files[k].text.value, TagOf(source, files[k].folder).value))
  }

  /**
   All tags first, so that a folder without one fails before anything is written; then the files, in
   one bulk, so that one that cannot be read takes back whatever was created before it.
   */
  method ImportFiles(notes: seq<Note>, source: Source, files: seq<File>)
      returns (ok: bool, after: seq<Note>, skipped: nat)
    ensures ok <==> AllNamed(source, files) && AllRead(files)
    ensures !ok ==> after == notes
    ensures ok ==> after == Run(State(notes, map[]), Entries(source, files)).notes
    ensures ok ==> |after| + skipped == |notes| + NonBlank(Entries(source, files))
  {
    var tags: seq<Option<string>> := [];
    for k := 0 to |files|
      invariant |tags| == k
      invariant forall j | 0 <= j < k :: TagOf(source, files[j].folder) == Some(tags[j])
    {
      var tag := TagOf(source, files[k].folder);
      if tag.None? { return false, notes, 0; }
      tags := tags + [tag.value];
    }
    hide TagOf, Run, NonBlank;
    ok, after, skipped := ImportTagged(notes, files, tags);
    if ok { TaggedEntries(source, files, tags); } else { after := notes; }
  }

  ghost function Tagged(files: seq<File>, tags: seq<Option<string>>): seq<Entry>
    requires |files| == |tags| && AllRead(files)
  {
    seq(|files|, k requires 0 <= k < |files| => Entry(files[k].text.value, tags[k]))
  }

  lemma TaggedEntries(source: Source, files: seq<File>, tags: seq<Option<string>>)
    requires |files| == |tags| && AllRead(files)
    requires forall k | 0 <= k < |files| :: TagOf(source, files[k].folder) == Some(tags[k])
    ensures AllNamed(source, files) && Entries(source, files) == Tagged(files, tags)
  {
    hide TagOf;
  }

  /** The body of the bulk: it stops at the first file that cannot be read. */
  method ImportTagged(notes: seq<Note>, files: seq<File>, tags: seq<Option<string>>)
      returns (ok: bool, after: seq<Note>, skipped: nat)
    requires |files| == |tags|
    ensures ok <==> AllRead(files)
    ensures ok ==> after == Run(State(notes, map[]), Tagged(files, tags)).notes
    ensures ok ==> |after| + skipped == |notes| + NonBlank(Tagged(files, tags))
  {
    hide Known, Created, EnsureTag, IsBlank;
    after, skipped := notes, 0;
    var existing: map<string, set<string>> := map[];
    for k := 0 to |files|
      invariant AllRead(files[..k])
      invariant State(after, existing) == Run(State(notes, map[]), Tagged(files[..k], tags[..k]))
      invariant |after| + skipped == |notes| + NonBlank(Tagged(files[..k], tags[..k]))
    {
      if files[k].text.None? { return false, after, skipped; }
      ghost var es := Tagged(files[..k + 1], tags[..k + 1]);
      assert es[..k] == Tagged(files[..k], tags[..k]) && es[k] == Entry(files[k].text.value, tags[k]);
      var e := Entry(files[k].text.value, tags[k]);
      if !IsBlank(e.text) {
        var body, key := Body(e), Key(e);
        if key !in existing { existing := existing[key := Known(after, e.tag)]; }
        if body in existing[key] {
          skipped := skipped + 1;
        } else {
          after := after + [Created(body)];
          existing := existing[key := existing[key] + {body}];
        }
      }
    }
    assert files[..|files|] == files && tags[..|tags|] == tags;
    ok := true;
  }

  // ---- what one import leaves behind ----

  /** One import uses a tag for every file or for none. */
  ghost predicate Uniform(es: seq<Entry>, tagged: bool) {
    forall k | 0 <= k < |es| :: es[k].tag.Some? == tagged
  }

  ghost predicate Fresh(n: Note) {
    n == Created(n.body)
  }

  function TagOfKey(key: string, tagged: bool): Option<string> {
    if tagged then Some(key) else None
  }

  ghost predicate MadeSince(before: seq<Note>, notes: seq<Note>) {
    |before| <= |notes| && notes[..|before|] == before && forall k | |before| <= k < |notes| :: Fresh(notes[k])
  }

  ghost predicate BodyIn(notes: seq<Note>, body: string, from: nat) {
    exists k | from <= k < |notes| :: notes[k].body == body
  }

  /** A body recorded under a key is there under its tag, or was created by this import. */
  ghost predicate Recorded(before: seq<Note>, s: State, tagged: bool) {
    forall key, body | key in s.existing && body in s.existing[key] ::
      body in Known(s.notes, TagOfKey(key, tagged)) || BodyIn(s.notes, body, |before|)
  }

  ghost predicate Seen(s: State, e: Entry) {
    IsBlank(e.text) || (Key(e) in s.existing && Body(e) in s.existing[Key(e)])
  }

  lemma KnownGrows(a: seq<Note>, n: Note, tag: Option<string>)
    ensures Known(a, tag) <= Known(a + [n], tag)
  {
  }

  lemma {:induction false} RunMakes(before: seq<Note>, es: seq<Entry>)
    ensures MadeSince(before, Run(State(before, map[]), es).notes)
  {
    hide Created, Known, EnsureTag, IsBlank, Load;
    if es != [] {
      var front := es[..|es| - 1];
      RunMakes(before, front);
      StepMakes(before, Run(State(before, map[]), front), es[|es| - 1]);
    }
  }

  lemma StepMakes(before: seq<Note>, s: State, e: Entry)
    requires MadeSince(before, s.notes)
    ensures MadeSince(before, Step(s, e).notes)
  {
    CreatedIsFresh(Body(e));
    hide Created, Known, EnsureTag, IsBlank, Fresh;
  }

  lemma CreatedIsFresh(body: string)
    ensures Created(body).body == body && Fresh(Created(body)) && !Created(body).deleted
    ensures Created(body).tags == Frontmatter.DerivedTags(body)
  {
  }

  lemma LoadRecords(before: seq<Note>, s: State, e: Entry, tagged: bool)
    requires Recorded(before, s, tagged) && e.tag.Some? == tagged
    ensures Recorded(before, Load(s, e), tagged)
  {
    hide Known, BodyIn;
    assert TagOfKey(Key(e), tagged) == e.tag;
  }

  lemma AddRecords(before: seq<Note>, s: State, key: string, body: string, tagged: bool)
    requires Recorded(before, s, tagged) && key in s.existing && |before| <= |s.notes|
    ensures Recorded(before, Add(s, key, body), tagged)
  {
    if body !in s.existing[key] {
      CreatedIsFresh(body);
      var n := Created(body);
      var after := s.notes + [n];
      assert after[|s.notes|].body == body;
      hide Created, Known, BodyIn;
      forall k, b | k in s.existing && b in s.existing[k]
        ensures b in Known(after, TagOfKey(k, tagged)) || BodyIn(after, b, |before|)
      {
        KnownGrows(s.notes, n, TagOfKey(k, tagged));
        if BodyIn(s.notes, b, |before|) { BodyStays(s.notes, n, b, |before|); }
      }
      BodyLast(s.notes, n, |before|);
    }
  }

  lemma BodyStays(notes: seq<Note>, n: Note, body: string, from: nat)
    requires BodyIn(notes, body, from)
    ensures BodyIn(notes + [n], body, from)
  {
    var k :| from <= k < |notes| && notes[k].body == body;
    assert (notes + [n])[k] == notes[k];
  }

  lemma BodyLast(notes: seq<Note>, n: Note, from: nat)
    requires from <= |notes|
    ensures BodyIn(notes + [n], n.body, from)
  {
    assert (notes + [n])[|notes|] == n;
  }

  /** What a whole import establishes: every body is recorded, and everything recorded is really there. */
  lemma {:induction false} RunRecords(before: seq<Note>, es: seq<Entry>, tagged: bool)
    requires Uniform(es, tagged)
    ensures Recorded(before, Run(State(before, map[]), es), tagged)
    ensures forall k | 0 <= k < |es| :: Seen(Run(State(before, map[]), es), es[k])
  {
    hide Created, Known, EnsureTag, IsBlank, Recorded, Seen, Load, Add;
    if es == [] {
      NothingRecorded(before, tagged);
    } else {
      var front, e := es[..|es| - 1], es[|es| - 1];
      RunRecords(before, front, tagged);
      RunMakes(before, front);
      var s := Run(State(before, map[]), front);
      StepRecords(before, s, e, tagged);
      forall k | 0 <= k < |es| ensures Seen(Step(s, e), es[k]) {
        if k < |front| { assert es[k] == front[k]; SeenStays(s, e, es[k]); }
      }
    }
  }

  lemma NothingRecorded(before: seq<Note>, tagged: bool)
    ensures Recorded(before, State(before, map[]), tagged)
  {
  }

  lemma StepRecords(before: seq<Note>, s: State, e: Entry, tagged: bool)
    requires Recorded(before, s, tagged) && MadeSince(before, s.notes) && e.tag.Some? == tagged
    ensures Recorded(before, Step(s, e), tagged) && Seen(Step(s, e), e)
  {
    hide Created, Known, EnsureTag, IsBlank, Recorded;
    if !IsBlank(e.text) {
      LoadRecords(before, s, e, tagged);
      AddRecords(before, Load(s, e), Key(e), Body(e), tagged);
    }
  }

  lemma SeenStays(s: State, e: Entry, seen: Entry)
    requires Seen(s, seen)
    ensures Seen(Step(s, e), seen)
  {
    hide Created, Known, EnsureTag, IsBlank;
  }

  // ---- importing again ----

  predicate Found(notes: seq<Note>, e: Entry) {
    IsBlank(e.text) || Body(e) in Known(notes, e.tag)
  }

  /** What decides it before the first import: the body is there, or shows the tag it was given. */
  predicate Settled(notes: seq<Note>, e: Entry) {
    Found(notes, e) || e.tag.None? || e.tag.value in Frontmatter.DerivedTags(Body(e))
  }

  lemma FoundIffSettled(before: seq<Note>, es: seq<Entry>, tagged: bool, e: Entry)
    requires Uniform(es, tagged) && e in es
    ensures Found(Run(State(before, map[]), es).notes, e) <==> Settled(before, e)
  {
    RunMakes(before, es);
    RunRecords(before, es, tagged);
    var s := Run(State(before, map[]), es);
    hide Run, Created, EnsureTag, IsBlank, Uniform, Recorded, Known;
    assert Seen(s, e);
    if !IsBlank(e.text) {
      BodyRecorded(before, s, tagged, e);
      FoundAmong(before, s.notes, Body(e), e.tag);
    }
  }

  lemma BodyRecorded(before: seq<Note>, s: State, tagged: bool, e: Entry)
    requires Recorded(before, s, tagged) && Seen(s, e) && !IsBlank(e.text) && e.tag.Some? == tagged
    ensures Body(e) in Known(s.notes, e.tag) || BodyIn(s.notes, Body(e), |before|)
  {
    hide Known, IsBlank, EnsureTag, BodyIn;
    assert TagOfKey(Key(e), tagged) == e.tag;
  }

  lemma FoundAmong(before: seq<Note>, notes: seq<Note>, body: string, tag: Option<string>)
    requires MadeSince(before, notes)
    requires body in Known(notes, tag) || BodyIn(notes, body, |before|)
    ensures body in Known(notes, tag)
       <==> body in Known(before, tag) || tag.None? || tag.value in Frontmatter.DerivedTags(body)
  {
    CreatedIsFresh(body);
    hide Created;
    assert forall n | n in before :: n in notes;
    if body in Known(notes, tag) {
      var k :| 0 <= k < |notes| && notes[k].body == body && Matches(notes[k], tag);
      if k < |before| { assert notes[k] == before[k]; } else { assert Fresh(notes[k]); }
    } else {
      var k :| |before| <= k < |notes| && notes[k].body == body;
      assert Fresh(notes[k]);
    }
  }

  /** Keys loaded from notes that never change hold exactly what those notes show. */
  ghost predicate Quiet(notes: seq<Note>, s: State, tagged: bool) {
    s.notes == notes && forall key | key in s.existing :: s.existing[key] == Known(notes, TagOfKey(key, tagged))
  }

  lemma QuietStep(notes: seq<Note>, s: State, e: Entry, tagged: bool)
    requires Quiet(notes, s, tagged) && e.tag.Some? == tagged
    ensures if Found(notes, e) then Quiet(notes, Step(s, e), tagged) else |Step(s, e).notes| > |notes|
  {
    hide Known, Created, EnsureTag, IsBlank;
    assert TagOfKey(Key(e), tagged) == e.tag;
  }

  lemma {:induction false} QuietRun(notes: seq<Note>, es: seq<Entry>, tagged: bool)
    requires Uniform(es, tagged)
    ensures var s := Run(State(notes, map[]), es);
      if forall e | e in es :: Found(notes, e) then Quiet(notes, s, tagged) else |s.notes| > |notes|
  {
    hide Found, Known, Created, EnsureTag, IsBlank, Step;
    if es != [] {
      var front, e := es[..|es| - 1], es[|es| - 1];
      QuietRun(notes, front, tagged);
      var s := Run(State(notes, map[]), front);
      assert es == front + [e];
      assert (forall x | x in es :: Found(notes, x)) <==> Found(notes, e) && forall x | x in front :: Found(notes, x);
      if forall x | x in front :: Found(notes, x) {
        QuietStep(notes, s, e, tagged);
      } else {
        StepGrows(s, e);
      }
    }
  }

  lemma StepGrows(s: State, e: Entry)
    ensures |s.notes| <= |Step(s, e).notes|
  {
    hide Known, Created, EnsureTag, IsBlank;
  }

  /**
   Importing the same files again creates nothing exactly when every file that is not blank had
   its body among the notes of its tag before, or has a body from which its tag is derived.
   Duplicates among the files do not matter.
   */
  lemma ImportAgain(notes: seq<Note>, source: Source, files: seq<File>)
    requires AllNamed(source, files) && AllRead(files)
    ensures var es := Entries(source, files);
      var once := Run(State(notes, map[]), es).notes;
      Run(State(once, map[]), es).notes == once <==> forall e | e in es :: Settled(notes, e)
  {
    var es := Entries(source, files);
    var once := Run(State(notes, map[]), es).notes;
    var tagged := !source.NoProject?;
    assert Uniform(es, tagged);
    hide Run, Entries, Settled, Found, Uniform;
    QuietRun(once, es, tagged);
    forall e | e in es ensures Found(once, e) <==> Settled(notes, e) {
      FoundIffSettled(notes, es, tagged, e);
    }
  }

  /** The text does not show its tag inside its fence alone. */
  predicate ShowsPlainly(e: Entry) {
    e.tag.Some? && e.tag.value in ExtractTags(e.text) ==>
      e.tag.value in Frontmatter.DerivedTags(e.text)
  }

  /** In particular when the tags are tags, and no file shows its tag inside its fence alone. */
  lemma ImportAgainIsNothing(notes: seq<Note>, source: Source, files: seq<File>)
    requires AllNamed(source, files) && AllRead(files) && (source.OneTag? ==> ValidTag(source.tag))
    requires forall e | e in Entries(source, files) :: ShowsPlainly(e)
    ensures var es := Entries(source, files);
      var once := Run(State(notes, map[]), es).notes;
      Run(State(once, map[]), es).notes == once
  {
    var es := Entries(source, files);
    forall e | e in es ensures Settled(notes, e) {
      PlainIsSettled(notes, source, files, e);
    }
    hide Settled, Run, Entries, ShowsPlainly;
    ImportAgain(notes, source, files);
  }

  lemma PlainIsSettled(notes: seq<Note>, source: Source, files: seq<File>, e: Entry)
    requires AllNamed(source, files) && AllRead(files) && (source.OneTag? ==> ValidTag(source.tag))
    requires e in Entries(source, files) && ShowsPlainly(e)
    ensures Settled(notes, e)
  {
    hide Project.TagFor, ValidTag, Found, EnsureTag, Frontmatter.DerivedTags, ExtractTags;
    if e.tag.Some? {
      if source.Folders? {
        var k :| 0 <= k < |files| && e == Entries(source, files)[k];
        Project.TagForIsClean(files[k].folder);
      }
      Frontmatter.EnsuredIsDerivedIff(e.text, e.tag.value);
    }
  }

  /** A file whose fence holds no hash, backtick or tilde shows its tags plainly. */
  lemma PlainFenceShows(e: Entry)
    requires Frontmatter.FenceIsPlain(e.text)
    ensures ShowsPlainly(e)
  {
    Frontmatter.DerivedFromWhole(e.text);
  }

  /** A tag that only a fence shows is found by `EnsureTag` yet never derived: such a file is imported again. */
  lemma FencedTagIsImportedAgain()
    ensures var files, source := [File("", Some("---\n\n#t\n---"))], OneTag("t");
      var es := Entries(source, files);
      var once := Run(State([], map[]), es).notes;
      Run(State(once, map[]), es).notes != once
  {
    var text := "---\n\n#t\n---";
    var files, source := [File("", Some(text))], OneTag("t");
    var e := Entry(text, Some("t"));
    assert Entries(source, files) == [e];
    FencedTagIsNotSettled();
    hide Settled, Run, Entries;
    assert e in [e];
    ImportAgain([], source, files);
  }

  lemma FencedTagIsNotSettled()
    ensures !Settled([], Entry("---\n\n#t\n---", Some("t")))
  {
    FencedTagExtracted();
    FencedTagNotDerived();
    TextIsNotBlank("---\n\n#t\n---");
    hide ExtractTags, Frontmatter.DerivedTags, IsBlank;
  }

  lemma TextIsNotBlank(text: string)
    requires text != "" && text[0] == '-'
    ensures !IsBlank(text)
  {
    TrimEndAllBlanks(text);
  }

  lemma TagAppended()
    ensures "t" in ExtractTags("---\n\n#t")
  {
    hide ExtractTags;
    Frontmatter.NoHashNoTags("---");
    TrimEndAllBlanks("---");
    assert TrimEndAll("---") == "---";
    hide TrimEndAll;
    EnsuredIffValid("---", "t");
    assert "---" + "\n\n#" + "t" == "---\n\n#t";
  }

  lemma TailKeepsTags(x: string, y: string)
    requires IsTail(y) && '\r' !in x && '\r' !in x + y
    ensures forall tag | tag in ExtractTags(x) :: tag in ExtractTags(x + y)
  {
    hide TagNames, Distinct, IsTail;
    TagNamesConcat(x, y);
    NormalizeWithoutCr(x);
    NormalizeWithoutCr(x + y);
    DistinctHas(TagNames(x));
    DistinctHas(TagNames(x + y));
  }

  lemma FencedTagExtracted()
    ensures "t" in ExtractTags("---\n\n#t\n---")
  {
    hide ExtractTags, IsTail;
    TagAppended();
    TailIsTail();
    TailKeepsTags("---\n\n#t", "\n---");
    assert "---\n\n#t" + "\n---" == "---\n\n#t\n---";
  }

  lemma TailIsTail()
    ensures IsTail("\n---")
  {
    LinesOfOneLine("---");
    assert ("\n---")[1..] == "---";
  }

  lemma FencedTagNotDerived()
    ensures Frontmatter.DerivedTags("---\n\n#t\n---") == []
  {
    hide ExtractTags, Lines, Frontmatter.FindDashes;
    var ls := FencedLines();
    DashesAtEnd(ls);
    Frontmatter.NoHashNoTags("");
  }

  lemma FencedLines() returns (ls: seq<string>)
    ensures ls == ["---", "", "#t", "---"] && Lines("---\n\n#t\n---") == ls
  {
    hide Lines;
    ls := ["---", "", "#t", "---"];
    LinesJoin(ls);
    assert ls[1..] == ["", "#t", "---"] && ls[1..][1..] == ["#t", "---"] && ["#t", "---"][1..] == ["---"];
    assert Join(["#t", "---"]) == "#t\n---";
    assert Join(ls[1..]) == "\n#t\n---";
    assert Join(ls) == "---\n\n#t\n---";
  }

  lemma DashesAtEnd(ls: seq<string>)
    requires ls == ["---", "", "#t", "---"]
    ensures Frontmatter.FindDashes(ls, 1) == Some(3)
  {
    assert Frontmatter.FindDashes(ls, 2) == Some(3);
  }
}

/**
 Which files of an import become notes (transfer.rs), told without running it: a file whose text is not
 blank, unless its stamped body was there, live and under its tag, when the tag was first met, or an
 earlier file of the tag had it.
 */
module ImportLedger {
  import opened Text
  import opened Import
  import Frontmatter
  import Project
  import Tags
  import Transfer

  // ---- a file, its entry and its note ----

  /** The text of the file and the tag its source gives it. */
  ghost predicate IsEntry(source: Source, f: File, e: Entry) {
    && f.text == Some(e.text)
    && match source
       case NoProject => e.tag == None
       case OneTag(tag) => e.tag == Some(tag)
       case Folders => e.tag.Some? && Project.TagFor(f.folder) == e.tag
  }

  lemma EntriesAre(source: Source, files: seq<File>)
    requires AllNamed(source, files) && AllRead(files)
    ensures forall k | 0 <= k < |files| :: IsEntry(source, files[k], Entries(source, files)[k])
  {
    hide Project.TagFor;
  }

  /** A live note of that body: its tags read behind the fence, its type the fence's, trimmed, or "note". */
  ghost predicate IsImported(n: Note, body: string) {
    && n.body == body && !n.deleted
    && (exists rest :: Frontmatter.IsRest(body, rest) && n.tags == Tags.ExtractTags(rest))
    && exists declared ::
         && Transfer.IsTypeIn(Lines(body), declared)
         && if declared.Some? && !AllBlank(declared.value) then IsTrimAllOf(declared.value, n.noteType)
            else n.noteType == "note"
  }

  lemma CreatedIs(body: string)
    ensures IsImported(Created(body), body)
  {
    hide Frontmatter.IsRest, Frontmatter.Rest, Transfer.IsTypeIn, Transfer.TypeIn, Transfer.TrimAll, IsTrimAllOf;
    hide AllBlank, Lines, Tags.ExtractTags;
    Frontmatter.RestIs(body);
    Transfer.TypeInIs(body);
    var declared := Transfer.TypeIn(body);
    if declared.Some? {
      Transfer.TrimAllIs(declared.value);
      Transfer.BlankTrims(declared.value);
    }
  }

  // ---- the ledger ----

  ghost predicate Carries(notes: seq<Note>, e: Entry) {
    exists n | n in notes :: !n.deleted && (e.tag.Some? ==> e.tag.value in n.tags) && n.body == Body(e)
  }

  ghost predicate Filled(es: seq<Entry>, j: int) {
    0 <= j < |es| && !AllBlank(es[j].text)
  }

  /** An earlier file of the same tag has the same body. */
  ghost predicate Repeats(es: seq<Entry>, j: nat)
    requires j < |es|
  {
    exists i | 0 <= i < j :: Filled(es, i) && es[i].tag == es[j].tag && Body(es[i]) == Body(es[j])
  }

  /** The notes when the tag was first met: those of before and those made of files before any of the tag. */
  ghost predicate MetAt(before: nat, es: seq<Entry>, made: seq<nat>, tag: Option<string>, met: nat) {
    && before <= met <= before + |made|
    && forall i | 0 <= i < |made| ::
         before + i < met <==> forall j | Filled(es, j) && es[j].tag == tag :: made[i] < j
  }

  /** `made` are the files that became notes, in order, and `met` how many notes there were at each tag. */
  ghost predicate Ledger(before: seq<Note>, es: seq<Entry>, made: seq<nat>, met: map<Option<string>, nat>,
                         after: seq<Note>) {
    && |after| == |before| + |made| && after[..|before|] == before
    && (forall i | 0 <= i < |made| :: made[i] < |es| && after[|before| + i] == Created(Body(es[made[i]])))
    && (forall i, k | 0 <= i < k < |made| :: made[i] < made[k])
    && (forall j | Filled(es, j) :: es[j].tag in met)
    && (forall tag | tag in met :: MetAt(|before|, es, made, tag, met[tag]))
    && forall j | 0 <= j < |es| ::
         j in made <==> Filled(es, j) && !Repeats(es, j) && !Carries(after[..met[es[j].tag]], es[j])
  }

  // ---- the import keeps it ----

  function KeyOf(tag: Option<string>): string {
    match tag case Some(t) => t case None => ""
  }

  /** A file of the tag has this body. */
  ghost predicate Given(es: seq<Entry>, tag: Option<string>, body: string) {
    exists j :: Filled(es, j) && es[j].tag == tag && Body(es[j]) == body
  }

  /** The bodies known under a tag: those found when it was met, and those of its files since. */
  ghost predicate Accounted(es: seq<Entry>, s: State, met: map<Option<string>, nat>, tagged: bool) {
    && (forall tag | tag in met :: tag.Some? == tagged && met[tag] <= |s.notes|)
    && (forall tag: Option<string> | tag.Some? == tagged :: KeyOf(tag) in s.existing <==> tag in met)
    && forall tag, body | tag in met ::
         body in s.existing[KeyOf(tag)] <==> body in Known(s.notes[..met[tag]], tag) || Given(es, tag, body)
  }

  /** Every tag was met at some file. */
  ghost predicate AllMet(es: seq<Entry>, met: map<Option<string>, nat>) {
    forall tag | tag in met :: exists j :: Filled(es, j) && es[j].tag == tag
  }

  lemma CarriesIff(notes: seq<Note>, e: Entry)
    ensures Body(e) in Known(notes, e.tag) <==> Carries(notes, e)
  {
    hide Tags.EnsureTag;
  }

  lemma BlankIff(text: string)
    ensures IsBlank(text) <==> AllBlank(text)
  {
    Transfer.BlankTrims(text);
  }

  lemma FilledMore(es: seq<Entry>, e: Entry)
    ensures forall j | 0 <= j < |es| :: Filled(es + [e], j) <==> Filled(es, j)
    ensures Filled(es + [e], |es|) <==> !AllBlank(e.text)
    ensures forall j | 0 <= j < |es| :: Repeats(es + [e], j) <==> Repeats(es, j)
    ensures Repeats(es + [e], |es|) <==> Given(es, e.tag, Body(e))
  {
    hide Body, AllBlank;
    var more := es + [e];
    assert forall j | 0 <= j < |es| :: more[j] == es[j];
    assert more[|es|] == e;
  }

  lemma GivenMore(es: seq<Entry>, e: Entry, tag: Option<string>, body: string)
    ensures Given(es + [e], tag, body)
       <==> Given(es, tag, body) || (!AllBlank(e.text) && e.tag == tag && Body(e) == body)
  {
    hide Body, AllBlank;
    var more := es + [e];
    FilledMore(es, e);
    assert more[|es|] == e;
    if j :| Filled(es, j) && es[j].tag == tag && Body(es[j]) == body { assert more[j] == es[j] && Filled(more, j); }
  }

  lemma MetStays(before: nat, es: seq<Entry>, e: Entry, made: seq<nat>, tag: Option<string>, met: nat)
    requires MetAt(before, es, made, tag, met) && forall i | 0 <= i < |made| :: made[i] < |es|
    requires exists j :: Filled(es, j) && es[j].tag == tag
    ensures MetAt(before, es + [e], made, tag, met) && MetAt(before, es + [e], made + [|es|], tag, met)
  {
    hide Filled;
    FilledMore(es, e);
    FilledIndex(es);
    FilledIndex(es + [e]);
    var j0 :| Filled(es, j0) && es[j0].tag == tag;
    assert (es + [e])[j0].tag == tag;
  }

  lemma FilledIndex(es: seq<Entry>)
    ensures forall j | Filled(es, j) :: 0 <= j < |es|
  {
  }

  lemma MetNow(before: nat, es: seq<Entry>, e: Entry, made: seq<nat>)
    requires !AllBlank(e.text) && forall i | 0 <= i < |made| :: made[i] < |es|
    requires forall j | Filled(es, j) :: es[j].tag != e.tag
    ensures MetAt(before, es + [e], made, e.tag, before + |made|)
    ensures MetAt(before, es + [e], made + [|es|], e.tag, before + |made|)
  {
    hide Filled;
    FilledMore(es, e);
    FilledIndex(es + [e]);
    assert (es + [e])[|es|].tag == e.tag;
  }

  function MetWith(met: map<Option<string>, nat>, tag: Option<string>, now: nat): map<Option<string>, nat> {
    if tag in met then met else met[tag := now]
  }

  lemma LoadAccounts(es: seq<Entry>, e: Entry, s: State, met: map<Option<string>, nat>, tagged: bool)
    requires Accounted(es, s, met, tagged) && e.tag.Some? == tagged
    requires forall j | Filled(es, j) :: es[j].tag in met
    ensures Accounted(es, Load(s, e), MetWith(met, e.tag, |s.notes|), tagged) && Load(s, e).notes == s.notes
  {
    hide Known, Body, Filled;
    FilledIndex(es);
    assert s.notes[..|s.notes|] == s.notes;
    assert Key(e) == KeyOf(e.tag);
    forall tag: Option<string> | tag.Some? == tagged && tag != e.tag ensures KeyOf(tag) != KeyOf(e.tag) {}
  }

  lemma AddAccounts(es: seq<Entry>, e: Entry, s: State, met: map<Option<string>, nat>, tagged: bool)
    requires Accounted(es, s, met, tagged) && e.tag.Some? == tagged && e.tag in met && !AllBlank(e.text)
    ensures Accounted(es + [e], Add(s, Key(e), Body(e)), met, tagged)
  {
    hide Known, Body, Filled, Given, AllBlank, Created;
    var key, body := Key(e), Body(e);
    var t := Add(s, key, body);
    assert key == KeyOf(e.tag);
    forall tag: Option<string> | tag.Some? == tagged && tag != e.tag ensures KeyOf(tag) != key {}
    forall tag | tag in met ensures t.notes[..met[tag]] == s.notes[..met[tag]] {}
    forall tag, b ensures Given(es + [e], tag, b) <==> Given(es, tag, b) || (e.tag == tag && body == b) {
      GivenMore(es, e, tag, b);
    }
  }

  lemma BlankAccounts(es: seq<Entry>, e: Entry, s: State, met: map<Option<string>, nat>, tagged: bool)
    requires Accounted(es, s, met, tagged) && AllBlank(e.text)
    ensures Accounted(es + [e], s, met, tagged)
  {
    hide Known, Body, Filled, Given, AllBlank;
    forall tag, b ensures Given(es + [e], tag, b) <==> Given(es, tag, b) { GivenMore(es, e, tag, b); }
  }

  lemma MetMore(before: nat, es: seq<Entry>, e: Entry, made: seq<nat>, met: map<Option<string>, nat>)
    requires AllMet(es, met) && (forall j | Filled(es, j) :: es[j].tag in met) && !AllBlank(e.text)
    requires forall i | 0 <= i < |made| :: made[i] < |es|
    requires forall tag | tag in met :: MetAt(before, es, made, tag, met[tag])
    ensures var now := MetWith(met, e.tag, before + |made|);
      && AllMet(es + [e], now) && (forall j | Filled(es + [e], j) :: (es + [e])[j].tag in now)
      && (forall tag | tag in now :: MetAt(before, es + [e], made, tag, now[tag]))
      && (forall tag | tag in now :: MetAt(before, es + [e], made + [|es|], tag, now[tag]))
  {
    hide Filled, MetAt, AllBlank;
    FilledIndex(es);
    FilledIndex(es + [e]);
    FilledMore(es, e);
    var now, more := MetWith(met, e.tag, before + |made|), es + [e];
    assert more[|es|] == e && forall j | 0 <= j < |es| :: more[j] == es[j];
    forall tag | tag in now
      ensures MetAt(before, more, made, tag, now[tag]) && MetAt(before, more, made + [|es|], tag, now[tag])
      ensures exists j :: Filled(more, j) && more[j].tag == tag
    {
      if tag in met {
        MetStays(before, es, e, made, tag, met[tag]);
        var j :| Filled(es, j) && es[j].tag == tag;
        assert Filled(more, j);
      } else {
        MetNow(before, es, e, made);
        assert Filled(more, |es|);
      }
    }
  }

  /** The last clause of the ledger, of the files before the new one. */
  lemma EarlierStay(before: seq<Note>, es: seq<Entry>, e: Entry, made: seq<nat>, met: map<Option<string>, nat>,
                    now: map<Option<string>, nat>, notes: seq<Note>, after: seq<Note>, j: nat)
    requires Ledger(before, es, made, met, notes) && j < |es| && notes <= after
    requires forall tag | tag in met :: tag in now && now[tag] == met[tag]
    ensures Filled(es + [e], j) ==> es[j].tag in now && now[es[j].tag] <= |after|
    ensures j in made <==> Filled(es + [e], j) && !Repeats(es + [e], j)
                           && !Carries(after[..now[es[j].tag]], (es + [e])[j])
  {
    hide Filled, Repeats, Carries, MetAt;
    FilledMore(es, e);
    if Filled(es, j) {
      MetBounded(|before|, es, made, es[j].tag, met[es[j].tag]);
      assert after[..met[es[j].tag]] == notes[..met[es[j].tag]];
    }
  }

  lemma MetBounded(before: nat, es: seq<Entry>, made: seq<nat>, tag: Option<string>, met: nat)
    requires MetAt(before, es, made, tag, met)
    ensures met <= before + |made|
  {
  }

  /** The file that comes last becomes a note unless its body is known by now. */
  ghost predicate MakesLast(es: seq<Entry>, e: Entry, now: map<Option<string>, nat>, notes: seq<Note>) {
    && !AllBlank(e.text) && !Given(es, e.tag, Body(e))
    && e.tag in now && now[e.tag] <= |notes| && !Carries(notes[..now[e.tag]], e)
  }

  lemma LedgerWithout(before: seq<Note>, es: seq<Entry>, e: Entry, made: seq<nat>, met: map<Option<string>, nat>,
                      now: map<Option<string>, nat>, notes: seq<Note>)
    requires Ledger(before, es, made, met, notes) && AllMet(es, met)
    requires now == if AllBlank(e.text) then met else MetWith(met, e.tag, |notes|)
    requires !MakesLast(es, e, now, notes)
    ensures Ledger(before, es + [e], made, now, notes) && AllMet(es + [e], now)
  {
    hide MetAt, Filled, Repeats, Carries, Given, AllBlank, Body;
    var more := es + [e];
    FilledIndex(es);
    FilledIndex(more);
    FilledMore(es, e);
    assert more[|es|] == e && forall j | 0 <= j < |es| :: more[j] == es[j];
    if AllBlank(e.text) { BlankMet(|before|, es, e, made, met); } else { MetMore(|before|, es, e, made, met); }
    forall tag | tag in now ensures now[tag] <= |before| + |made| { MetBounded(|before|, more, made, tag, now[tag]); }
    forall j | 0 <= j < |more|
      ensures j in made <==> Filled(more, j) && !Repeats(more, j) && !Carries(notes[..now[more[j].tag]], more[j])
    {
      if j < |es| { EarlierStay(before, es, e, made, met, now, notes, notes, j); }
    }
  }

  lemma BlankMet(before: nat, es: seq<Entry>, e: Entry, made: seq<nat>, met: map<Option<string>, nat>)
    requires AllBlank(e.text) && AllMet(es, met) && forall j | Filled(es, j) :: es[j].tag in met
    requires forall i | 0 <= i < |made| :: made[i] < |es|
    requires forall tag | tag in met :: MetAt(before, es, made, tag, met[tag])
    ensures AllMet(es + [e], met) && forall j | Filled(es + [e], j) :: (es + [e])[j].tag in met
    ensures forall tag | tag in met :: MetAt(before, es + [e], made, tag, met[tag])
  {
    hide Filled, MetAt, AllBlank;
    FilledIndex(es);
    FilledIndex(es + [e]);
    FilledMore(es, e);
    assert forall j | 0 <= j < |es| :: (es + [e])[j] == es[j];
    forall tag | tag in met
      ensures MetAt(before, es + [e], made, tag, met[tag])
      ensures exists j :: Filled(es + [e], j) && (es + [e])[j].tag == tag
    {
      MetStays(before, es, e, made, tag, met[tag]);
      var j :| Filled(es, j) && es[j].tag == tag;
      assert Filled(es + [e], j);
    }
  }

  /** The last clause of the ledger when the file that comes last becomes a note. */
  lemma MadeMore(before: seq<Note>, es: seq<Entry>, e: Entry, made: seq<nat>, met: map<Option<string>, nat>,
                 now: map<Option<string>, nat>, notes: seq<Note>, after: seq<Note>, j: nat)
    requires Ledger(before, es, made, met, notes) && MakesLast(es, e, now, notes) && j <= |es| && notes <= after
    requires forall tag | tag in met :: tag in now && now[tag] == met[tag]
    ensures Filled(es + [e], j) ==> (es + [e])[j].tag in now && now[(es + [e])[j].tag] <= |after|
    ensures j in made + [|es|] <==> Filled(es + [e], j) && !Repeats(es + [e], j)
                                    && !Carries(after[..now[(es + [e])[j].tag]], (es + [e])[j])
  {
    FilledMore(es, e);
    if j < |es| {
      EarlierStay(before, es, e, made, met, now, notes, after, j);
      hide *;
      assert (made + [|es|])[..|made|] == made && (made + [|es|])[|made|] == |es|;
      assert (es + [e])[j] == es[j];
    } else {
      hide Ledger, Filled, Repeats, Carries, Given, Body;
      assert after[..now[e.tag]] == notes[..now[e.tag]] && (made + [|es|])[|made|] == j;
    }
  }

  lemma LedgerWith(before: seq<Note>, es: seq<Entry>, e: Entry, made: seq<nat>, met: map<Option<string>, nat>,
                   notes: seq<Note>)
    requires Ledger(before, es, made, met, notes) && AllMet(es, met)
    requires MakesLast(es, e, MetWith(met, e.tag, |notes|), notes)
    ensures Ledger(before, es + [e], made + [|es|], MetWith(met, e.tag, |notes|), notes + [Created(Body(e))])
    ensures AllMet(es + [e], MetWith(met, e.tag, |notes|))
  {
    hide MetAt, Filled, Repeats, Carries, Given, AllBlank, Body, Created;
    var more, now, made', after := es + [e], MetWith(met, e.tag, |notes|), made + [|es|], notes + [Created(Body(e))];
    FilledIndex(es);
    FilledIndex(more);
    FilledMore(es, e);
    assert more[|es|] == e && forall j | 0 <= j < |es| :: more[j] == es[j];
    MetMore(|before|, es, e, made, met);
    forall tag | tag in now ensures now[tag] <= |before| + |made| { MetBounded(|before|, more, made, tag, now[tag]); }
    forall j | 0 <= j < |more|
      ensures j in made' <==> Filled(more, j) && !Repeats(more, j) && !Carries(after[..now[more[j].tag]], more[j])
    {
      MadeMore(before, es, e, made, met, now, notes, after, j);
    }
    assert after[..|before|] == notes[..|before|];
  }

  lemma StepLedger(before: seq<Note>, es: seq<Entry>, e: Entry, s: State, made: seq<nat>,
                   met: map<Option<string>, nat>, tagged: bool)
      returns (made': seq<nat>, now: map<Option<string>, nat>)
    requires Ledger(before, es, made, met, s.notes) && AllMet(es, met) && Accounted(es, s, met, tagged)
    requires e.tag.Some? == tagged
    ensures Ledger(before, es + [e], made', now, Step(s, e).notes) && AllMet(es + [e], now)
    ensures Accounted(es + [e], Step(s, e), now, tagged)
  {
    hide Ledger, AllMet, Known, Body, Filled, Given, AllBlank, Created, Carries, IsBlank;
    BlankIff(e.text);
    made' := made;
    if AllBlank(e.text) {
      now := met;
      BlankAccounts(es, e, s, met, tagged);
      LedgerWithout(before, es, e, made, met, now, s.notes);
    } else {
      now := MetWith(met, e.tag, |s.notes|);
      LedgerMeets(before, es, made, met, s.notes);
      LoadAccounts(es, e, s, met, tagged);
      AddAccounts(es, e, Load(s, e), now, tagged);
      CarriesIff(s.notes[..now[e.tag]], e);
      if MakesLast(es, e, now, s.notes) {
        made' := made + [|es|];
        LedgerWith(before, es, e, made, met, s.notes);
      } else {
        LedgerWithout(before, es, e, made, met, now, s.notes);
      }
    }
  }

  lemma LedgerMeets(before: seq<Note>, es: seq<Entry>, made: seq<nat>, met: map<Option<string>, nat>, notes: seq<Note>)
    requires Ledger(before, es, made, met, notes)
    ensures forall j | Filled(es, j) :: es[j].tag in met
  {
    hide Filled, MetAt, Repeats, Carries;
  }

  /** An import comes to exactly what the ledger of its files says. */
  lemma {:induction false} RunLedger(before: seq<Note>, es: seq<Entry>, tagged: bool)
      returns (made: seq<nat>, met: map<Option<string>, nat>)
    requires Uniform(es, tagged)
    ensures Ledger(before, es, made, met, Run(State(before, map[]), es).notes) && AllMet(es, met)
    ensures Accounted(es, Run(State(before, map[]), es), met, tagged)
  {
    if es == [] {
      made, met := [], map[];
    } else {
      var front, e := es[..|es| - 1], es[|es| - 1];
      made, met := RunLedger(before, front, tagged);
      hide Ledger, AllMet, Accounted, Step;
      made, met := StepLedger(before, front, e, Run(State(before, map[]), front), made, met, tagged);
      assert front + [e] == es;
    }
  }

  /** The body a file gives: its text, stamped with the tag if it does not carry it. */
  ghost predicate IsStamped(e: Entry, body: string) {
    match e.tag
    case None => body == e.text
    case Some(tag) => Tags.IsStamped(e.text, tag, body)
  }

  lemma BodyIsStamped(e: Entry)
    ensures IsStamped(e, Body(e))
  {
    hide Tags.EnsureTag, Tags.IsStamped;
    if e.tag.Some? { Tags.StampedIs(e.text, e.tag.value); }
  }

  lemma EntriesUniform(source: Source, files: seq<File>)
    requires AllNamed(source, files) && AllRead(files)
    ensures Uniform(Entries(source, files), !source.NoProject?)
  {
    hide Project.TagFor;
  }

  /**
   What an import of readable files with tags comes to: the notes of before, and one for each file
   that is not blank and whose stamped body was not there when its tag was first met, nor in an earlier
   file of the tag; in the order of the files, each live and with the metadata of its body.
   */
  lemma ImportIsLedger(notes: seq<Note>, source: Source, files: seq<File>)
      returns (made: seq<nat>, met: map<Option<string>, nat>)
    requires AllNamed(source, files) && AllRead(files)
    ensures var es := Entries(source, files);
      var after := Run(State(notes, map[]), es).notes;
      && (forall k | 0 <= k < |files| :: IsEntry(source, files[k], es[k]) && IsStamped(es[k], Body(es[k])))
      && Ledger(notes, es, made, met, after)
      && forall i | 0 <= i < |made| :: IsImported(after[|notes| + i], Body(es[made[i]]))
  {
    hide AllNamed, AllRead, Uniform, AllMet, Accounted, IsEntry, IsImported, IsStamped, Created, Body, Run, MetAt;
    hide Filled, Repeats, Carries;
    var es := Entries(source, files);
    EntriesAre(source, files);
    EntriesUniform(source, files);
    made, met := RunLedger(notes, es, !source.NoProject?);
    forall k | 0 <= k < |files| ensures IsStamped(es[k], Body(es[k])) { BodyIsStamped(es[k]); }
    forall i | 0 <= i < |made|
      ensures IsImported(Run(State(notes, map[]), es).notes[|notes| + i], Body(es[made[i]]))
    {
      CreatedIs(Body(es[made[i]]));
    }
  }
}

/**
 Project tags (project.rs) and the folder names they are exported under (transfer.rs).
 */
module Project {
  import opened Text
  import opened Fences
  import opened Tags

  const TAG_PREFIX := "proj/"

  function Lower(c: char): char {
    if 'A' <= c <= 'Z' then (c as int + 32) as char else c
  }

  predicate Kept(c: char) {
    'a' <= c <= 'z' || '0' <= c <= '9' || c == '/'
  }

  predicate Separator(c: char) {
    c == ' ' || c == '_' || c == '-'
  }

  /** One turn of the loop in `slugify`: the text so far and whether a separator was just written. */
  function SlugStep(out: string, prevSep: bool, ch: char): (string, bool) {
    var c := Lower(ch);
    if Kept(c) then (out + [c], false)
    else if Separator(c) && !prevSep && out != "" then (out + "_", true)
    else (out, prevSep)
  }

  function TrimBars(s: string): (r: string)
    ensures |r| <= |s|
    decreases |s|
  {
    if s != "" && s[0] == '_' then TrimBars(s[1..])
    else if s != "" && s[|s| - 1] == '_' then TrimBars(s[..|s| - 1])
    else s
  }

  function SlugLoop(name: string, out: string, prevSep: bool): string {
    if name == "" then out
    else
      var (next, sep) := SlugStep(out, prevSep, name[0]);
      SlugLoop(name[1..], next, sep)
  }

  function Slugify(name: string): string {
    TrimBars(SlugLoop(name, "", false))
  }

  // ---- what a slug looks like ----

  predicate SlugChar(c: char) {
    'a' <= c <= 'z' || '0' <= c <= '9' || c == '/' || c == '_'
  }

  /** Lower-case tag scalars, no two bars in a row, none at either end. */
  predicate IsSlug(s: string) {
    && (forall i | 0 <= i < |s| :: SlugChar(s[i]))
    && (forall i | 0 < i < |s| :: s[i - 1] != '_' || s[i] != '_')
    && (s == "" || (s[0] != '_' && s[|s| - 1] != '_'))
  }

  /** What the loop keeps true: a slug so far, with a last bar exactly when one was just written. */
  ghost predicate LoopShape(out: string, prevSep: bool) {
    && (forall i | 0 <= i < |out| :: SlugChar(out[i]))
    && (forall i | 0 < i < |out| :: out[i - 1] != '_' || out[i] != '_')
    && (out == "" ==> !prevSep)
    && (out != "" ==> out[0] != '_' && (prevSep <==> out[|out| - 1] == '_'))
  }

  lemma {:induction false} LoopKeepsShape(name: string, out: string, prevSep: bool) returns (sep: bool)
    requires LoopShape(out, prevSep)
    ensures LoopShape(SlugLoop(name, out, prevSep), sep)
  {
    sep := prevSep;
    if name != "" {
      StepKeepsShape(out, prevSep, name[0]);
      hide LoopShape, SlugStep;
      var step := SlugStep(out, prevSep, name[0]);
      sep := LoopKeepsShape(name[1..], step.0, step.1);
    }
  }

  lemma StepKeepsShape(out: string, prevSep: bool, ch: char)
    requires LoopShape(out, prevSep)
    ensures var step := SlugStep(out, prevSep, ch); LoopShape(step.0, step.1)
  {
  }

  lemma TrimmedShape(s: string, sep: bool)
    requires LoopShape(s, sep)
    ensures IsSlug(TrimBars(s))
  {
    if s != "" && s[|s| - 1] == '_' {
      var front := s[..|s| - 1];
      assert front != "" && front[0] == s[0] && front[|front| - 1] == s[|s| - 2];
      assert TrimBars(front) == front;
    }
  }

  lemma SlugifyMakesSlugs(name: string)
    ensures IsSlug(Slugify(name))
  {
    var sep := LoopKeepsShape(name, "", false);
    TrimmedShape(SlugLoop(name, "", false), sep);
  }

  // ---- what a slug is made of ----

  /** Lowered, with a bar for every separator and without what is neither kept nor a separator. */
  function Barred(name: string): string {
    if name == "" then ""
    else
      var c := name[0];
      (if 'A' <= c <= 'Z' then [('a' as int + (c as int - 'A' as int)) as char]
       else if 'a' <= c <= 'z' || '0' <= c <= '9' || c == '/' then [c]
       else if c == ' ' || c == '_' || c == '-' then "_"
       else "") + Barred(name[1..])
  }

  /** Runs of bars made one bar; none at the front when a bar came `before`. */
  function Collapsed(before: bool, s: string): string
    decreases |s|
  {
    if s == "" then ""
    else if s[0] == '_' then (if before then "" else "_") + Collapsed(true, s[1..])
    else [s[0]] + Collapsed(false, s[1..])
  }

  lemma {:induction false} LoopCollapses(name: string, out: string, prevSep: bool)
    requires out == "" ==> !prevSep
    ensures SlugLoop(name, out, prevSep) == out + Collapsed(prevSep || out == "", Barred(name))
    decreases |name|
  {
    if name != "" {
      var (next, sep) := SlugStep(out, prevSep, name[0]);
      LoopCollapses(name[1..], next, sep);
      var rest := Barred(name[1..]);
      assert ("_" + rest)[1..] == rest && ([Lower(name[0])] + rest)[1..] == rest && "" + rest == rest;
      hide SlugLoop, Barred;
      BarredStep(out, prevSep, name[0], rest);
    }
  }

  lemma BarredStep(out: string, prevSep: bool, ch: char, rest: string)
    requires out == "" ==> !prevSep
    ensures var (next, sep) := SlugStep(out, prevSep, ch);
      var c := Lower(ch);
      var one := if Kept(c) then [c] else if Separator(c) then "_" else "";
      next + Collapsed(sep || next == "", rest) == out + Collapsed(prevSep || out == "", one + rest)
  {
    var c := Lower(ch);
    assert ("_" + rest)[1..] == rest && ([c] + rest)[1..] == rest && "" + rest == rest;
    assert out + ([c] + Collapsed(false, rest)) == out + [c] + Collapsed(false, rest);
    assert out + ("_" + Collapsed(true, rest)) == out + "_" + Collapsed(true, rest);
    assert "" + Collapsed(true, rest) == Collapsed(true, rest);
  }

  /** As documented: lowered, separators made bars, the rest dropped, runs collapsed, ends trimmed. */
  lemma SlugifyCollapses(name: string)
    ensures Slugify(name) == TrimBars(Collapsed(false, Barred(name)))
  {
    LoopCollapses(name, "", false);
    var m := Barred(name);
    assert "" + Collapsed(true, m) == Collapsed(true, m);
    if m != "" && m[0] == '_' {
      var rest := Collapsed(true, m[1..]);
      assert "" + rest == rest && ("_" + rest)[1..] == rest;
    }
  }

  method SlugifyLoop(name: string) returns (slug: string)
    ensures slug == Slugify(name) && IsSlug(slug)
    ensures slug == TrimBars(Collapsed(false, Barred(name)))
  {
    SlugifyMakesSlugs(name);
    SlugifyCollapses(name);
    var out, prevSep := "", false;
    for n := 0 to |name|
      invariant SlugLoop(name[n..], out, prevSep) == SlugLoop(name, "", false)
    {
      assert name[n..][1..] == name[n + 1..];
      var step := SlugStep(out, prevSep, name[n]);
      out, prevSep := step.0, step.1;
    }
    slug := TrimBars(out);
  }

  // ---- slugs of slugs ----

  lemma {:induction false} LoopCopies(done: string, rest: string, prevSep: bool)
    requires IsSlug(done + rest) && (prevSep <==> done != "" && done[|done| - 1] == '_')
    ensures SlugLoop(rest, done, prevSep) == done + rest
    decreases |rest|
  {
    if rest != "" {
      var c := rest[0];
      assert (done + rest)[|done|] == c;
      assert (done + [c]) + rest[1..] == done + rest;
      StepCopies(done, rest, prevSep);
      hide IsSlug, SlugStep;
      LoopCopies(done + [c], rest[1..], c == '_');
    }
  }

  lemma StepCopies(done: string, rest: string, prevSep: bool)
    requires rest != "" && IsSlug(done + rest) && (prevSep <==> done != "" && done[|done| - 1] == '_')
    ensures SlugStep(done, prevSep, rest[0]) == (done + [rest[0]], rest[0] == '_')
  {
    var s := done + rest;
    assert s[|done|] == rest[0];
    if prevSep { assert s[|done| - 1] == '_'; }
  }

  /** A string is left alone by `Slugify` iff it has the shape of a slug; so `Slugify` is idempotent. */
  lemma SlugifyFixes(s: string)
    ensures Slugify(s) == s <==> IsSlug(s)
  {
    if IsSlug(s) {
      assert "" + s == s;
      LoopCopies("", s, false);
    } else {
      SlugifyMakesSlugs(s);
    }
  }

  lemma SlugifyIdempotent(name: string)
    ensures Slugify(Slugify(name)) == Slugify(name)
  {
    SlugifyMakesSlugs(name);
    SlugifyFixes(Slugify(name));
    hide Slugify;
  }

  // ---- tags ----

  function StripTagPrefix(name: string): string {
    if TAG_PREFIX <= name then name[|TAG_PREFIX|..] else name
  }

  function ToTag(name: string): string {
    var slug := Slugify(StripTagPrefix(name));
    if slug == "" then "" else TAG_PREFIX + slug
  }

  lemma ToTagIdempotent(name: string)
    ensures ToTag(ToTag(name)) == ToTag(name)
  {
    var slug := Slugify(StripTagPrefix(name));
    SlugifyIdempotent(StripTagPrefix(name));
    assert (TAG_PREFIX + slug)[|TAG_PREFIX|..] == slug;
    EmptySlug();
    hide Slugify;
  }

  lemma EmptySlug()
    ensures Slugify("") == ""
  {
  }

  lemma ToTagIsValid(name: string)
    requires ToTag(name) != ""
    ensures ValidTag(ToTag(name))
  {
    var slug := Slugify(StripTagPrefix(name));
    SlugifyMakesSlugs(StripTagPrefix(name));
    hide Slugify;
    forall i | 0 <= i < |TAG_PREFIX + slug| ensures IsTagChar((TAG_PREFIX + slug)[i]) {
      if i >= |TAG_PREFIX| { assert (TAG_PREFIX + slug)[i] == slug[i - |TAG_PREFIX|]; }
    }
  }

  /** A stamped project tag always comes back out of the body it was stamped on. */
  lemma ProjectTagRoundTrip(body: string, name: string)
    requires ToTag(name) != ""
    ensures ToTag(name) in ExtractTags(EnsureTag(body, ToTag(name)))
  {
    ToTagIsValid(name);
    EnsuredIffValid(body, ToTag(name));
    hide ToTag, ExtractTags, EnsureTag;
  }

  // ---- folders: export names them, import reads them ----

  /** `slug.split('/')`. */
  function Components(s: string): (cs: seq<string>)
    ensures |cs| >= 1
  {
    if s == "" then [""]
    else
      var rest := Components(s[1..]);
      if s[0] == '/' then [""] + rest else [[s[0]] + rest[0]] + rest[1..]
  }

  function NonEmpty(cs: seq<string>): seq<string> {
    if cs == [] then [] else (if cs[0] == "" then [] else [cs[0]]) + NonEmpty(cs[1..])
  }

  /** A relative path with `/` between its components. */
  function Path(cs: seq<string>): string {
    if cs == [] then "" else if |cs| == 1 then cs[0] else cs[0] + "/" + Path(cs[1..])
  }

  function SlugFolder(slug: string): Option<seq<string>> {
    var parts := NonEmpty(Components(slug));
    if parts == [] then None else Some(parts)
  }

  predicate NoEmptyComponent(slug: string) {
    forall c | c in Components(slug) :: c != ""
  }

  lemma {:induction false} PathOfComponents(s: string)
    ensures Path(Components(s)) == s
  {
    if s != "" {
      PathOfComponents(s[1..]);
      assert s == [s[0]] + s[1..];
      var rest := Components(s[1..]);
      hide Path;
      if s[0] == '/' {
        PathSlash(rest);
      } else {
        PathExtended(s[0], rest[0], rest[1..]);
        assert [rest[0]] + rest[1..] == rest;
      }
    }
  }

  lemma PathSlash(rest: seq<string>)
    requires |rest| >= 1
    ensures Path([""] + rest) == "/" + Path(rest)
  {
    assert ([""] + rest)[1..] == rest;
  }

  lemma PathExtended(c: char, first: string, tail: seq<string>)
    ensures Path([[c] + first] + tail) == [c] + Path([first] + tail)
  {
    assert ([[c] + first] + tail)[1..] == tail && ([first] + tail)[1..] == tail;
    var rest := Path(tail);
    hide Path;
    assert ([c] + first) + "/" + rest == [c] + (first + "/" + rest);
  }

  lemma {:induction false} NonEmptyKeepsAll(cs: seq<string>)
    ensures |NonEmpty(cs)| <= |cs|
    ensures "" !in cs ==> NonEmpty(cs) == cs
    ensures "" in cs ==> |NonEmpty(cs)| < |cs|
  {
    if cs != [] {
      NonEmptyKeepsAll(cs[1..]);
      assert cs == [cs[0]] + cs[1..];
    }
  }

  lemma {:induction false} PathShrinks(cs: seq<string>)
    ensures |Path(NonEmpty(cs))| <= |Path(cs)|
    ensures |NonEmpty(cs)| < |cs| && |cs| > 1 ==> |Path(NonEmpty(cs))| < |Path(cs)|
  {
    if cs != [] {
      var rest := NonEmpty(cs[1..]);
      PathShrinks(cs[1..]);
      NonEmptyKeepsAll(cs[1..]);
      if |cs| == 1 {
        assert cs[1..] == [] && rest == [];
      } else {
        assert |Path(cs)| == |cs[0]| + 1 + |Path(cs[1..])|;
        assert [] + rest == rest && [cs[0]] + [] == [cs[0]];
        if cs[0] != "" && rest != [] {
          assert ([cs[0]] + rest)[1..] == rest;
          assert |Path(NonEmpty(cs))| == |cs[0]| + 1 + |Path(rest)|;
        }
      }
    }
  }

  lemma {:induction false} ComponentsClean(s: string)
    ensures forall c | c in Components(s) :: '/' !in c
    ensures (forall c | c in Components(s) :: c == "") <==> forall c | c in s :: c == '/'
  {
    if s != "" {
      var all, rest := Components(s), Components(s[1..]);
      ComponentsClean(s[1..]);
      hide Components;
      assert s == [s[0]] + s[1..] && rest == [rest[0]] + rest[1..];
      if s[0] != '/' {
        assert all[0] in all && all[0] == [s[0]] + rest[0];
        assert s[0] in s;
      } else {
        assert all == [""] + rest;
        assert forall c :: c in all <==> c == "" || c in rest;
        assert forall c :: c in s <==> c == '/' || c in s[1..];
      }
    }
  }

  lemma {:induction false} NonEmptyHas(cs: seq<string>)
    ensures forall c :: c in NonEmpty(cs) <==> c in cs && c != ""
  {
    if cs != [] {
      NonEmptyHas(cs[1..]);
      assert cs == [cs[0]] + cs[1..];
    }
  }

  /** The folders a slug is exported to: what stands between its slashes; none for slashes alone. */
  lemma FolderParts(slug: string)
    ensures SlugFolder(slug).None? <==> forall c | c in slug :: c == '/'
    ensures SlugFolder(slug).Some? ==>
      var parts := SlugFolder(slug).value;
      && (forall p | p in parts :: p != "" && '/' !in p)
      && (NoEmptyComponent(slug) ==> Path(parts) == slug)
  {
    var cs := Components(slug);
    ComponentsClean(slug);
    NonEmptyHas(cs);
    NonEmptyKeepsAll(cs);
    PathOfComponents(slug);
    hide Components, NonEmpty, Path;
    if c :| c in cs && c != "" { assert c in NonEmpty(cs); }
    if NonEmpty(cs) != [] { assert NonEmpty(cs)[0] in NonEmpty(cs); }
  }

  lemma SlugifyLength(name: string)
    ensures |Slugify(name)| <= |name|
  {
    SlugLoopLength(name, "", false);
  }

  lemma {:induction false} SlugLoopLength(name: string, out: string, prevSep: bool)
    ensures |SlugLoop(name, out, prevSep)| <= |out| + |name|
  {
    if name != "" {
      var step := SlugStep(out, prevSep, name[0]);
      SlugLoopLength(name[1..], step.0, step.1);
    }
  }

  /**
   The folder a note's tag is exported under is read back as that tag exactly when the tag's slug
   is a slug, has no empty component and does not itself start with the tag prefix.
   */
  lemma FolderRoundTrip(slug: string)
    requires SlugFolder(slug).Some?
    ensures ToTag(Path(SlugFolder(slug).value)) == TAG_PREFIX + slug
       <==> IsSlug(slug) && NoEmptyComponent(slug) && !(TAG_PREFIX <= slug)
  {
    var cs := Components(slug);
    var path := Path(NonEmpty(cs));
    PathOfComponents(slug);
    NonEmptyKeepsAll(cs);
    PathShrinks(cs);
    SlugifyLength(StripTagPrefix(path));
    SlugifyFixes(slug);
    EmptySlug();
    assert slug == "" ==> "" in cs;
    hide Slugify, Components, Path, NonEmpty, IsSlug;
    if ToTag(path) == TAG_PREFIX + slug {
      assert (TAG_PREFIX + slug)[|TAG_PREFIX|..] == slug;
      assert (TAG_PREFIX + Slugify(StripTagPrefix(path)))[|TAG_PREFIX|..] == Slugify(StripTagPrefix(path));
      assert Slugify(StripTagPrefix(path)) == slug;
      if "" in cs { OneComponent(slug); }
      assert NonEmpty(cs) == cs && path == slug;
      assert StripTagPrefix(path) == path;
    }
  }

  lemma OneComponent(slug: string)
    requires SlugFolder(slug).Some? && |NonEmpty(Components(slug))| < |Components(slug)|
    ensures |Components(slug)| > 1
  {
    hide Components;
    if |Components(slug)| == 1 { NonEmptyOfOne(Components(slug)); }
  }

  lemma NonEmptyOfOne(cs: seq<string>)
    requires |cs| == 1
    ensures NonEmpty(cs) == if cs[0] == "" then [] else [cs[0]]
  {
    assert cs[1..] == [];
  }

  /** `tag_for`: the tag of the folder a file lies in, or no project at all. */
  function TagFor(folder: string): Option<string> {
    var tag := ToTag(folder);
    var slug := if TAG_PREFIX <= tag then tag[|TAG_PREFIX|..] else "";
    if slug == "" || "" in Components(slug) then None else Some(tag)
  }

  lemma TagForIsClean(folder: string)
    ensures match TagFor(folder)
      case Some(tag) => tag == ToTag(folder) && ValidTag(tag) && NoEmptyComponent(tag[|TAG_PREFIX|..])
      case None => ToTag(folder) == "" || !NoEmptyComponent(ToTag(folder)[|TAG_PREFIX|..])
  {
    if ToTag(folder) != "" { ToTagIsValid(folder); }
    hide Slugify, Components, ValidTag;
  }
}

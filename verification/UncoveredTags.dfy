/**
 What removing a tag does to the tags of a body (content/edits.rs, content/mod.rs): which matches
 the scanner counts afterwards, said of the body before.
 */
module UncoveredTags {
  import opened Text
  import opened Fences
  import opened Tags
  import opened RemoveTag
  import Frontmatter

  // ---- matches, one position at a time ----

  ghost predicate IsMatch(s: string, m: Range) {
    m.start < |s| && StartsTag(s, m.start) && m.end == TagEnd(s, m.start + 1)
  }

  /** Matches never hide one another: wherever a tag could start, one does. */
  lemma {:induction false} MatchIff(s: string, i: nat, m: Range)
    requires i <= |s|
    ensures m in TagMatches(s, i) <==> i <= m.start && IsMatch(s, m)
    decreases |s| - i
  {
    if i < |s| {
      TagMatchesStep(s, i);
      TagEndScalars(s, i + 1);
      if StartsTag(s, i) {
        var end := TagEnd(s, i + 1);
        MatchIff(s, end, m);
        hide TagMatches, TagEnd;
        assert forall p | i < p < end :: IsTagChar(s[p]);
        assert m in [Range(i, end)] + TagMatches(s, end) <==> m == Range(i, end) || m in TagMatches(s, end);
      } else {
        MatchIff(s, i + 1, m);
      }
    }
  }

  lemma {:induction false} NamesIff(s: string, ms: seq<Range>, code: seq<Range>, name: string)
    ensures name in NamesOf(s, ms, code) <==> exists m | m in ms :: IsTag(s, m, code) && Name(s, m) == name
  {
    hide IsTag, Name;
    if ms != [] {
      NamesIff(s, ms[1..], code, name);
      assert ms == [ms[0]] + ms[1..];
      assert forall m | m in ms[1..] :: m in ms;
      assert ms[0] in ms;
    }
  }

  ghost predicate HasTag(s: string, name: string) {
    exists m :: IsMatch(s, m) && IsTag(s, m, CodeRanges(s)) && Name(s, m) == name
  }

  lemma ExtractedIff(body: string, name: string)
    ensures name in ExtractTags(body) <==> HasTag(Normalize(body), name)
  {
    var s := Normalize(body);
    DistinctHas(TagNames(s));
    NamesIff(s, TagMatches(s, 0), CodeRanges(s), name);
    forall m ensures m in TagMatches(s, 0) <==> IsMatch(s, m) { MatchIff(s, 0, m); }
    hide TagMatches, IsMatch, IsTag, Name, NamesOf, CodeRanges, Distinct;
  }

  // ---- a match as a stretch of the text ----

  lemma MatchSplits(s: string, m: Range)
    requires IsMatch(s, m)
    ensures m.start + 1 < m.end <= |s| && ValidTag(Name(s, m)) && |Name(s, m)| == m.end - m.start - 1
    ensures s == s[..m.start] + ("#" + Name(s, m)) + s[m.end..]
    ensures m.end == |s| || !IsTagChar(s[m.end])
  {
    TagEndScalars(s, m.start + 1);
    TagEndStops(s, m.start + 1);
    hide TagEnd;
    assert s[m.start..m.end] == "#" + s[m.start + 1..m.end];
  }

  lemma {:induction false} TagEndStops(s: string, i: nat)
    requires i <= |s|
    ensures TagEnd(s, i) == |s| || !IsTagChar(s[TagEnd(s, i)])
    decreases |s| - i
  {
    if i < |s| && IsTagChar(s[i]) { TagEndStops(s, i + 1); }
  }

  lemma {:induction false} TagEndAt(s: string, i: nat, end: nat)
    requires i <= end <= |s| && (end == |s| || !IsTagChar(s[end]))
    requires forall p | i <= p < end :: IsTagChar(s[p])
    ensures TagEnd(s, i) == end
    decreases end - i
  {
    if i < end { TagEndAt(s, i + 1, end); }
  }

  lemma SplitMatches(a: string, name: string, c: string)
    requires ValidTag(name) && (c == "" || !IsTagChar(c[0]))
    ensures var s, m := a + ("#" + name) + c, Range(|a|, |a| + 1 + |name|); IsMatch(s, m) && Name(s, m) == name
  {
    var s, m := a + ("#" + name) + c, Range(|a|, |a| + 1 + |name|);
    assert forall p | |a| < p < m.end :: s[p] == name[p - |a| - 1];
    assert s[m.start + 1..m.end] == name;
    TagEndAt(s, |a| + 1, m.end);
    hide TagEnd;
  }

  // ---- through the normalization of line endings ----

  /** Where a match of `s` lies in `Normalize(s)`. */
  function Moved(s: string, m: Range): Range
    requires m.start <= m.end && m.start <= |s|
  {
    var at := |Normalize(s[..m.start])|;
    Range(at, at + (m.end - m.start))
  }

  predicate AtBlank(before: string) {
    before == "" || IsWhitespace(before[|before| - 1])
  }

  lemma OneNormalized(c: char)
    ensures Normalize([c]) == [if c == '\r' then '\n' else c]
  {
    assert [c][1..] == "";
    assert ReplaceCrLf([c]) == [c] + "";
    assert ReplaceCr([c]) == [if c == '\r' then '\n' else c] + "";
  }

  lemma CrLfNormalized()
    ensures Normalize("\r\n") == "\n"
  {
    assert "\r\n"[2..] == "";
    ReplaceCrLfStep("\r\n");
    assert "\n" + "" == "\n";
    assert Normalize("\r\n") == ReplaceCr("\n");
    OneNormalized('\n');
    assert ReplaceCrLf("\n") == "\n";
  }

  lemma NormalizedLast(s: string)
    ensures AtBlank(Normalize(s)) <==> AtBlank(s)
  {
    if s != "" {
      var front, last := s[..|s| - 1], [s[|s| - 1]];
      assert s == front + last;
      if Joins(front, last) {
        NormalizeConcat(front, last);
        OneNormalized(last[0]);
        hide Normalize;
      } else {
        var lead := s[..|s| - 2];
        assert s == lead + "\r\n";
        NormalizeConcat(lead, "\r\n");
        CrLfNormalized();
        hide Normalize;
      }
    }
  }

  lemma NormalizedTag(name: string)
    requires ValidTag(name)
    ensures Normalize("#" + name) == "#" + name
  {
    forall c | c in "#" + name ensures c != '\r' {
      var k :| 0 <= k < |"#" + name| && ("#" + name)[k] == c;
      if k > 0 { assert c == name[k - 1]; }
    }
    NormalizeWithoutCr("#" + name);
  }

  lemma NormalizedFirst(c: string)
    ensures Normalize(c) == "" <==> c == ""
    ensures c != "" ==> Normalize(c)[0] == if c[0] == '\r' then '\n' else c[0]
  {
    if c != "" { ReplaceCrLfStep(c); }
  }

  lemma MatchMoves(s: string, m: Range)
    requires IsMatch(s, m)
    ensures m.start <= m.end && m.start <= |s| && IsMatch(Normalize(s), Moved(s, m))
    ensures Name(Normalize(s), Moved(s, m)) == Name(s, m)
    ensures PrecededOk(Normalize(s), Moved(s, m).start) == PrecededOk(s, m.start)
  {
    MatchSplits(s, m);
    var a, name, c := s[..m.start], Name(s, m), s[m.end..];
    hide IsMatch, Name;
    NormalizedTag(name);
    NormalizeConcat(a, "#" + name);
    NormalizeConcat(a + ("#" + name), c);
    NormalizedFirst(c);
    NormalizedLast(a);
    hide Normalize;
    SplitMatches(Normalize(a), name, Normalize(c));
  }

  /** Every hash of the normalized text comes from a hash of the text. */
  lemma {:induction false} HashOrigin(s: string, j: nat) returns (i: nat)
    requires j < |Normalize(s)| && Normalize(s)[j] == '#'
    ensures i < |s| && s[i] == '#' && |Normalize(s[..i])| == j
    decreases |s|
  {
    NormalizedFirst(s);
    if j == 0 {
      i := 0;
      assert s[..0] == "" && Normalize("") == "";
    } else {
      var cut := CrLfCut(s);
      NormalizedCut(s);
      hide Normalize;
      var k := HashOrigin(s[cut..], j - 1);
      i := cut + k;
      NormalizedPrefix(s, k);
    }
  }

  lemma NormalizedCut(s: string)
    requires s != ""
    ensures |Normalize(s)| == 1 + |Normalize(s[CrLfCut(s)..])|
    ensures Normalize(s)[1..] == Normalize(s[CrLfCut(s)..])
  {
    ReplaceCrLfCut(s);
    var rest := ReplaceCrLf(s[CrLfCut(s)..]);
    assert |CrLfOut(s)| == 1;
    ReplaceCrConcat(CrLfOut(s), rest);
    assert |ReplaceCr(CrLfOut(s))| == 1;
    hide ReplaceCrLf, ReplaceCr;
  }

  lemma NormalizedPrefix(s: string, k: nat)
    requires s != "" && k < |s[CrLfCut(s)..]| && s[CrLfCut(s)..][k] == '#'
    ensures |Normalize(s[..CrLfCut(s) + k])| == 1 + |Normalize(s[CrLfCut(s)..][..k])|
  {
    var cut := CrLfCut(s);
    var front := s[..cut + k];
    assert CrLfCut(front) == cut && front[cut..] == s[cut..][..k];
    NormalizedCut(front);
    hide Normalize;
  }

  lemma MatchOrigin(s: string, moved: Range) returns (m: Range)
    requires IsMatch(Normalize(s), moved)
    ensures IsMatch(s, m) && m.start <= m.end && m.start <= |s| && Moved(s, m) == moved
  {
    var i := HashOrigin(s, moved.start);
    var a, c := s[..i], s[i..];
    assert s == a + c;
    NormalizeConcat(a, c);
    OneNormalized('#');
    assert c == "#" + c[1..] && Joins("#", c[1..]);
    NormalizeConcat("#", c[1..]);
    NormalizedFirst(c[1..]);
    hide Normalize;
    assert Normalize(s)[moved.start + 1] == Normalize(c[1..])[0];
    assert StartsTag(s, i);
    m := Range(i, TagEnd(s, i + 1));
    MatchMoves(s, m);
    hide TagEnd;
  }

  // ---- what a tag is ----

  ghost predicate Letter(c: char) {
    'a' <= c <= 'z' || 'A' <= c <= 'Z'
  }

  ghost predicate WordChar(c: char) {
    Letter(c) || '0' <= c <= '9' || c == '_' || c == '/'
  }

  /** At `m` stands a hash and a name: a letter, then letters, digits, `_` and `/`, as many as there are. */
  ghost predicate HashAndName(s: string, m: Range) {
    && m.start + 2 <= m.end <= |s| && s[m.start] == '#' && Letter(s[m.start + 1])
    && (forall p | m.start + 1 < p < m.end :: WordChar(s[p])) && (m.end == |s| || !WordChar(s[m.end]))
  }

  /** The text from the opening line of the block to its closing one. */
  ghost predicate SpansLines(s: string, b: Block, r: Range) {
    && b.open <= b.close < |Lines(s)| && r.start <= r.end <= |s|
    && r.end == |Join(Lines(s)[..b.close + 1])| && s[r.start..r.end] == Join(Lines(s)[b.open..b.close + 1])
  }

  /** Code is what the fenced blocks span, of the one matching of fences there is, and the inline spans. */
  ghost predicate CodeAt(s: string, r: Range) {
    || (exists spans :: AreSpans(s, 0, spans) && r in spans)
    || exists bs, b :: IsMatching(Lines(s), 0, bs) && b in bs && SpansLines(s, b, r)
  }

  lemma BlockRangeIs(s: string, b: Block, r: Range)
    requires b.open <= b.close < |Lines(s)|
    ensures SpansLines(s, b, r) <==> r == BlockRange(Lines(s), b)
  {
    var ls := Lines(s);
    Frontmatter.BlockText(s, b);
    Frontmatter.OffsetSlice(ls, 0, b.close + 1, b.close);
    Frontmatter.JoinLength(ls[..b.close + 1]);
    assert ls[0..b.close + 1] == ls[..b.close + 1];
    hide Lines, Join, Offset;
    var block := BlockRange(ls, b);
    if SpansLines(s, b, r) { assert |s[r.start..r.end]| == |s[block.start..block.end]|; }
  }

  lemma FencedAt(s: string, k: nat)
    requires k < |FencedRanges(s)|
    ensures var b := Blocks(Lines(s), 0)[k]; b in Blocks(Lines(s), 0) && SpansLines(s, b, FencedRanges(s)[k])
  {
    var ls := Lines(s);
    BlocksInBounds(ls, 0);
    var b := Blocks(ls, 0)[k];
    assert FencedRanges(s)[k] == BlockRange(ls, b);
    hide *;
    BlockRangeIs(s, b, BlockRange(ls, b));
  }

  lemma FencedOf(s: string, b: Block, r: Range)
    requires b in Blocks(Lines(s), 0) && SpansLines(s, b, r)
    ensures r in FencedRanges(s)
  {
    var ls := Lines(s);
    BlocksInBounds(ls, 0);
    var k :| 0 <= k < |Blocks(ls, 0)| && Blocks(ls, 0)[k] == b;
    assert FencedRanges(s)[k] == BlockRange(ls, b);
    hide *;
    BlockRangeIs(s, b, r);
  }

  lemma FencedIs(s: string, r: Range)
    ensures r in FencedRanges(s) <==> exists bs, b :: IsMatching(Lines(s), 0, bs) && b in bs && SpansLines(s, b, r)
  {
    hide *;
    var ls := Lines(s);
    BlocksMatch(ls, 0);
    if r in FencedRanges(s) {
      var k :| 0 <= k < |FencedRanges(s)| && FencedRanges(s)[k] == r;
      FencedAt(s, k);
    }
    if bs, b :| IsMatching(ls, 0, bs) && b in bs && SpansLines(s, b, r) {
      MatchingIsUnique(ls, 0, bs, Blocks(ls, 0));
      FencedOf(s, b, r);
    }
  }

  /** What the scanners take for code is that. */
  lemma CodeIs(s: string, r: Range)
    ensures r in CodeRanges(s) <==> CodeAt(s, r)
  {
    SpansAre(s, 0);
    FencedIs(s, r);
    assert r in CodeRanges(s) <==> r in FencedRanges(s) || r in InlineSpans(s, 0);
    hide CodeRanges, InlineSpans, FencedRanges, AreSpans, IsMatching, SpansLines;
    if spans :| AreSpans(s, 0, spans) && r in spans { SpansOnce(s, 0, spans, InlineSpans(s, 0)); }
  }

  /** The name stands there behind whitespace or at the start, and no code has a scalar of it. */
  ghost predicate TagAt(s: string, m: Range, name: string) {
    && HashAndName(s, m) && name == s[m.start + 1..m.end] && (m.start == 0 || IsWhitespace(s[m.start - 1]))
    && forall r | CodeAt(s, r) :: m.end <= r.start || r.end <= m.start
  }

  /** Outside code, as the scanner asks and as it is said here. */
  lemma OutsideIs(s: string, m: Range)
    requires m.start < m.end
    ensures !OverlapsAny(m, CodeRanges(s)) <==> forall r | CodeAt(s, r) :: m.end <= r.start || r.end <= m.start
  {
    var code := CodeRanges(s);
    forall r ensures r in code <==> CodeAt(s, r) { CodeIs(s, r); }
    hide CodeRanges, CodeAt;
    assert forall k | 0 <= k < |code| :: code[k] in code;
    if OverlapsAny(m, code) {
      var k :| 0 <= k < |code| && Overlaps(m, code[k]);
      assert CodeAt(s, code[k]);
    }
  }

  lemma MatchIs(s: string, m: Range)
    ensures IsMatch(s, m) <==> HashAndName(s, m)
  {
    if m.start + 1 <= |s| {
      TagEndScalars(s, m.start + 1);
      TagEndStops(s, m.start + 1);
    }
    hide TagEnd;
  }

  /** The tags of a body are the names that stand so in it, its line endings made newlines. */
  lemma ExtractedIs(body: string, name: string)
    ensures name in ExtractTags(body) <==> exists m :: TagAt(Normalize(body), m, name)
  {
    var s := Normalize(body);
    ExtractedIff(body, name);
    hide ExtractTags, Normalize, CodeRanges, TagAt, IsMatch;
    forall m: Range ensures IsMatch(s, m) && IsTag(s, m, CodeRanges(s)) && Name(s, m) == name <==> TagAt(s, m, name) {
      TagAtIff(s, m, name);
    }
  }

  lemma TagAtIff(s: string, m: Range, name: string)
    ensures IsMatch(s, m) && IsTag(s, m, CodeRanges(s)) && Name(s, m) == name <==> TagAt(s, m, name)
  {
    hide CodeRanges, HashAndName, IsMatch, CodeAt;
    MatchIs(s, m);
    if IsMatch(s, m) {
      MatchSplits(s, m);
      OutsideIs(s, m);
    }
  }

  // ---- the order of the tags ----

  /** The matches that count as tags. */
  function Tagging(s: string, ms: seq<Range>, code: seq<Range>): seq<Range> {
    if ms == [] then [] else (if IsTag(s, ms[0], code) then [ms[0]] else []) + Tagging(s, ms[1..], code)
  }

  lemma {:induction false} TaggingNames(s: string, ms: seq<Range>, code: seq<Range>)
    ensures |NamesOf(s, ms, code)| == |Tagging(s, ms, code)|
    ensures forall k | 0 <= k < |Tagging(s, ms, code)| :: NamesOf(s, ms, code)[k] == Name(s, Tagging(s, ms, code)[k])
  {
    hide IsTag, Name;
    if ms != [] { TaggingNames(s, ms[1..], code); }
  }

  lemma {:induction false} TaggingHas(s: string, ms: seq<Range>, code: seq<Range>, m: Range)
    ensures m in Tagging(s, ms, code) <==> m in ms && IsTag(s, m, code)
  {
    hide IsTag;
    if ms != [] {
      TaggingHas(s, ms[1..], code, m);
      assert ms == [ms[0]] + ms[1..];
    }
  }

  ghost predicate Ascending(ms: seq<Range>) {
    forall k, l | 0 <= k < l < |ms| :: ms[k].start < ms[l].start
  }

  lemma {:induction false} TaggingInOrder(s: string, ms: seq<Range>, code: seq<Range>)
    requires Ascending(ms)
    ensures Ascending(Tagging(s, ms, code))
  {
    hide IsTag;
    if ms != [] {
      var rest := Tagging(s, ms[1..], code);
      TaggingInOrder(s, ms[1..], code);
      forall m | m in rest ensures ms[0].start < m.start {
        TaggingHas(s, ms[1..], code, m);
        var k :| 0 <= k < |ms| - 1 && ms[1..][k] == m;
        assert ms[k + 1] == m;
      }
      assert forall k | 0 <= k < |rest| :: rest[k] in rest;
      var ts := Tagging(s, ms, code);
      assert ts == (if IsTag(s, ms[0], code) then [ms[0]] else []) + rest;
      hide Tagging;
      forall k, l | 0 <= k < l < |ts| ensures ts[k].start < ts[l].start {
        if IsTag(s, ms[0], code) { assert ts[l] == rest[l - 1] && (k > 0 ==> ts[k] == rest[k - 1]); }
      }
    }
  }

  ghost predicate FirstOf(names: seq<string>, name: string, k: nat) {
    k < |names| && names[k] == name && forall i | 0 <= i < k :: names[i] != name
  }

  ghost predicate Earlier(names: seq<string>, a: string, b: string) {
    exists k: nat, l: nat :: FirstOf(names, a, k) && FirstOf(names, b, l) && k < l
  }

  lemma {:induction false} FirstExists(names: seq<string>, name: string) returns (k: nat)
    requires name in names
    ensures FirstOf(names, name, k)
  {
    k := 0;
    while names[k] != name
      invariant k < |names| && forall i | 0 <= i < k :: names[i] != name
      decreases |names| - k
    {
      k := k + 1;
    }
  }

  ghost predicate InOrder(names: seq<string>, ds: seq<string>) {
    forall i, j | 0 <= i < j < |ds| :: Earlier(names, ds[i], ds[j])
  }

  lemma {:induction false} DistinctInOrder(names: seq<string>)
    ensures InOrder(names, Distinct(names))
  {
    if names != [] {
      var front, last := names[..|names| - 1], names[|names| - 1];
      var ds, was := Distinct(names), Distinct(front);
      DistinctInOrder(front);
      DistinctHas(front);
      assert names == front + [last] && was <= ds;
      hide Distinct, Earlier;
      forall i, j | 0 <= i < j < |ds| ensures Earlier(names, ds[i], ds[j]) {
        if j < |was| {
          assert ds[i] == was[i] && ds[j] == was[j];
          EarlierMore(front, last, ds[i], ds[j]);
        } else {
          var k := FirstExists(front, ds[i]);
          LastIsNew(front, last, ds[i], k);
        }
      }
    }
  }

  lemma EarlierMore(front: seq<string>, last: string, a: string, b: string)
    requires Earlier(front, a, b)
    ensures Earlier(front + [last], a, b)
  {
    var k: nat, l: nat :| FirstOf(front, a, k) && FirstOf(front, b, l) && k < l;
    assert FirstOf(front + [last], a, k) && FirstOf(front + [last], b, l);
  }

  lemma LastIsNew(front: seq<string>, last: string, a: string, k: nat)
    requires FirstOf(front, a, k) && last !in front
    ensures Earlier(front + [last], a, last)
  {
    assert FirstOf(front + [last], a, k) && FirstOf(front + [last], last, |front|);
  }

  /** Some occurrence of the tag `a` comes before every one of `b`. */
  ghost predicate SeenBefore(s: string, a: string, b: string) {
    exists m :: TagAt(s, m, a) && forall n | TagAt(s, n, b) :: m.start < n.start
  }

  lemma EarlierIsBefore(s: string, a: string, b: string)
    requires Earlier(TagNames(s), a, b)
    ensures SeenBefore(s, a, b)
  {
    var ms, code := TagMatches(s, 0), CodeRanges(s);
    var ts := Tagging(s, ms, code);
    MatchShape(s, 0);
    TaggingNames(s, ms, code);
    TaggingInOrder(s, ms, code);
    var k: nat, l: nat :| FirstOf(TagNames(s), a, k) && FirstOf(TagNames(s), b, l) && k < l;
    assert TagNames(s) == NamesOf(s, ms, code);
    hide TagNames, TagMatches, CodeRanges, Tagging, NamesOf, IsTag, TagAt, IsMatch, Name;
    assert ts[k] in ts;
    TaggingIs(s, ts[k], a);
    forall n | TagAt(s, n, b) ensures ts[k].start < n.start {
      TaggingIs(s, n, b);
      var x :| 0 <= x < |ts| && ts[x] == n;
      assert TagNames(s)[x] == b;
    }
  }

  lemma TaggingIs(s: string, m: Range, name: string)
    ensures m in Tagging(s, TagMatches(s, 0), CodeRanges(s)) && Name(s, m) == name <==> TagAt(s, m, name)
  {
    TaggingHas(s, TagMatches(s, 0), CodeRanges(s), m);
    MatchIff(s, 0, m);
    hide *;
    TagAtIff(s, m, name);
  }

  /** The tags of a body come in the order they are first seen, each once. */
  lemma ExtractedInOrder(body: string)
    ensures var tags := ExtractTags(body);
      forall i, j | 0 <= i < j < |tags| :: SeenBefore(Normalize(body), tags[i], tags[j])
  {
    var s, tags := Normalize(body), ExtractTags(body);
    DistinctInOrder(TagNames(s));
    hide TagNames, Distinct, Earlier, SeenBefore;
    forall i, j | 0 <= i < j < |tags| ensures SeenBefore(s, tags[i], tags[j]) { EarlierIsBefore(s, tags[i], tags[j]); }
  }

  // ---- through the removal ----

  /** The scalars kept of the first `p`. */
  function KeptTo(s: string, rs: seq<Range>, p: nat): string
    requires p <= |s|
  {
    if p == 0 then "" else KeptTo(s, rs, p - 1) + if In(p - 1, rs) then "" else [s[p - 1]]
  }

  lemma {:induction false} KeepSplits(s: string, rs: seq<Range>, p: nat)
    requires p <= |s|
    ensures Keep(s, 0, rs) == KeptTo(s, rs, p) + Keep(s, p, rs)
  {
    hide In;
    if p == 0 {
      assert "" + Keep(s, 0, rs) == Keep(s, 0, rs);
    } else {
      KeepSplits(s, rs, p - 1);
      var one := if In(p - 1, rs) then "" else [s[p - 1]];
      assert Keep(s, p - 1, rs) == one + Keep(s, p, rs);
      Associative(KeptTo(s, rs, p - 1), one, Keep(s, p, rs));
    }
  }

  lemma {:induction false} KeptOrigin(s: string, rs: seq<Range>, j: nat, n: nat) returns (p: nat)
    requires n <= |s| && j < |KeptTo(s, rs, n)|
    ensures p < n && !In(p, rs) && |KeptTo(s, rs, p)| == j && s[p] == KeptTo(s, rs, n)[j]
  {
    hide In;
    if j < |KeptTo(s, rs, n - 1)| {
      p := KeptOrigin(s, rs, j, n - 1);
    } else {
      p := n - 1;
    }
  }

  /** An occurrence that the removal of `tag` cuts out. */
  ghost predicate Goes(b: string, tag: string, m: Range) {
    IsMatch(b, m) && Counts(b, m, tag, CodeRanges(b))
  }

  lemma GoesShape(b: string, tag: string, m: Range)
    requires Goes(b, tag, m)
    ensures IsOccurrence(b, m) && PrecededOk(b, m.start) && (m.end == |b| || !IsTagChar(b[m.end]))
  {
    MatchSplits(b, m);
    TagEndScalars(b, m.start + 1);
    hide TagEnd, CodeRanges;
  }

  /** `p` is within the removal of an occurrence that goes. */
  ghost predicate GoesAt(b: string, tag: string, p: nat) {
    exists m :: Goes(b, tag, m) && m.start < m.end <= |b| && Within(p, Removal(b, m))
  }

  lemma InRemoved(b: string, tag: string, p: nat)
    ensures In(p, Removed(b, tag)) <==> GoesAt(b, tag, p)
  {
    hide *;
    if In(p, Removed(b, tag)) { InRemovedGoes(b, tag, p); }
    if GoesAt(b, tag, p) { GoesInRemoved(b, tag, p); }
  }

  lemma InRemovedGoes(b: string, tag: string, p: nat)
    requires In(p, Removed(b, tag))
    ensures GoesAt(b, tag, p)
  {
    hide TagMatches, CodeRanges, Removal, Counts, IsMatch, Removals, Within, IsOccurrence;
    var ms, code, rs := TagMatches(b, 0), CodeRanges(b), Removed(b, tag);
    MatchShape(b, 0);
    RemovalsFrom(b, ms, tag, code);
    var k :| 0 <= k < |rs| && Within(p, rs[k]);
    assert rs[k] in Removals(b, ms, tag, code);
    var j :| 0 <= j < |ms| && Counts(b, ms[j], tag, code) && rs[k] == Removal(b, ms[j]);
    assert ms[j] in ms;
    MatchIff(b, 0, ms[j]);
    assert Goes(b, tag, ms[j]);
  }

  lemma GoesInRemoved(b: string, tag: string, p: nat)
    requires GoesAt(b, tag, p)
    ensures In(p, Removed(b, tag))
  {
    hide TagMatches, CodeRanges, Removal, Counts, IsMatch, Removals, Within, IsOccurrence;
    var ms, code, rs := TagMatches(b, 0), CodeRanges(b), Removed(b, tag);
    MatchShape(b, 0);
    RemovalsFrom(b, ms, tag, code);
    var m :| Goes(b, tag, m) && m.start < m.end <= |b| && Within(p, Removal(b, m));
    MatchIff(b, 0, m);
    var j :| 0 <= j < |ms| && ms[j] == m;
    assert Removal(b, ms[j]) in rs;
  }

  /** An occurrence counts where the tag stands, and nowhere else. */
  lemma GoesIs(b: string, tag: string, m: Range)
    ensures Goes(b, tag, m) <==> TagAt(b, m, tag)
  {
    hide CodeRanges, TagAt, IsMatch;
    TagAtIff(b, m, tag);
  }

  /** What a removal takes, exactly: the cut of every occurrence of the tag, and nothing else. */
  lemma RemovedIs(b: string, tag: string, p: nat)
    ensures In(p, Removed(b, tag)) <==> exists m, r :: TagAt(b, m, tag) && IsCut(b, m, r) && Within(p, r)
  {
    CutsRemoved(b, tag, p);
    forall m ensures Goes(b, tag, m) <==> TagAt(b, m, tag) { GoesIs(b, tag, m); }
    hide *;
  }

  lemma CutsRemoved(b: string, tag: string, p: nat)
    ensures In(p, Removed(b, tag)) <==> exists m, r :: Goes(b, tag, m) && IsCut(b, m, r) && Within(p, r)
  {
    InRemoved(b, tag, p);
    hide Removed, In, Removal, Goes, IsCut, IsOccurrence, Within, PrecededOk, IsTagChar;
    if m :| Goes(b, tag, m) && m.start < m.end <= |b| && Within(p, Removal(b, m)) {
      GoesShape(b, tag, m);
      RemovalIs(b, m);
    }
    if m, r :| Goes(b, tag, m) && IsCut(b, m, r) && Within(p, r) {
      GoesShape(b, tag, m);
      OccurrenceInBounds(b, m);
      RemovalIs(b, m);
      CutOnce(b, m, r, Removal(b, m));
    }
  }

  /** The cut of some occurrence of the tag takes the scalar at `p`. */
  ghost predicate IsCutAt(b: string, tag: string, p: nat) {
    exists m, r :: TagAt(b, m, tag) && IsCut(b, m, r) && Within(p, r)
  }

  /** `out` is what stands at positions `ps` of the body, in order. */
  ghost predicate StandsAt(b: string, ps: seq<nat>, out: string) {
    && |ps| == |out|
    && (forall i | 0 <= i < |ps| :: ps[i] < |b| && out[i] == b[ps[i]])
    && forall i, j | 0 <= i < j < |ps| :: ps[i] < ps[j]
  }

  /** `out` is the body without what a removal cuts, and with everything else. */
  ghost predicate IsWithout(b: string, tag: string, out: string) {
    exists ps: seq<nat> :: StandsAt(b, ps, out) && forall p: nat :: p in ps <==> p < |b| && !IsCutAt(b, tag, p)
  }

  function KeptFrom(b: string, rs: seq<Range>, i: nat): seq<nat>
    requires i <= |b|
    decreases |b| - i
  {
    if i == |b| then [] else (if In(i, rs) then [] else [i]) + KeptFrom(b, rs, i + 1)
  }

  lemma {:induction false} KeptAre(b: string, rs: seq<Range>, i: nat)
    requires i <= |b|
    ensures forall p: nat :: p in KeptFrom(b, rs, i) <==> i <= p < |b| && !In(p, rs)
    decreases |b| - i
  {
    hide In;
    if i < |b| { KeptAre(b, rs, i + 1); }
  }

  lemma StandsCons(b: string, i: nat, rest: seq<nat>, out: string)
    requires i < |b| && StandsAt(b, rest, out) && forall p | p in rest :: i < p
    ensures StandsAt(b, [i] + rest, [b[i]] + out)
  {
    forall k | 0 <= k < |rest| ensures i < rest[k] { assert rest[k] in rest; }
  }

  lemma NothingStands(b: string)
    ensures StandsAt(b, [], "")
  {
  }

  lemma {:induction false} KeptStands(b: string, rs: seq<Range>, i: nat)
    requires i <= |b|
    ensures StandsAt(b, KeptFrom(b, rs, i), Keep(b, i, rs))
    decreases |b| - i
  {
    hide In, StandsAt;
    if i == |b| {
      NothingStands(b);
    } else {
      KeptStands(b, rs, i + 1);
      KeptAre(b, rs, i + 1);
      var rest, out := KeptFrom(b, rs, i + 1), Keep(b, i + 1, rs);
      if In(i, rs) {
        assert [] + rest == rest && "" + out == out;
      } else {
        StandsCons(b, i, rest, out);
      }
    }
  }

  lemma LeftIsWithout(b: string, tag: string)
    ensures IsWithout(b, tag, Left(b, tag))
  {
    var rs := Removed(b, tag);
    KeptStands(b, rs, 0);
    KeptAre(b, rs, 0);
    hide Removed, In, TagAt, IsCut, Within, Keep, KeptFrom, StandsAt;
    forall p: nat ensures In(p, rs) <==> IsCutAt(b, tag, p) { RemovedIs(b, tag, p); }
  }

  lemma OccurrenceInBounds(b: string, m: Range)
    requires IsOccurrence(b, m)
    ensures m.start < m.end <= |b|
  {
  }

  /** Two matches that share a scalar are one. */
  lemma SameMatch(b: string, m: Range, n: Range, p: nat)
    requires IsMatch(b, m) && IsMatch(b, n) && Within(p, m) && Within(p, n) && p < |b|
    ensures m == n
  {
    if m.start < n.start { NoHashInside(b, m, n.start); }
    if n.start < m.start { NoHashInside(b, n, m.start); }
    hide TagEnd;
  }

  lemma NoHashInside(b: string, m: Range, p: nat)
    requires IsMatch(b, m) && m.start < p < m.end && p < |b|
    ensures IsTagChar(b[p]) && b[p] != '#'
  {
    TagEndScalars(b, m.start + 1);
    hide TagEnd;
  }

  /** Of a match either nothing is cut, or it is one of those cut out. */
  lemma MatchKept(b: string, tag: string, n: Range, p: nat)
    requires IsMatch(b, n) && Within(p, n)
    ensures In(p, Removed(b, tag)) <==> Goes(b, tag, n)
  {
    InRemoved(b, tag, p);
    MatchSplits(b, n);
    TagEndScalars(b, n.start + 1);
    if Goes(b, tag, n) {
      RemovalHolds(b, n);
      assert Within(p, Removal(b, n));
    }
    if m :| Goes(b, tag, m) && m.start < m.end <= |b| && Within(p, Removal(b, m)) {
      GoesShape(b, tag, m);
      RemovalShape(b, m);
      hide Removal, Counts, CodeRanges, TagEnd;
      if Within(p, m) { SameMatch(b, m, n, p); } else { TagScalarIsNotBlank(b, n, p); }
    }
  }

  lemma RemovalHolds(b: string, m: Range)
    requires m.start < m.end <= |b|
    ensures Removal(b, m).start <= m.start && m.end <= Removal(b, m).end
  {
  }

  lemma TagScalarIsNotBlank(b: string, n: Range, p: nat)
    requires IsMatch(b, n) && Within(p, n)
    ensures p < |b| && !IsWhitespace(b[p])
  {
    MatchSplits(b, n);
    TagEndScalars(b, n.start + 1);
    hide TagEnd;
  }

  /**
   After a kept scalar that is not blank, the text goes on as it did, or with nothing a tag could
   go on with: no removal joins a tag with what follows it.
   */
  lemma GapEnds(b: string, tag: string, q: nat)
    requires 0 < q < |b| && !In(q - 1, Removed(b, tag)) && !IsWhitespace(b[q - 1]) && In(q, Removed(b, tag))
    ensures var rest := Keep(b, q, Removed(b, tag)); rest == "" || !IsTagChar(rest[0])
  {
    var rs := Removed(b, tag);
    InRemoved(b, tag, q);
    InRemoved(b, tag, q - 1);
    var m :| Goes(b, tag, m) && m.start < m.end <= |b| && Within(q, Removal(b, m));
    GoesShape(b, tag, m);
    GapShape(b, m, q);
    forall p: nat | q <= p < m.end ensures In(p, rs) {
      InRemoved(b, tag, p);
      assert Within(p, Removal(b, m));
    }
    KeepStretch(b, q, m.end, rs);
    if m.end < |b| { EndKept(b, tag, m); }
    hide Removed, Removal, Goes;
  }

  /** What goes right after a kept scalar that is not blank is a blank and the occurrence behind it. */
  lemma GapShape(b: string, m: Range, q: nat)
    requires IsOccurrence(b, m) && PrecededOk(b, m.start)
    requires 0 < q < |b| && !IsWhitespace(b[q - 1]) && Within(q, Removal(b, m)) && !Within(q - 1, Removal(b, m))
    ensures !StandsAlone(b, m) && Removal(b, m) == Range(q, m.end) && m.start == q + 1
    ensures m.end < |b| ==> !IsHorizontal(b[m.end])
  {
    LineStartIsStart(b, m.start);
    NewlineIsBlank();
    hide StandsAlone, LineStart, LineEnd, IsWhitespace;
  }

  lemma HorizontalIsBlank(c: char)
    ensures IsHorizontal(c) ==> IsWhitespace(c)
    ensures IsTagChar(c) || c == '#' ==> !IsWhitespace(c)
  {
  }

  /** The scalar behind an occurrence cut out with the blank before it stays. */
  lemma EndKept(b: string, tag: string, m: Range)
    requires Goes(b, tag, m) && IsOccurrence(b, m) && m.end < |b| && !IsHorizontal(b[m.end]) && !IsTagChar(b[m.end])
    requires !StandsAlone(b, m)
    ensures !In(m.end, Removed(b, tag))
  {
    InRemoved(b, tag, m.end);
    if n :| Goes(b, tag, n) && n.start < n.end <= |b| && Within(m.end, Removal(b, n)) {
      GoesShape(b, tag, n);
      EndIsOutside(b, m, n);
    }
  }

  lemma EndIsOutside(b: string, m: Range, n: Range)
    requires IsMatch(b, m) && IsMatch(b, n) && IsOccurrence(b, m) && IsOccurrence(b, n) && PrecededOk(b, n.start)
    requires m.end < |b| && !IsHorizontal(b[m.end]) && !IsTagChar(b[m.end]) && !StandsAlone(b, m)
    ensures !Within(m.end, Removal(b, n))
  {
    if StandsAlone(b, n) {
      EndOffLine(b, m, n);
    } else {
      EndNotBeside(b, m, n);
    }
    hide StandsAlone, Removal, IsMatch, IsOccurrence, PrecededOk;
  }

  lemma EndNotBeside(b: string, m: Range, n: Range)
    requires IsOccurrence(b, m) && IsOccurrence(b, n) && PrecededOk(b, n.start) && !StandsAlone(b, n)
    requires m.end < |b| && !IsHorizontal(b[m.end]) && !IsTagChar(b[m.end])
    ensures !Within(m.end, Removal(b, n))
  {
    HorizontalIsBlank(b[m.end - 1]);
    assert m.end <= n.start || n.end <= m.end;
    hide StandsAlone, LineStart, LineEnd, IsWhitespace, IsHorizontal, IsTagChar;
  }

  lemma EndOffLine(b: string, m: Range, n: Range)
    requires IsMatch(b, m) && IsMatch(b, n) && IsOccurrence(b, m) && IsOccurrence(b, n)
    requires m.end < |b| && !IsTagChar(b[m.end]) && !StandsAlone(b, m) && StandsAlone(b, n)
    ensures !Within(m.end, Removal(b, n))
  {
    var p := m.end - 1;
    HorizontalIsBlank(b[p]);
    NewlineIsBlank();
    AloneOnLine(b, n);
    LineStartIsStart(b, n.start);
    if Within(p, n) { SameMatch(b, m, n, p); }
    hide StandsAlone, IsWhitespace, IsMatch, LineStart, LineEnd;
  }

  // ---- the matches of what is left ----

  function Left(b: string, tag: string): string {
    Keep(b, 0, Removed(b, tag))
  }

  /** Where a match that stays lies in what is left. */
  function Slid(b: string, tag: string, n: Range): Range
    requires n.start <= n.end && n.start <= |b|
  {
    var at := |KeptTo(b, Removed(b, tag), n.start)|;
    Range(at, at + (n.end - n.start))
  }

  lemma MatchSlides(b: string, tag: string, n: Range)
    requires IsMatch(b, n) && !Goes(b, tag, n)
    ensures n.start <= n.end && n.start <= |b| && IsMatch(Left(b, tag), Slid(b, tag, n))
    ensures Name(Left(b, tag), Slid(b, tag, n)) == Name(b, n)
    ensures PrecededOk(Left(b, tag), Slid(b, tag, n).start) == AtBlank(KeptTo(b, Removed(b, tag), n.start))
  {
    var rs := Removed(b, tag);
    MatchSplits(b, n);
    forall p: nat | n.start <= p < n.end ensures !In(p, rs) { MatchKept(b, tag, n, p); }
    AfterMatch(b, tag, n);
    hide Removed, Goes, IsMatch, In;
    KeepSplits(b, rs, n.start);
    KeepStretch(b, n.start, n.end, rs);
    var a, name, c := KeptTo(b, rs, n.start), Name(b, n), Keep(b, n.end, rs);
    assert b[n.start..n.end] == "#" + name;
    Associative(a, "#" + name, c);
    SplitMatches(a, name, c);
    hide Keep, KeptTo, Name;
    PrecededAfter(a, "#" + name + c);
    Associative(a, "#" + name, c);
  }

  lemma PrecededAfter(a: string, c: string)
    ensures PrecededOk(a + c, |a|) == AtBlank(a)
  {
  }

  /** A match that stays is followed by nothing it could go on with. */
  lemma AfterMatch(b: string, tag: string, n: Range)
    requires IsMatch(b, n) && !Goes(b, tag, n) && n.start < n.end <= |b|
    ensures var c := Keep(b, n.end, Removed(b, tag)); c == "" || !IsTagChar(c[0])
  {
    MatchSplits(b, n);
    MatchKept(b, tag, n, n.end - 1);
    TagScalarIsNotBlank(b, n, n.end - 1);
    hide Removed, Goes, IsMatch;
    if n.end < |b| && In(n.end, Removed(b, tag)) { GapEnds(b, tag, n.end); }
  }

  /** Where a match of what is left comes from. */
  lemma HashLeft(b: string, tag: string, slid: Range) returns (p: nat)
    requires IsMatch(Left(b, tag), slid)
    ensures p < |b| && StartsTag(b, p) && !In(p, Removed(b, tag)) && |KeptTo(b, Removed(b, tag), p)| == slid.start
  {
    var rs := Removed(b, tag);
    KeepSplits(b, rs, |b|);
    assert Keep(b, |b|, rs) == "" && KeptTo(b, rs, |b|) + "" == Left(b, tag);
    p := KeptOrigin(b, rs, slid.start, |b|);
    KeepSplits(b, rs, p);
    LetterLeft(b, rs, p, slid.start);
    HorizontalIsBlank(b[p]);
    hide Removed, In, Keep, KeptTo, TagEnd;
    if p + 1 < |b| && In(p + 1, rs) { GapEnds(b, tag, p + 1); }
    NextKept(b, rs, p);
  }

  lemma LetterLeft(b: string, rs: seq<Range>, p: nat, at: nat)
    requires p < |b| && !In(p, rs) && |KeptTo(b, rs, p)| == at
    requires Keep(b, 0, rs) == KeptTo(b, rs, p) + Keep(b, p, rs)
    requires at < |Keep(b, 0, rs)| && StartsTag(Keep(b, 0, rs), at)
    ensures b[p] == '#' && Keep(b, p + 1, rs) != "" && IsLetter(Keep(b, p + 1, rs)[0])
  {
    var a, rest := KeptTo(b, rs, p), Keep(b, p + 1, rs);
    assert Keep(b, p, rs) == [b[p]] + rest;
    assert (a + ([b[p]] + rest))[at] == b[p];
    hide Keep, KeptTo, In;
    assert (a + ([b[p]] + rest))[at + 1] == rest[0];
  }

  lemma MatchLeft(b: string, tag: string, slid: Range) returns (n: Range)
    requires IsMatch(Left(b, tag), slid)
    ensures IsMatch(b, n) && !Goes(b, tag, n) && n.start <= n.end && n.start <= |b| && Slid(b, tag, n) == slid
  {
    var p := HashLeft(b, tag, slid);
    n := Range(p, TagEnd(b, p + 1));
    MatchSplits(b, n);
    MatchKept(b, tag, n, p);
    hide Removed, Goes, In, Keep, KeptTo, TagEnd;
    MatchSlides(b, tag, n);
  }

  lemma NextKept(b: string, rs: seq<Range>, p: nat)
    requires p < |b| && Keep(b, p + 1, rs) != ""
    ensures p + 1 < |b|
    ensures !In(p + 1, rs) ==> Keep(b, p + 1, rs)[0] == b[p + 1]
  {
  }

  // ---- the tags of what is left ----

  /** A match of the body that is not cut out, and counts once the cut is made. */
  ghost predicate Surfaces(b: string, tag: string, n: Range) {
    && IsMatch(b, n) && n.start <= n.end && n.start <= |b|
    && !Counts(b, n, tag, CodeRanges(b))
    && AtBlank(KeptTo(b, Removed(b, tag), n.start))
    && var slid := Slid(b, tag, n);
    && slid.start <= slid.end && slid.start <= |Left(b, tag)|
    && !OverlapsAny(Moved(Left(b, tag), slid), CodeRanges(Normalize(Left(b, tag))))
  }

  lemma SurfacesCounts(b: string, tag: string, n: Range)
    requires Surfaces(b, tag, n)
    ensures HasTag(Normalize(Left(b, tag)), Name(b, n))
  {
    MatchSlides(b, tag, n);
    var out, slid := Left(b, tag), Slid(b, tag, n);
    hide Removed, CodeRanges, IsMatch, Keep, KeptTo, Name;
    MatchMoves(out, slid);
    var moved := Moved(out, slid);
    assert IsMatch(Normalize(out), moved);
    InBounds(Normalize(out), moved);
    hide Left, Moved, Normalize, Slid;
    assert IsTag(Normalize(out), moved, CodeRanges(Normalize(out)));
  }

  lemma InBounds(s: string, m: Range)
    requires IsMatch(s, m)
    ensures m.start <= m.end <= |s|
  {
    MatchSplits(s, m);
  }

  lemma CountsSurfaces(b: string, tag: string, name: string) returns (n: Range)
    requires HasTag(Normalize(Left(b, tag)), name)
    ensures Surfaces(b, tag, n) && Name(b, n) == name
  {
    var out := Left(b, tag);
    hide Removed, CodeRanges, IsMatch, Keep, KeptTo, Name, OverlapsAny, Left;
    var moved :| IsMatch(Normalize(out), moved) && IsTag(Normalize(out), moved, CodeRanges(Normalize(out)))
                 && Name(Normalize(out), moved) == name;
    var slid := MatchOrigin(out, moved);
    MatchMoves(out, slid);
    n := MatchLeft(b, tag, slid);
    MatchSlides(b, tag, n);
    InBounds(out, slid);
  }

  /**
   The tags after a removal, exactly, for every body and every tag: those of the matches that did
   not count as the tag removed, and now stand at the start or after a blank, outside the code of
   what is left. Removing a tag takes it from the tags iff no match of its own surfaces.
   */
  lemma TagsAfterRemoval(body: string, tag: string, name: string)
    ensures name in ExtractTags(Left(body, tag)) <==> exists n :: Surfaces(body, tag, n) && Name(body, n) == name
  {
    ExtractedIff(Left(body, tag), name);
    hide ExtractTags, Surfaces, Left, Name, HasTag, Normalize;
    if HasTag(Normalize(Left(body, tag)), name) { var n := CountsSurfaces(body, tag, name); }
    if n :| Surfaces(body, tag, n) && Name(body, n) == name { SurfacesCounts(body, tag, n); }
  }

  // ---- without code ----

  lemma {:induction false} KeptScalars(s: string, rs: seq<Range>, i: nat)
    requires i <= |s|
    ensures forall c | c in Keep(s, i, rs) :: c in s
    decreases |s| - i
  {
    hide In;
    if i < |s| { KeptScalars(s, rs, i + 1); }
  }

  lemma LeftHasNoCode(body: string, tag: string)
    requires NoMarks(body)
    ensures CodeRanges(Normalize(Left(body, tag))) == [] && CodeRanges(body) == []
  {
    var out := Left(body, tag);
    NoMarksNoCode(body);
    KeptScalars(body, Removed(body, tag), 0);
    Frontmatter.ReplacedScalars(out);
    Frontmatter.ReplacedScalars(ReplaceCrLf(out));
    hide Left, ReplaceCrLf, ReplaceCr;
    NoMarksNoCode(Normalize(out));
  }

  /** A match glued to what is before it, and left at the start or behind a blank by the removal. */
  ghost predicate Unglued(b: string, tag: string, n: Range) {
    && IsMatch(b, n) && Name(b, n) == tag && !PrecededOk(b, n.start)
    && n.start <= |b| && AtBlank(KeptTo(b, Removed(b, tag), n.start))
  }

  /** With no code marks the tag survives its removal exactly when a match glued to one cut out comes free. */
  lemma TagSurvivesIff(body: string, tag: string)
    requires NoMarks(body)
    ensures tag in ExtractTags(Left(body, tag)) <==> exists n :: Unglued(body, tag, n)
  {
    LeftHasNoCode(body, tag);
    TagsAfterRemoval(body, tag, tag);
    hide ExtractTags;
    forall n ensures Surfaces(body, tag, n) && Name(body, n) == tag <==> Unglued(body, tag, n) {
      if IsMatch(body, n) { SurfacesIffUnglued(body, tag, n); }
    }
  }

  lemma SurfacesIffUnglued(body: string, tag: string, n: Range)
    requires IsMatch(body, n) && CodeRanges(body) == [] && CodeRanges(Normalize(Left(body, tag))) == []
    ensures Surfaces(body, tag, n) && Name(body, n) == tag <==> Unglued(body, tag, n)
  {
    InBounds(body, n);
    if Name(body, n) == tag && !PrecededOk(body, n.start) {
      MatchSlides(body, tag, n);
      InBounds(Left(body, tag), Slid(body, tag, n));
    }
    hide Removed, CodeRanges, IsMatch, Left, KeptTo, Name, Slid, Moved;
  }

  // ---- with code: removing can open and close fences ----

  lemma ThreeTildes()
    ensures OpenFence("~~~") == Some(Fence('~', 3)) && IsClosingFence("~~~", Fence('~', 3))
  {
    var s := "~~~";
    assert s[1..] == "~~" && s[2..] == "~" && s[3..] == "" && s[1..][1..] == s[2..] && s[2..][1..] == s[3..];
    assert RunLength(s[3..], '~') == 0;
    assert RunLength(s[2..], '~') == 1;
    assert RunLength(s[1..], '~') == 2;
  }

  lemma HashLine(line: string)
    requires line != "" && line[0] == '#'
    ensures OpenFence(line) == None && !IsClosingFence(line, Fence('~', 3))
  {
    assert RunLength(line, '~') == 0;
  }

  lemma FourLines(a: string, b: string, c: string, d: string) returns (s: string)
    requires OneLine(a) && OneLine(b) && OneLine(c) && OneLine(d)
    ensures s == a + "\n" + b + "\n" + c + "\n" + d && Lines(s) == [a, b, c, d]
  {
    var ls := [a, b, c, d];
    s := Join(ls);
    LinesJoin(ls);
    assert ls[1..] == [b, c, d] && [b, c, d][1..] == [c, d] && [c, d][1..] == [d];
    assert Join(ls[1..]) == b + "\n" + Join([c, d]);
    assert Join([c, d]) == c + "\n" + d;
    assert a + "\n" + (b + "\n" + (c + "\n" + d)) == a + "\n" + b + "\n" + c + "\n" + d;
  }

  lemma BlocksBefore(ls: seq<string>)
    requires ls == ["#a ~~~", "~~~", "#a", "~~~"]
    ensures Blocks(ls, 0) == [Block(1, 3)]
  {
    ThreeTildes();
    HashLine(ls[0]);
    HashLine(ls[2]);
    hide OpenFence, IsClosingFence;
    assert FindClose(ls, 3, Fence('~', 3)) == Some(3);
    assert FindClose(ls, 2, Fence('~', 3)) == Some(3);
    assert Blocks(ls, 4) == [];
    assert Blocks(ls, 1) == [Block(1, 3)] + [];
  }

  lemma BlocksAfter(ls: seq<string>)
    requires ls == ["~~~", "~~~", "#a", "~~~"]
    ensures Blocks(ls, 0) == [Block(0, 1)]
  {
    ThreeTildes();
    HashLine(ls[2]);
    hide OpenFence, IsClosingFence;
    assert FindClose(ls, 4, Fence('~', 3)) == None;
    assert FindClose(ls, 1, Fence('~', 3)) == Some(1);
    assert Blocks(ls, 4) == [];
    assert Blocks(ls, 3) == Blocks(ls, 4);
    assert Blocks(ls, 2) == Blocks(ls, 3);
    assert Blocks(ls, 0) == [Block(0, 1)] + [];
  }

  lemma CodeIsFenced(s: string, ls: seq<string>, b: Block)
    requires Lines(s) == ls && Blocks(ls, 0) == [b] && b.open < |ls| && b.close < |ls| && '`' !in s
    ensures CodeRanges(s) == [BlockRange(ls, b)]
  {
    NoTickAfter("", s, 0);
    assert "" + s == s;
    hide Lines, Blocks, BlockRange, InlineSpans;
    assert FencedRanges(s) == [BlockRange(ls, b)];
  }

  lemma CodeBefore(b: string)
    requires b == "#a ~~~\n~~~\n#a\n~~~"
    ensures CodeRanges(b) == [Range(7, 17)]
  {
    hide Lines, Blocks, CodeRanges, Offset;
    var ls := LinesBefore(b);
    BlocksBefore(ls);
    OffsetsBefore(ls);
    CodeIsFenced(b, ls, Block(1, 3));
  }

  lemma LinesBefore(b: string) returns (ls: seq<string>)
    requires b == "#a ~~~\n~~~\n#a\n~~~"
    ensures ls == ["#a ~~~", "~~~", "#a", "~~~"] && Lines(b) == ls
  {
    hide Lines;
    ls := ["#a ~~~", "~~~", "#a", "~~~"];
    var s := FourLines(ls[0], ls[1], ls[2], ls[3]);
    assert s == b;
  }

  lemma OffsetsBefore(ls: seq<string>)
    requires ls == ["#a ~~~", "~~~", "#a", "~~~"]
    ensures Offset(ls, 1) == 7 && Offset(ls, 3) == 14
  {
    assert Offset(ls, 1) == 7;
    assert Offset(ls, 2) == 11;
  }

  lemma CodeAfter(out: string)
    requires out == "~~~\n~~~\n#a\n~~~"
    ensures CodeRanges(out) == [Range(0, 7)]
  {
    hide Lines, Blocks, CodeRanges;
    var ls := LinesAfter(out);
    BlocksAfter(ls);
    assert Offset(ls, 1) == 4;
    CodeIsFenced(out, ls, Block(0, 1));
  }

  lemma LinesAfter(out: string) returns (ls: seq<string>)
    requires out == "~~~\n~~~\n#a\n~~~"
    ensures ls == ["~~~", "~~~", "#a", "~~~"] && Lines(out) == ls
  {
    hide Lines;
    ls := ["~~~", "~~~", "#a", "~~~"];
    var s := FourLines(ls[0], ls[1], ls[2], ls[3]);
    assert s == out;
  }

  lemma FirstCounts(b: string)
    requires b == "#a ~~~\n~~~\n#a\n~~~" && CodeRanges(b) == [Range(7, 17)]
    ensures Goes(b, "a", Range(0, 2))
  {
    hide CodeRanges;
    TagEndAt(b, 1, 2);
    assert IsMatch(b, Range(0, 2)) && Name(b, Range(0, 2)) == "a";
  }

  lemma FirstRange(b: string)
    requires b == "#a ~~~\n~~~\n#a\n~~~"
    ensures Removal(b, Range(0, 2)) == Range(0, 3)
  {
    NotAlone(b);
    hide StandsAlone, LineStart, LineEnd;
    assert b[2] == ' ';
  }

  /** Only the first of the two tags counts before, and it goes with the blank behind it. */
  lemma FirstGoes(b: string, p: nat)
    requires b == "#a ~~~\n~~~\n#a\n~~~"
    ensures In(p, Removed(b, "a")) <==> p < 3
  {
    var first := Range(0, 2);
    CodeBefore(b);
    FirstCounts(b);
    FirstRange(b);
    InRemoved(b, "a", p);
    assert |b| == 17;
    forall m | Goes(b, "a", m) ensures m == first { OnlyFirstGoes(b, m); }
    hide Removal, Goes, IsMatch, Removed, CodeRanges, In;
  }

  lemma OnlyFirstGoes(b: string, m: Range)
    requires b == "#a ~~~\n~~~\n#a\n~~~" && CodeRanges(b) == [Range(7, 17)] && Goes(b, "a", m)
    ensures m == Range(0, 2)
  {
    MatchSplits(b, m);
    assert b[m.start] == '#';
    if m.start != 0 {
      assert m.start == 11;
      assert Overlaps(m, CodeRanges(b)[0]);
    } else {
      TagEndAt(b, 1, 2);
    }
  }

  lemma NotAlone(b: string)
    requires b == "#a ~~~\n~~~\n#a\n~~~"
    ensures !StandsAlone(b, Range(0, 2))
  {
    LineEndIsEnd(b, 2);
    assert b[2] != '\n' && b[3] != '\n' && b[4] != '\n' && b[5] != '\n' && b[6] == '\n';
    assert LineEnd(b, 2) == 6;
    var line := b[0..6];
    assert line == "#a ~~~" && StripCr(line) == line;
    assert TrimStart(line) == line && TrimEnd(line) == line;
  }

  /** Cutting `#a ` makes a fence of the tildes behind it: the `#a` that was code no longer is. */
  lemma RemovalCanMoveFences()
    ensures var b := "#a ~~~\n~~~\n#a\n~~~"; "a" in ExtractTags(b) && "a" in ExtractTags(Left(b, "a"))
  {
    var b, out := "#a ~~~\n~~~\n#a\n~~~", "~~~\n~~~\n#a\n~~~";
    hide *;
    FirstLeaves(b, out);
    TagBefore(b);
    TagAfter(out);
    NoCrExtracted(b, "a");
    NoCrExtracted(out, "a");
  }

  lemma NoCrExtracted(s: string, name: string)
    requires HasTag(s, name) && '\r' !in s
    ensures name in ExtractTags(s)
  {
    hide ExtractTags, Normalize, HasTag;
    NormalizeWithoutCr(s);
    ExtractedIff(s, name);
  }

  lemma FirstLeaves(b: string, out: string)
    requires b == "#a ~~~\n~~~\n#a\n~~~" && out == "~~~\n~~~\n#a\n~~~"
    ensures Left(b, "a") == out
  {
    hide Removed, In;
    forall p: nat ensures In(p, Removed(b, "a")) <==> p < 3 { FirstGoes(b, p); }
    KeepStretch(b, 0, 3, Removed(b, "a"));
    KeepRest(b, 3, Removed(b, "a"));
    hide Keep;
    assert b[3..] == out;
  }

  lemma TagBefore(b: string)
    requires b == "#a ~~~\n~~~\n#a\n~~~"
    ensures HasTag(b, "a") && '\r' !in b
  {
    CodeBefore(b);
    hide CodeRanges;
    TagEndAt(b, 1, 2);
    var m := Range(0, 2);
    assert IsMatch(b, m) && IsTag(b, m, CodeRanges(b)) && Name(b, m) == "a";
  }

  lemma TagAfter(out: string)
    requires out == "~~~\n~~~\n#a\n~~~"
    ensures HasTag(out, "a") && '\r' !in out
  {
    CodeAfter(out);
    hide CodeRanges;
    TagEndAt(out, 9, 10);
    var m := Range(8, 10);
    assert IsMatch(out, m) && IsTag(out, m, CodeRanges(out)) && Name(out, m) == "a";
  }
}

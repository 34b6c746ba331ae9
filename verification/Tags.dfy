/**
 Hashtags (content/mod.rs, project.rs): the scanner that extracts them outside code, and
 `EnsureTag`, which appends one so that the scanner is sure to find it.
 */
module Tags {
  import opened Text
  import opened Fences

  // ---- line endings ----

  function ReplaceCrLf(s: string): string {
    if s == "" then ""
    else if |s| >= 2 && s[0] == '\r' && s[1] == '\n' then "\n" + ReplaceCrLf(s[2..])
    else [s[0]] + ReplaceCrLf(s[1..])
  }

  function ReplaceCr(s: string): string {
    if s == "" then "" else [if s[0] == '\r' then '\n' else s[0]] + ReplaceCr(s[1..])
  }

  function Normalize(s: string): string {
    ReplaceCr(ReplaceCrLf(s))
  }

  // ---- the scanners ----

  predicate IsLetter(c: char) {
    'a' <= c <= 'z' || 'A' <= c <= 'Z'
  }

  predicate IsTagChar(c: char) {
    IsLetter(c) || '0' <= c <= '9' || c == '_' || c == '/'
  }

  predicate ValidTag(tag: string) {
    tag != "" && IsLetter(tag[0]) && forall i | 0 <= i < |tag| :: IsTagChar(tag[i])
  }

  function TagEnd(s: string, i: nat): (end: nat)
    requires i <= |s|
    ensures i <= end <= |s|
    decreases |s| - i
  {
    if i < |s| && IsTagChar(s[i]) then TagEnd(s, i + 1) else i
  }

  predicate StartsTag(s: string, i: nat)
    requires i < |s|
  {
    s[i] == '#' && i + 1 < |s| && IsLetter(s[i + 1])
  }

  /** Matches of `#([a-zA-Z][a-zA-Z0-9_/]*)` from position `i`, left to right. */
  function TagMatches(s: string, i: nat): seq<Range>
    requires i <= |s|
    decreases |s| - i
  {
    if i == |s| then []
    else if StartsTag(s, i) then [Range(i, TagEnd(s, i + 1))] + TagMatches(s, TagEnd(s, i + 1))
    else TagMatches(s, i + 1)
  }

  function NextTick(s: string, i: nat): (r: nat)
    requires i <= |s|
    ensures i <= r <= |s|
    decreases |s| - i
  {
    if i == |s| || s[i] == '`' then i else NextTick(s, i + 1)
  }

  /** Matches of "`[^`]+`" from position `i`, left to right. */
  function InlineSpans(s: string, i: nat): seq<Range>
    requires i <= |s|
    decreases |s| - i
  {
    if i == |s| then []
    else if s[i] == '`' && i + 1 < NextTick(s, i + 1) < |s| then
      [Range(i, NextTick(s, i + 1) + 1)] + InlineSpans(s, NextTick(s, i + 1) + 1)
    else InlineSpans(s, i + 1)
  }

  function CodeRanges(s: string): seq<Range> {
    FencedRanges(s) + InlineSpans(s, 0)
  }

  predicate Overlaps(a: Range, b: Range) {
    a.start < b.end && b.start < a.end
  }

  predicate OverlapsAny(m: Range, ranges: seq<Range>) {
    exists k | 0 <= k < |ranges| :: Overlaps(m, ranges[k])
  }

  predicate PrecededOk(s: string, start: nat)
    requires start <= |s|
  {
    start == 0 || IsWhitespace(s[start - 1])
  }

  predicate IsTag(s: string, m: Range, code: seq<Range>) {
    m.start <= |s| && PrecededOk(s, m.start) && !OverlapsAny(m, code)
  }

  function Name(s: string, m: Range): string {
    if m.start + 1 <= m.end <= |s| then s[m.start + 1..m.end] else ""
  }

  /** Names of the matches that count as tags, in order, repeats included. */
  function NamesOf(s: string, ms: seq<Range>, code: seq<Range>): seq<string> {
    if ms == [] then []
    else (if IsTag(s, ms[0], code) then [Name(s, ms[0])] else []) + NamesOf(s, ms[1..], code)
  }

  /** First occurrences only. */
  function Distinct(names: seq<string>): seq<string> {
    if names == [] then []
    else
      var front := Distinct(names[..|names| - 1]);
      if names[|names| - 1] in front then front else front + [names[|names| - 1]]
  }

  function TagNames(s: string): seq<string> {
    NamesOf(s, TagMatches(s, 0), CodeRanges(s))
  }

  function ExtractTags(body: string): seq<string> {
    Distinct(TagNames(Normalize(body)))
  }

  method ExtractTagsLoop(body: string) returns (tags: seq<string>)
    ensures tags == ExtractTags(body)
  {
    var s := Normalize(body);
    var code, ms := CodeRanges(s), TagMatches(s, 0);
    tags := [];
    hide CodeRanges, TagMatches, IsTag, Name, Normalize;
    assert NamesOf(s, ms[..0], code) == [] && ms[..|ms|] == ms;
    for k := 0 to |ms|
      invariant tags == Distinct(NamesOf(s, ms[..k], code))
    {
      NamesStep(s, ms, k, code);
      hide NamesOf;
      if IsTag(s, ms[k], code) {
        var name := Name(s, ms[k]);
        DistinctSnoc(NamesOf(s, ms[..k], code), name);
        if name !in tags { tags := tags + [name]; }
      }
    }
  }

  lemma NamesStep(s: string, ms: seq<Range>, k: nat, code: seq<Range>)
    requires k < |ms|
    ensures NamesOf(s, ms[..k + 1], code)
         == if IsTag(s, ms[k], code) then NamesOf(s, ms[..k], code) + [Name(s, ms[k])] else NamesOf(s, ms[..k], code)
  {
    hide IsTag, Name;
    NamesConcat(s, ms[..k], [ms[k]], code);
    assert ms[..k + 1] == ms[..k] + [ms[k]];
    assert [ms[k]][1..] == [];
  }

  function EnsureTag(body: string, tag: string): string {
    if tag in ExtractTags(body) then body else TrimEndAll(body) + "\n\n#" + tag
  }

  // ---- line endings of a concatenation ----

  ghost predicate EndsWithCr(s: string) {
    s != "" && s[|s| - 1] == '\r'
  }

  ghost predicate StartsCrLf(s: string) {
    |s| >= 2 && s[0] == '\r' && s[1] == '\n'
  }

  lemma ReplaceCrLfStep(s: string)
    requires s != ""
    ensures ReplaceCrLf(s) == if StartsCrLf(s) then "\n" + ReplaceCrLf(s[2..]) else [s[0]] + ReplaceCrLf(s[1..])
  {
  }

  /** How much of a text one replacement step consumes, and what it yields. */
  function CrLfCut(s: string): (n: nat)
    requires s != ""
    ensures 0 < n <= |s|
  {
    if |s| >= 2 && s[0] == '\r' && s[1] == '\n' then 2 else 1
  }

  function CrLfOut(s: string): string
    requires s != ""
  {
    if CrLfCut(s) == 2 then "\n" else [s[0]]
  }

  lemma ReplaceCrLfCut(s: string)
    requires s != ""
    ensures ReplaceCrLf(s) == CrLfOut(s) + ReplaceCrLf(s[CrLfCut(s)..])
  {
  }

  /** No line ending straddles the seam of `p + q`. */
  ghost predicate Joins(p: string, q: string) {
    !EndsWithCr(p) || q == "" || q[0] != '\n'
  }

  lemma CutOfConcat(p: string, q: string)
    requires p != "" && Joins(p, q)
    ensures p + q != "" && CrLfCut(p + q) == CrLfCut(p) && CrLfOut(p + q) == CrLfOut(p)
    ensures (p + q)[CrLfCut(p)..] == p[CrLfCut(p)..] + q && Joins(p[CrLfCut(p)..], q)
  {
  }

  lemma Associative(a: string, b: string, c: string)
    ensures a + (b + c) == a + b + c
  {
  }

  lemma {:induction false} ReplaceCrLfConcat(p: string, q: string)
    requires Joins(p, q)
    ensures ReplaceCrLf(p + q) == ReplaceCrLf(p) + ReplaceCrLf(q)
    decreases |p|
  {
    if p == "" {
      assert p + q == q;
    } else {
      hide ReplaceCrLf, Joins, CrLfOut, CrLfCut;
      CutOfConcat(p, q);
      ReplaceCrLfCut(p);
      ReplaceCrLfCut(p + q);
      var rest := p[CrLfCut(p)..];
      ReplaceCrLfConcat(rest, q);
      Associative(CrLfOut(p), ReplaceCrLf(rest), ReplaceCrLf(q));
    }
  }

  lemma {:induction false} ReplaceCrConcat(p: string, q: string)
    ensures ReplaceCr(p + q) == ReplaceCr(p) + ReplaceCr(q)
  {
    if p == "" {
      assert p + q == q;
    } else {
      assert (p + q)[1..] == p[1..] + q;
      ReplaceCrConcat(p[1..], q);
    }
  }

  lemma NormalizeConcat(p: string, q: string)
    requires Joins(p, q)
    ensures Normalize(p + q) == Normalize(p) + Normalize(q)
  {
    ReplaceCrLfConcat(p, q);
    ReplaceCrConcat(ReplaceCrLf(p), ReplaceCrLf(q));
  }

  lemma {:induction false} NormalizeWithoutCr(s: string)
    requires '\r' !in s
    ensures Normalize(s) == s
  {
    if s != "" {
      assert s[0] in s && forall c | c in s[1..] :: c in s;
      NormalizeWithoutCr(s[1..]);
      assert ReplaceCrLf(s)[1..] == ReplaceCrLf(s[1..]);
    }
  }

  /** Each way to end a line becomes one newline, and everything between stays: the text is cut at any end. */
  lemma EndsAreNewlines(p: string, end: string, q: string)
    requires end == "\r\n" || (end == "\r" && (q == "" || q[0] != '\n')) || (end == "\n" && !EndsWithCr(p))
    ensures Normalize(p + end + q) == Normalize(p) + "\n" + Normalize(q)
  {
    NormalizedEnd(end);
    hide Normalize;
    NormalizeConcat(p, end);
    NormalizeConcat(p + end, q);
  }

  lemma NormalizedEnd(end: string)
    requires end == "\r\n" || end == "\r" || end == "\n"
    ensures Normalize(end) == "\n"
  {
    assert "\r\n"[2..] == "" && "\r"[1..] == "" && "\n"[1..] == "";
    assert ReplaceCrLf("\r\n") == "\n" && ReplaceCrLf("\r") == "\r" && ReplaceCrLf("\n") == "\n";
    assert ReplaceCr("\r") == "\n" && ReplaceCr("\n") == "\n";
  }

  lemma {:induction false} ReplacedBlanks(s: string)
    requires AllBlank(s)
    ensures AllBlank(ReplaceCrLf(s)) && AllBlank(ReplaceCr(s))
    decreases |s|
  {
    if s != "" {
      ReplacedBlanks(s[1..]);
      if |s| >= 2 { ReplacedBlanks(s[2..]); }
    }
  }

  // ---- scanning a text with something after it ----

  lemma {:induction false} TagEndBefore(x: string, y: string, i: nat)
    requires i <= |x| && (y == "" || !IsTagChar(y[0]))
    ensures TagEnd(x + y, i) == TagEnd(x, i)
    decreases |x| - i
  {
    if i < |x| { TagEndBefore(x, y, i + 1); }
  }

  lemma TagMatchesStep(s: string, i: nat)
    requires i < |s|
    ensures TagMatches(s, i) == if StartsTag(s, i) then [Range(i, TagEnd(s, i + 1))] + TagMatches(s, TagEnd(s, i + 1))
                                else TagMatches(s, i + 1)
  {
  }

  ghost predicate AllWithin(ms: seq<Range>, limit: nat) {
    forall k | 0 <= k < |ms| :: ms[k].start < ms[k].end <= limit
  }

  lemma WithinCons(m: Range, ms: seq<Range>, limit: nat)
    requires AllWithin(ms, limit) && m.start < m.end <= limit
    ensures AllWithin([m] + ms, limit)
  {
  }

  lemma StartsTagBefore(x: string, y: string, i: nat)
    requires i < |x| && (y == "" || !IsTagChar(y[0]))
    ensures StartsTag(x + y, i) == StartsTag(x, i)
  {
  }

  lemma {:induction false} TagMatchesConcat(x: string, y: string, i: nat)
    requires i <= |x| && (y == "" || !IsTagChar(y[0]))
    ensures TagMatches(x + y, i) == TagMatches(x, i) + TagMatches(x + y, |x|)
    ensures AllWithin(TagMatches(x, i), |x|)
    decreases |x| - i
  {
    if i == |x| {
      assert [] + TagMatches(x + y, |x|) == TagMatches(x + y, |x|);
    } else {
      StartsTagBefore(x, y, i);
      TagMatchesStep(x, i);
      TagMatchesStep(x + y, i);
      hide TagMatches, StartsTag, TagEnd, AllWithin;
      if StartsTag(x, i) {
        TagEndBefore(x, y, i + 1);
        var end := TagEnd(x, i + 1);
        TagMatchesConcat(x, y, end);
        WithinCons(Range(i, end), TagMatches(x, end), |x|);
      } else {
        TagMatchesConcat(x, y, i + 1);
      }
    }
  }

  lemma {:induction false} NextTickBefore(x: string, y: string, i: nat)
    requires i <= |x| && '`' !in y
    ensures NextTick(x + y, i) == if NextTick(x, i) < |x| then NextTick(x, i) else |x + y|
    decreases |x| - i
  {
    if i < |x| { NextTickBefore(x, y, i + 1); } else { NoTickAfter(x, y, i); }
  }

  lemma {:induction false} NoTickAfter(x: string, y: string, i: nat)
    requires |x| <= i <= |x + y| && '`' !in y
    ensures NextTick(x + y, i) == |x + y| && InlineSpans(x + y, i) == []
    decreases |x + y| - i
  {
    if i < |x + y| {
      assert (x + y)[i] == y[i - |x|];
      NoTickAfter(x, y, i + 1);
    }
  }

  lemma InlineSpansStep(s: string, i: nat)
    requires i < |s|
    ensures InlineSpans(s, i)
         == if s[i] == '`' && i + 1 < NextTick(s, i + 1) < |s|
            then [Range(i, NextTick(s, i + 1) + 1)] + InlineSpans(s, NextTick(s, i + 1) + 1)
            else InlineSpans(s, i + 1)
  {
  }

  /** Whether a span starts at position `i`, and where the scan goes on. */
  predicate OpensSpan(s: string, i: nat)
    requires i < |s|
  {
    s[i] == '`' && i + 1 < NextTick(s, i + 1) < |s|
  }

  function AfterSpan(s: string, i: nat): (next: nat)
    requires i < |s|
    ensures i < next <= |s|
  {
    if OpensSpan(s, i) then NextTick(s, i + 1) + 1 else i + 1
  }

  /** A tick, scalars that are none, and a tick. */
  ghost predicate SpanAt(s: string, r: Range) {
    && r.start + 2 < r.end <= |s| && s[r.start] == '`' && s[r.end - 1] == '`'
    && forall p | r.start < p < r.end - 1 :: s[p] != '`'
  }

  ghost predicate StartsIn(p: nat, rs: seq<Range>) {
    exists k | 0 <= k < |rs| :: rs[k].start <= p < rs[k].end
  }

  /** From position `i` on: spans in order, apart, and every possible span starts inside one of them. */
  ghost predicate AreSpans(s: string, i: nat, rs: seq<Range>) {
    && (forall k | 0 <= k < |rs| :: i <= rs[k].start && SpanAt(s, rs[k]))
    && (forall k, l | 0 <= k < l < |rs| :: rs[k].end <= rs[l].start)
    && forall r: Range | i <= r.start && SpanAt(s, r) :: StartsIn(r.start, rs)
  }

  lemma {:induction false} NextTickIsFirst(s: string, i: nat)
    requires i <= |s|
    ensures forall p | i <= p < NextTick(s, i) :: s[p] != '`'
    ensures NextTick(s, i) < |s| ==> s[NextTick(s, i)] == '`'
    decreases |s| - i
  {
    if i < |s| && s[i] != '`' { NextTickIsFirst(s, i + 1); }
  }

  lemma {:induction false} SpansAre(s: string, i: nat)
    requires i <= |s|
    ensures AreSpans(s, i, InlineSpans(s, i))
    decreases |s| - i
  {
    if i < |s| {
      NextTickIsFirst(s, i + 1);
      SpansStep(s, i);
      SpansAre(s, AfterSpan(s, i));
      var next, rest := AfterSpan(s, i), InlineSpans(s, AfterSpan(s, i));
      hide InlineSpans, NextTick;
      if OpensSpan(s, i) {
        SpansCons(s, Range(i, next), rest);
      } else {
        SpansSkip(s, i, rest);
      }
    }
  }

  /** No other spans fit. */
  lemma {:induction false} SpansOnce(s: string, i: nat, a: seq<Range>, b: seq<Range>)
    requires AreSpans(s, i, a) && AreSpans(s, i, b)
    ensures a == b
    decreases |a|
  {
    if a == [] {
      if b != [] { FirstStarts(s, i, b, a); }
    } else {
      FirstStarts(s, i, a, b);
      FirstStarts(s, i, b, a);
      assert a[0].end == b[0].end;
      SpansTail(s, i, a);
      SpansTail(s, i, b);
      hide *;
      SpansOnce(s, a[0].end, a[1..], b[1..]);
      assert a == [a[0]] + a[1..] && b == [b[0]] + b[1..];
    }
  }

  lemma FirstStarts(s: string, i: nat, a: seq<Range>, b: seq<Range>)
    requires AreSpans(s, i, a) && AreSpans(s, i, b) && a != []
    ensures b != [] && b[0].start <= a[0].start
  {
    assert StartsIn(a[0].start, b) && SpanAt(s, b[0]);
    hide SpanAt;
  }

  lemma SpansTail(s: string, i: nat, a: seq<Range>)
    requires AreSpans(s, i, a) && a != []
    ensures AreSpans(s, a[0].end, a[1..])
  {
    assert SpanAt(s, a[0]);
    hide SpanAt, StartsIn;
    var end, rest := a[0].end, a[1..];
    forall r: Range | end <= r.start && SpanAt(s, r) ensures StartsIn(r.start, rest) {
      assert StartsIn(r.start, a);
      StartsInRest(r.start, a);
    }
  }

  lemma StartsInRest(p: nat, a: seq<Range>)
    requires a != [] && a[0].end <= p && StartsIn(p, a)
    ensures StartsIn(p, a[1..])
  {
    var k :| 0 <= k < |a| && a[k].start <= p < a[k].end;
    assert a[1..][k - 1] == a[k];
  }

  lemma SpansCons(s: string, r: Range, rest: seq<Range>)
    requires r.start < r.end && SpanAt(s, r) && AreSpans(s, r.end, rest)
    ensures AreSpans(s, r.start, [r] + rest)
  {
    hide SpanAt, StartsIn;
    var all := [r] + rest;
    assert forall k :: 1 <= k < |all| ==> all[k] == rest[k - 1];
    forall t: Range | r.start <= t.start && SpanAt(s, t) ensures StartsIn(t.start, all) {
      StartsInCons(t.start, r, rest);
    }
  }

  lemma StartsInCons(p: nat, r: Range, rest: seq<Range>)
    ensures r.start <= p < r.end || StartsIn(p, rest) ==> StartsIn(p, [r] + rest)
  {
    var all := [r] + rest;
    if r.start <= p < r.end { assert all[0] == r; }
    if k :| 0 <= k < |rest| && rest[k].start <= p < rest[k].end { assert all[k + 1] == rest[k]; }
  }

  lemma SpansSkip(s: string, i: nat, rest: seq<Range>)
    requires i < |s| && AreSpans(s, i + 1, rest)
    requires forall r: Range | SpanAt(s, r) :: r.start != i
    ensures AreSpans(s, i, rest)
  {
    hide SpanAt;
  }

  lemma SpansStep(s: string, i: nat)
    requires i < |s|
    ensures InlineSpans(s, i) == if OpensSpan(s, i) then [Range(i, AfterSpan(s, i))] + InlineSpans(s, AfterSpan(s, i))
                                 else InlineSpans(s, AfterSpan(s, i))
  {
    InlineSpansStep(s, i);
    hide InlineSpans, NextTick;
  }

  lemma AfterSpanBefore(x: string, y: string, i: nat)
    requires i < |x| && '`' !in y
    ensures OpensSpan(x + y, i) == OpensSpan(x, i) && AfterSpan(x + y, i) == AfterSpan(x, i)
  {
    NextTickBefore(x, y, i + 1);
    hide NextTick;
  }

  ghost predicate EndWithin(rs: seq<Range>, limit: nat) {
    forall k | 0 <= k < |rs| :: rs[k].end <= limit
  }

  lemma EndWithinCons(r: Range, rs: seq<Range>, limit: nat)
    requires EndWithin(rs, limit) && r.end <= limit
    ensures EndWithin([r] + rs, limit)
  {
  }

  lemma {:induction false} InlineSpansBefore(x: string, y: string, i: nat)
    requires i <= |x| && '`' !in y
    ensures InlineSpans(x + y, i) == InlineSpans(x, i)
    ensures EndWithin(InlineSpans(x, i), |x|)
    decreases |x| - i
  {
    if i == |x| {
      NoTickAfter(x, y, i);
    } else {
      AfterSpanBefore(x, y, i);
      SpansStep(x, i);
      SpansStep(x + y, i);
      hide InlineSpans, OpensSpan, AfterSpan, EndWithin;
      InlineSpansBefore(x, y, AfterSpan(x, i));
      if OpensSpan(x, i) { EndWithinCons(Range(i, AfterSpan(x, i)), InlineSpans(x, AfterSpan(x, i)), |x|); }
    }
  }

  /** A tail that can follow any text: no code marks, blanks up to its first newline, no tag scalar first. */
  ghost predicate IsTail(y: string) {
    NoMarks(y) && AllBlank(Lines(y)[0]) && (y == "" || !IsTagChar(y[0]))
  }

  lemma CodeRangesBefore(x: string, y: string)
    requires IsTail(y)
    ensures var a, b := CodeRanges(x), CodeRanges(x + y);
      |a| == |b| && forall k | 0 <= k < |a| :: SameUpTo(a[k], b[k], |x|, |Lines(y)[0]|)
  {
    SameFencedRanges(x, y);
    InlineSpansBefore(x, y, 0);
    hide FencedRanges, InlineSpans, IsTail;
    assert CodeRanges(x) == FencedRanges(x) + InlineSpans(x, 0);
  }

  lemma SameOverlap(m: Range, a: seq<Range>, b: seq<Range>, limit: nat, more: nat)
    requires m.start < m.end <= limit
    requires |a| == |b| && forall k | 0 <= k < |a| :: SameUpTo(a[k], b[k], limit, more)
    ensures OverlapsAny(m, a) == OverlapsAny(m, b)
  {
    assert forall k | 0 <= k < |a| :: Overlaps(m, a[k]) == Overlaps(m, b[k]);
  }

  lemma {:induction false} NamesBefore(x: string, y: string, ms: seq<Range>, a: seq<Range>, b: seq<Range>, more: nat)
    requires forall k | 0 <= k < |ms| :: ms[k].start < ms[k].end <= |x|
    requires |a| == |b| && forall k | 0 <= k < |a| :: SameUpTo(a[k], b[k], |x|, more)
    ensures NamesOf(x + y, ms, b) == NamesOf(x, ms, a)
  {
    hide OverlapsAny, SameUpTo;
    if ms != [] {
      NamesBefore(x, y, ms[1..], a, b, more);
      SameOverlap(ms[0], a, b, |x|, more);
      assert (x + y)[ms[0].start + 1..ms[0].end] == x[ms[0].start + 1..ms[0].end];
    }
  }

  lemma {:induction false} NamesConcat(s: string, a: seq<Range>, b: seq<Range>, code: seq<Range>)
    ensures NamesOf(s, a + b, code) == NamesOf(s, a, code) + NamesOf(s, b, code)
  {
    hide IsTag, Name;
    if a == [] {
      assert a + b == b;
    } else {
      assert (a + b)[1..] == a[1..] + b;
      NamesConcat(s, a[1..], b, code);
    }
  }

  /** A tail adds its own tags and disturbs none of the text's. */
  lemma TagNamesConcat(x: string, y: string)
    requires IsTail(y)
    ensures TagNames(x + y) == TagNames(x) + NamesOf(x + y, TagMatches(x + y, |x|), CodeRanges(x + y))
  {
    CodeRangesBefore(x, y);
    TagMatchesConcat(x, y, 0);
    hide CodeRanges, TagMatches, SameUpTo, IsTag, Name;
    NamesBefore(x, y, TagMatches(x, 0), CodeRanges(x), CodeRanges(x + y), |Lines(y)[0]|);
    NamesConcat(x + y, TagMatches(x, 0), TagMatches(x + y, |x|), CodeRanges(x + y));
  }

  // ---- the two tails ----

  lemma {:induction false} NoTagsFrom(s: string, i: nat)
    requires i <= |s| && forall k | i <= k < |s| :: s[k] != '#'
    ensures TagMatches(s, i) == []
    decreases |s| - i
  {
    if i < |s| { NoTagsFrom(s, i + 1); }
  }

  lemma BlankIsTail(w: string)
    requires AllBlank(w)
    ensures IsTail(w)
  {
    LineScalars(w);
    assert forall c | c in w :: IsWhitespace(c);
    assert forall c | c in Lines(w)[0] :: c in w;
  }

  lemma BlankTailAddsNothing(x: string, w: string)
    requires AllBlank(w)
    ensures TagNames(x + w) == TagNames(x)
  {
    BlankIsTail(w);
    TagNamesConcat(x, w);
    NoTagsFrom(x + w, |x|);
    hide CodeRanges, IsTail;
  }

  lemma {:induction false} TagEndAtEnd(s: string, i: nat)
    requires i <= |s| && forall k | i <= k < |s| :: IsTagChar(s[k])
    ensures TagEnd(s, i) == |s|
    decreases |s| - i
  {
    if i < |s| { TagEndAtEnd(s, i + 1); }
  }

  lemma TagIsTail(tag: string)
    requires ValidTag(tag)
    ensures IsTail("\n\n#" + tag) && Lines("\n\n#" + tag)[0] == "" && '\r' !in "\n\n#" + tag
  {
    var y := "\n\n#" + tag;
    assert y[0] == '\n';
    forall c | c in y ensures c != '`' && c != '~' && c != '\r' {
      var k :| 0 <= k < |y| && y[k] == c;
      if k >= 3 { assert y[k] == tag[k - 3]; }
    }
  }

  lemma AppendedTagMatch(x: string, tag: string)
    requires ValidTag(tag)
    ensures var s := x + ("\n\n#" + tag);
      TagMatches(s, |x|) == [Range(|x| + 2, |s|)] && Name(s, Range(|x| + 2, |s|)) == tag
  {
    var s := x + ("\n\n#" + tag);
    assert s[|x|] == '\n' && s[|x| + 1] == '\n' && s[|x| + 2] == '#' && s[|x| + 3] == tag[0];
    assert forall k | |x| + 3 <= k < |s| :: s[k] == tag[k - |x| - 3];
    TagEndAtEnd(s, |x| + 3);
    assert s[|x| + 3..] == tag;
    assert TagMatches(s, |x|) == TagMatches(s, |x| + 1);
    assert TagMatches(s, |x| + 1) == TagMatches(s, |x| + 2);
    assert TagMatches(s, |s|) == [];
  }

  lemma AppendedTagCounts(x: string, tag: string)
    requires ValidTag(tag)
    ensures var s := x + ("\n\n#" + tag); IsTag(s, Range(|x| + 2, |s|), CodeRanges(s))
  {
    var y := "\n\n#" + tag;
    var s := x + y;
    TagIsTail(tag);
    CodeRangesBefore(x, y);
    assert s[|x| + 1] == '\n';
    hide CodeRanges, IsTail, Lines;
    assert forall k | 0 <= k < |CodeRanges(s)| :: SameUpTo(CodeRanges(x)[k], CodeRanges(s)[k], |x|, 0);
  }

  lemma AppendedTagNames(x: string, tag: string)
    requires ValidTag(tag)
    ensures TagNames(x + ("\n\n#" + tag)) == TagNames(x) + [tag]
  {
    var y := "\n\n#" + tag;
    TagIsTail(tag);
    TagNamesConcat(x, y);
    AppendedTagMatch(x, tag);
    AppendedTagCounts(x, tag);
    hide CodeRanges, IsTail, TagMatches, IsTag, Name;
    var m := Range(|x| + 2, |x + y|);
    assert [m][1..] == [];
  }

  // ---- the editor agrees with the scanner ----

  lemma {:induction false} DistinctHas(names: seq<string>)
    ensures forall name :: name in Distinct(names) <==> name in names
  {
    if names != [] {
      var front, last := names[..|names| - 1], names[|names| - 1];
      DistinctHas(front);
      assert names == front + [last];
    }
  }

  lemma DistinctSnoc(names: seq<string>, name: string)
    ensures Distinct(names + [name]) == if name in Distinct(names) then Distinct(names) else Distinct(names) + [name]
  {
    assert (names + [name])[..|names|] == names;
  }

  /** `kept` is the text up to its last scalar that is not whitespace. */
  ghost predicate UpToBlanks(body: string, kept: string) {
    kept <= body && AllBlank(body[|kept|..]) && (kept == "" || !IsWhitespace(kept[|kept| - 1]))
  }

  /** The text as it is if it has the tag; else without its trailing whitespace, an empty line and the tag behind it. */
  ghost predicate IsStamped(body: string, tag: string, out: string) {
    if tag in ExtractTags(body) then out == body
    else exists kept :: UpToBlanks(body, kept) && out == kept + "\n\n#" + tag
  }

  lemma StampedIs(body: string, tag: string)
    ensures IsStamped(body, tag, EnsureTag(body, tag))
  {
    hide ExtractTags, TrimEndAll;
    TrimEndAllBlanks(body);
    assert UpToBlanks(body, TrimEndAll(body));
  }

  /** A new tag of one line gets a line of its own, behind an empty one. */
  lemma StampedLines(body: string, tag: string)
    requires OneLine(tag) && tag !in ExtractTags(body)
    ensures exists p :: UpToBlanks(body, p) && Lines(EnsureTag(body, tag)) == Lines(p) + ["", "#" + tag]
  {
    hide ExtractTags, IsWhitespace;
    var p := TrimEndAll(body);
    TrimEndAllBlanks(body);
    assert UpToBlanks(body, p);
    hide TrimEndAll, Lines, UpToBlanks;
    LineAfter(p, "");
    LineAfter(p + "\n" + "", "#" + tag);
    assert p + "\n" + "" + "\n" + ("#" + tag) == p + "\n\n#" + tag;
    assert Lines(p) + [""] + ["#" + tag] == Lines(p) + ["", "#" + tag];
  }

  /**
   Whatever fences, inline code and line endings the body has: a tag that is there is left
   alone, a new one is appended last, and no other tag appears, vanishes or moves.
   */
  lemma EnsureTagExact(body: string, tag: string)
    requires ValidTag(tag)
    ensures var had := ExtractTags(body);
            ExtractTags(EnsureTag(body, tag)) == if tag in had then had else had + [tag]
  {
    var p := TrimEndAll(body);
    NamesWithoutTrailingBlanks(body);
    NamesWithTagAppended(body, tag);
    DistinctSnoc(TagNames(Normalize(p)), tag);
    hide TagNames, Normalize, Distinct, TrimEndAll;
  }

  lemma NamesWithoutTrailingBlanks(body: string)
    ensures TagNames(Normalize(body)) == TagNames(Normalize(TrimEndAll(body)))
  {
    hide TagNames, ReplaceCr, ReplaceCrLf, TrimEndAll;
    TrimEndAllBlanks(body);
    var p, w := TrimEndAll(body), body[|TrimEndAll(body)|..];
    assert body == p + w;
    NormalizeConcat(p, w);
    ReplacedBlanks(w);
    ReplacedBlanks(ReplaceCrLf(w));
    BlankTailAddsNothing(Normalize(p), Normalize(w));
  }

  lemma NamesWithTagAppended(body: string, tag: string)
    requires ValidTag(tag)
    ensures var p := TrimEndAll(body);
            TagNames(Normalize(p + "\n\n#" + tag)) == TagNames(Normalize(p)) + [tag]
  {
    TrimEndAllBlanks(body);
    var p, y := TrimEndAll(body), "\n\n#" + tag;
    NormalizeConcat(p, y);
    TagIsTail(tag);
    NormalizeWithoutCr(y);
    AppendedTagNames(Normalize(p), tag);
    hide TagNames, Normalize, IsTail, TrimEndAll;
    assert p + "\n\n#" + tag == p + y;
  }

  lemma EnsureTagIdempotent(body: string, tag: string)
    requires ValidTag(tag)
    ensures EnsureTag(EnsureTag(body, tag), tag) == EnsureTag(body, tag)
  {
    EnsureTagExact(body, tag);
    hide ExtractTags;
  }

  lemma {:induction false} MatchesAreValid(s: string, i: nat)
    requires i <= |s|
    ensures forall k | 0 <= k < |TagMatches(s, i)| :: ValidTag(Name(s, TagMatches(s, i)[k]))
    decreases |s| - i
  {
    if i < |s| {
      if StartsTag(s, i) {
        var end := TagEnd(s, i + 1);
        TagEndScalars(s, i + 1);
        assert ValidTag(Name(s, Range(i, end)));
        hide ValidTag, Name;
        MatchesAreValid(s, end);
      } else {
        MatchesAreValid(s, i + 1);
      }
    }
  }

  lemma {:induction false} TagEndScalars(s: string, i: nat)
    requires i <= |s|
    ensures forall k | i <= k < TagEnd(s, i) :: IsTagChar(s[k])
    ensures i < |s| && IsTagChar(s[i]) ==> i < TagEnd(s, i)
    decreases |s| - i
  {
    if i < |s| { TagEndScalars(s, i + 1); }
  }

  lemma {:induction false} NamesAreValid(s: string, ms: seq<Range>, code: seq<Range>)
    requires forall k | 0 <= k < |ms| :: ValidTag(Name(s, ms[k]))
    ensures forall name | name in NamesOf(s, ms, code) :: ValidTag(name)
  {
    hide ValidTag, Name, IsTag;
    if ms != [] { NamesAreValid(s, ms[1..], code); }
  }

  /** `EnsureTag` makes the tag derivable exactly when it has a tag's grammar. */
  lemma EnsuredIffValid(body: string, tag: string)
    ensures tag in ExtractTags(EnsureTag(body, tag)) <==> ValidTag(tag)
  {
    if ValidTag(tag) {
      EnsureTagExact(body, tag);
    } else {
      var s := Normalize(EnsureTag(body, tag));
      MatchesAreValid(s, 0);
      NamesAreValid(s, TagMatches(s, 0), CodeRanges(s));
      DistinctHas(TagNames(s));
    }
  }
}

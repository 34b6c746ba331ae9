/**
 Removing a tag (content/edits.rs): every counted occurrence goes, with one adjacent blank or,
 when it stands alone, with its whole line; code is never touched.
 */
module RemoveTag {
  import opened Text
  import opened Fences
  import opened Tags

  predicate Within(p: nat, r: Range) {
    r.start <= p < r.end
  }

  predicate In(p: nat, rs: seq<Range>) {
    exists k | 0 <= k < |rs| :: Within(p, rs[k])
  }

  /** The scalars of `s` from `i` on that lie in none of the ranges. */
  function Keep(s: string, i: nat, rs: seq<Range>): string
    requires i <= |s|
    decreases |s| - i
  {
    if i == |s| then "" else (if In(i, rs) then "" else [s[i]]) + Keep(s, i + 1, rs)
  }

  // ---- which scalars go ----

  function LineStart(s: string, i: nat): (r: nat)
    requires i <= |s|
    ensures r <= i
  {
    if i == 0 || s[i - 1] == '\n' then i else LineStart(s, i - 1)
  }

  function LineEnd(s: string, i: nat): (r: nat)
    requires i <= |s|
    ensures i <= r <= |s|
    decreases |s| - i
  {
    if i == |s| || s[i] == '\n' then i else LineEnd(s, i + 1)
  }

  /** An occurrence of `tag` that counts as a tag. */
  predicate Counts(s: string, m: Range, tag: string, code: seq<Range>) {
    Name(s, m) == tag && IsTag(s, m, code)
  }

  predicate StandsAlone(s: string, m: Range)
    requires m.start <= m.end <= |s|
  {
    Trim(StripCr(s[LineStart(s, m.start)..LineEnd(s, m.end)])) == s[m.start..m.end]
  }

  function Removal(s: string, m: Range): (r: Range)
    requires m.start < m.end <= |s|
    ensures r.start <= m.start < m.end <= r.end <= |s|
  {
    var lineEnd := LineEnd(s, m.end);
    if StandsAlone(s, m) then Range(LineStart(s, m.start), if lineEnd < |s| then lineEnd + 1 else lineEnd)
    else if m.end < |s| && IsHorizontal(s[m.end]) then Range(m.start, m.end + 1)
    else if m.start > 0 && IsHorizontal(s[m.start - 1]) then Range(m.start - 1, m.end)
    else m
  }

  function Removals(s: string, ms: seq<Range>, tag: string, code: seq<Range>): seq<Range>
    requires forall k | 0 <= k < |ms| :: ms[k].start < ms[k].end <= |s|
  {
    if ms == [] then []
    else
      (if Counts(s, ms[0], tag, code) then [Removal(s, ms[0])] else []) + Removals(s, ms[1..], tag, code)
  }

  lemma {:induction false} MatchShape(s: string, i: nat)
    requires i <= |s|
    ensures forall k | 0 <= k < |TagMatches(s, i)| ::
      var m := TagMatches(s, i)[k];
      i <= m.start && m.start + 1 < m.end <= |s| && s[m.start] == '#' && m.end == TagEnd(s, m.start + 1)
    ensures forall k, l | 0 <= k < l < |TagMatches(s, i)| :: TagMatches(s, i)[k].end <= TagMatches(s, i)[l].start
    decreases |s| - i
  {
    if i < |s| {
      if StartsTag(s, i) {
        var end := TagEnd(s, i + 1);
        TagEndScalars(s, i + 1);
        MatchShape(s, end);
        var rest := TagMatches(s, end);
        assert TagMatches(s, i) == [Range(i, end)] + rest;
        hide TagMatches, TagEnd;
        assert forall k | 0 < k < |rest| + 1 :: ([Range(i, end)] + rest)[k] == rest[k - 1];
      } else {
        MatchShape(s, i + 1);
      }
    }
  }

  /** The ranges `remove_tag` collects from a body. */
  function Removed(body: string, tag: string): seq<Range> {
    MatchShape(body, 0);
    Removals(body, TagMatches(body, 0), tag, CodeRanges(body))
  }

  // ---- the shape of what goes ----

  /** A match sits inside one line and only its first scalar is a `#`. */
  ghost predicate IsOccurrence(s: string, m: Range) {
    && m.start + 1 < m.end <= |s|
    && s[m.start] == '#'
    && forall p | m.start < p < m.end :: IsTagChar(s[p])
  }

  lemma MatchesAreOccurrences(s: string)
    ensures forall k | 0 <= k < |TagMatches(s, 0)| :: IsOccurrence(s, TagMatches(s, 0)[k])
  {
    MatchShape(s, 0);
    hide TagMatches;
    forall k | 0 <= k < |TagMatches(s, 0)| ensures IsOccurrence(s, TagMatches(s, 0)[k]) {
      TagEndScalars(s, TagMatches(s, 0)[k].start + 1);
    }
  }

  lemma {:induction false} LineStartIsStart(s: string, i: nat)
    requires i <= |s|
    ensures forall p | LineStart(s, i) <= p < i :: s[p] != '\n'
    ensures LineStart(s, i) == 0 || s[LineStart(s, i) - 1] == '\n'
  {
    if i > 0 && s[i - 1] != '\n' { LineStartIsStart(s, i - 1); }
  }

  lemma {:induction false} LineEndIsEnd(s: string, i: nat)
    requires i <= |s|
    ensures forall p | i <= p < LineEnd(s, i) :: s[p] != '\n'
    ensures LineEnd(s, i) == |s| || s[LineEnd(s, i)] == '\n'
    decreases |s| - i
  {
    if i < |s| && s[i] != '\n' { LineEndIsEnd(s, i + 1); }
  }

  /** A line is `text` at `lead` between blanks, apart from its carriage return. */
  ghost predicate Trims(line: string, text: string, lead: nat) {
    var core := StripCr(line);
    && lead + |text| <= |core| && text == core[lead..lead + |text|]
    && (forall i | 0 <= i < lead :: IsHorizontal(core[i]))
    && (forall i | lead + |text| <= i < |core| :: IsHorizontal(core[i]))
  }

  lemma TrimShape(line: string) returns (lead: nat)
    ensures Trims(line, Trim(StripCr(line)), lead)
  {
    var core := StripCr(line);
    var left := TrimStart(core);
    TrimStartBlanks(core);
    TrimEndBlanks(left);
    lead := |core| - |left|;
    var text := TrimEnd(left);
    hide TrimStart, TrimEnd, StripCr;
    assert text == core[lead..lead + |text|];
    forall i | lead + |text| <= i < |core| ensures IsHorizontal(core[i]) { assert left[i - lead] == core[i]; }
  }

  /** A tag that stands alone has only whitespace around it on its line. */
  lemma AloneOnLine(s: string, m: Range)
    requires IsOccurrence(s, m) && StandsAlone(s, m)
    ensures forall p | LineStart(s, m.start) <= p < LineEnd(s, m.end) && !Within(p, m) :: IsWhitespace(s[p])
  {
    hide LineStart, LineEnd, Trim, StripCr, IsHorizontal, IsWhitespace, IsTagChar, Trims;
    var ls, le := LineStart(s, m.start), LineEnd(s, m.end);
    var line, text := s[ls..le], s[m.start..m.end];
    var lead := TrimShape(line);
    assert Trims(line, text, lead);
    OccurrenceText(s, m, ls, le);
    LeadIsOffset(line, text, m.start - ls, lead);
    forall p | ls <= p < le && !Within(p, m) ensures IsWhitespace(s[p]) {
      assert line[p - ls] == s[p];
      OutsideIsBlank(line, text, lead, p - ls);
    }
  }

  lemma OccurrenceText(s: string, m: Range, ls: nat, le: nat)
    requires IsOccurrence(s, m) && ls <= m.start && m.end <= le <= |s|
    ensures var text := s[m.start..m.end];
      text[0] == '#' == s[ls..le][m.start - ls] && forall k | 0 < k < |text| :: IsTagChar(text[k])
  {
    forall k | 0 < k < m.end - m.start ensures IsTagChar(s[m.start..m.end][k]) { assert IsTagChar(s[m.start + k]); }
  }

  /** The only hash of the trimmed text is its first scalar. */
  lemma LeadIsOffset(line: string, text: string, at: nat, lead: nat)
    requires Trims(line, text, lead) && at < |line| && line[at] == '#' && text != "" && text[0] == '#'
    requires forall k | 0 < k < |text| :: IsTagChar(text[k])
    ensures lead == at
  {
    var core := StripCr(line);
    assert at < |core| && core[at] == '#';
    assert lead <= at < lead + |text|;
    assert text[at - lead] == core[at];
  }

  lemma OutsideIsBlank(line: string, text: string, lead: nat, i: nat)
    requires Trims(line, text, lead) && i < |line| && (i < lead || lead + |text| <= i)
    ensures IsWhitespace(line[i])
  {
    var core := StripCr(line);
    if i < |core| { assert IsHorizontal(core[i]); }
  }

  // ---- exactly what goes ----

  /** The scalars `from..to` are one line, without its terminator. */
  ghost predicate IsLine(s: string, from: nat, to: nat) {
    && from <= to <= |s| && (from == 0 || s[from - 1] == '\n') && (to == |s| || s[to] == '\n')
    && forall p | from <= p < to :: s[p] != '\n'
  }

  /** The occurrence has only blanks beside it on its line, and perhaps the carriage return that ends it. */
  ghost predicate AloneOn(s: string, m: Range, from: nat, to: nat) {
    && IsLine(s, from, to) && from <= m.start && m.end <= to
    && forall p | from <= p < to && !(m.start <= p < m.end) :: IsHorizontal(s[p]) || (s[p] == '\r' && p == to - 1)
  }

  /** An occurrence alone on its line takes the line and its newline; any other at most one blank, behind it first. */
  ghost predicate IsCut(s: string, m: Range, r: Range) {
    || (exists from: nat, to: nat :: AloneOn(s, m, from, to) && r == Range(from, if to < |s| then to + 1 else to))
    || (&& (forall from: nat, to: nat :: !AloneOn(s, m, from, to))
        && r == if m.end < |s| && IsHorizontal(s[m.end]) then Range(m.start, m.end + 1)
                else if 0 < m.start <= |s| && IsHorizontal(s[m.start - 1]) then Range(m.start - 1, m.end)
                else m)
  }

  lemma LineAround(s: string, m: Range)
    requires IsOccurrence(s, m)
    ensures IsLine(s, LineStart(s, m.start), LineEnd(s, m.end))
  {
    LineStartIsStart(s, m.start);
    LineEndIsEnd(s, m.end);
    hide LineStart, LineEnd;
  }

  lemma LineOnce(s: string, m: Range, from: nat, to: nat)
    requires IsOccurrence(s, m) && IsLine(s, from, to) && from <= m.start && m.end <= to
    ensures from == LineStart(s, m.start) && to == LineEnd(s, m.end)
  {
    LineStartIsStart(s, m.start);
    LineEndIsEnd(s, m.end);
    hide LineStart, LineEnd;
  }

  lemma AloneIff(s: string, m: Range)
    requires IsOccurrence(s, m)
    ensures StandsAlone(s, m) <==> AloneOn(s, m, LineStart(s, m.start), LineEnd(s, m.end))
  {
    hide LineStart, LineEnd, Trim, IsHorizontal, IsTagChar, Trims, IsTrimOf;
    LineAround(s, m);
    var ls, le := LineStart(s, m.start), LineEnd(s, m.end);
    var line, text := s[ls..le], s[m.start..m.end];
    OccurrenceText(s, m, ls, le);
    if StandsAlone(s, m) {
      var lead := TrimShape(line);
      LeadIsOffset(line, text, m.start - ls, lead);
      forall p | ls <= p < le && !(m.start <= p < m.end)
        ensures IsHorizontal(s[p]) || (s[p] == '\r' && p == le - 1)
      {
        OutsideIsHorizontal(line, text, lead, p - ls);
      }
    } else if AloneOn(s, m, ls, le) {
      TrimmedIsText(s, m, ls, le);
    }
  }

  lemma OutsideIsHorizontal(line: string, text: string, lead: nat, i: nat)
    requires Trims(line, text, lead) && i < |line| && (i < lead || lead + |text| <= i)
    ensures IsHorizontal(line[i]) || (line[i] == '\r' && i == |line| - 1)
  {
    var core := StripCr(line);
    if i < |core| { assert IsHorizontal(core[i]); }
  }

  lemma TrimmedIsText(s: string, m: Range, from: nat, to: nat)
    requires IsOccurrence(s, m) && AloneOn(s, m, from, to)
    ensures Trim(StripCr(s[from..to])) == s[m.start..m.end]
  {
    hide Trim, IsHorizontal;
    var line, text := s[from..to], s[m.start..m.end];
    var core := StripCr(line);
    assert s[m.end - 1] == line[m.end - 1 - from] && IsTagChar(s[m.end - 1]);
    var i, j := m.start - from, m.end - from;
    assert j <= |core|;
    assert line[i..j] == text;
    assert core[i..j] == line[i..j];
    forall k | 0 <= k < i || j <= k < |core| ensures IsHorizontal(core[k]) { assert core[k] == s[from + k]; }
    TagTextNotBlank(s, m);
    assert IsTrimOf(core, text);
    TrimIs(core);
    TrimOnce(core, Trim(core), text);
  }

  lemma TagTextNotBlank(s: string, m: Range)
    requires IsOccurrence(s, m)
    ensures !IsHorizontal(s[m.start]) && !IsHorizontal(s[m.end - 1])
  {
  }

  /** The range a removal takes for an occurrence is that cut. */
  lemma RemovalIs(s: string, m: Range)
    requires IsOccurrence(s, m)
    ensures IsCut(s, m, Removal(s, m))
  {
    AloneIff(s, m);
    hide StandsAlone, LineStart, LineEnd, IsHorizontal;
    forall from: nat, to: nat | AloneOn(s, m, from, to)
      ensures from == LineStart(s, m.start) && to == LineEnd(s, m.end)
    {
      LineOnce(s, m, from, to);
    }
  }

  /** An occurrence has one cut. */
  lemma CutOnce(s: string, m: Range, a: Range, b: Range)
    requires IsOccurrence(s, m) && IsCut(s, m, a) && IsCut(s, m, b)
    ensures a == b
  {
    hide IsHorizontal, LineStart, LineEnd;
    forall from: nat, to: nat | AloneOn(s, m, from, to)
      ensures from == LineStart(s, m.start) && to == LineEnd(s, m.end)
    {
      LineOnce(s, m, from, to);
    }
    hide AloneOn;
  }

  /** Apart from the occurrence itself only whitespace goes: one blank, or the rest of its line. */
  lemma RemovalShape(s: string, m: Range)
    requires IsOccurrence(s, m)
    ensures forall p: nat | Within(p, Removal(s, m)) && !Within(p, m) :: IsWhitespace(s[p])
    ensures !StandsAlone(s, m) ==> Removal(s, m).end - Removal(s, m).start <= m.end - m.start + 1
  {
    if StandsAlone(s, m) {
      hide IsWhitespace;
      AloneOnLine(s, m);
      LineEndIsEnd(s, m.end);
      hide StandsAlone, LineStart, LineEnd;
      assert IsWhitespace('\n') by { NewlineIsBlank(); }
    } else {
      BesideShape(s, m);
      hide Removal, StandsAlone;
    }
  }

  lemma NewlineIsBlank()
    ensures IsWhitespace('\n')
  {
  }

  lemma BesideShape(s: string, m: Range)
    requires IsOccurrence(s, m) && !StandsAlone(s, m)
    ensures var r := Removal(s, m);
      && r.end - r.start <= m.end - m.start + 1
      && forall p: nat | Within(p, r) && !Within(p, m) :: IsWhitespace(s[p])
  {
    hide StandsAlone, LineStart, LineEnd;
  }

  // ---- code is never touched ----

  /** A code range starts with a mark; it ends with a backtick, or it is made of whole lines. */
  ghost predicate IsCode(s: string, r: Range) {
    && r.start < r.end <= |s| && IsMark(s[r.start])
    && (|| s[r.end - 1] == '`'
        || ((r.start == 0 || s[r.start - 1] == '\n') && (r.end == |s| || s[r.end] == '\n')))
  }

  lemma {:induction false} NextTickIsTick(s: string, i: nat)
    requires i <= |s|
    ensures NextTick(s, i) < |s| ==> s[NextTick(s, i)] == '`'
    decreases |s| - i
  {
    if i < |s| && s[i] != '`' { NextTickIsTick(s, i + 1); }
  }

  lemma {:induction false} InlineIsCode(s: string, i: nat)
    requires i <= |s|
    ensures forall k | 0 <= k < |InlineSpans(s, i)| :: IsCode(s, InlineSpans(s, i)[k])
    decreases |s| - i
  {
    if i < |s| {
      NextTickIsTick(s, i + 1);
      InlineSpansStep(s, i);
      hide InlineSpans, NextTick;
      if s[i] == '`' && i + 1 < NextTick(s, i + 1) < |s| {
        InlineIsCode(s, NextTick(s, i + 1) + 1);
        assert IsCode(s, Range(i, NextTick(s, i + 1) + 1));
        hide IsCode;
      } else {
        InlineIsCode(s, i + 1);
      }
    }
  }

  /** Line `k` as a stretch of the text. */
  ghost predicate LineAt(s: string, ls: seq<string>, k: nat)
    requires k < |ls|
  {
    var at := Offset(ls, k);
    && at + |ls[k]| <= |s|
    && (forall i | 0 <= i < |ls[k]| :: s[at + i] == ls[k][i])
    && (at == 0 || s[at - 1] == '\n')
    && (at + |ls[k]| == |s| || s[at + |ls[k]|] == '\n')
  }

  lemma {:induction false} LinesAreAt(s: string, k: nat)
    requires k < |Lines(s)|
    ensures LineAt(s, Lines(s), k)
  {
    if s != "" {
      if s[0] == '\n' {
        if k > 0 { LinesAreAt(s[1..], k - 1); }
      } else {
        LinesAreAt(s[1..], k);
      }
      PrependedLineAt(s, Lines(s[1..]), k);
    }
  }

  lemma PrependedLineAt(s: string, rest: seq<string>, k: nat)
    requires s != "" && |rest| >= 1 && k < |Prepend(s[0], rest)|
    requires s[0] == '\n' ==> k == 0 || LineAt(s[1..], rest, k - 1)
    requires s[0] != '\n' ==> LineAt(s[1..], rest, k)
    ensures LineAt(s, Prepend(s[0], rest), k)
  {
    if s[0] == '\n' {
      PrependedEmptyLineAt(s, rest, k);
    } else if k > 0 {
      LongerFirstLineAt(s, rest, k);
    }
  }

  lemma PrependedEmptyLineAt(s: string, rest: seq<string>, k: nat)
    requires s != "" && s[0] == '\n' && k <= |rest| && (k == 0 || LineAt(s[1..], rest, k - 1))
    ensures LineAt(s, [""] + rest, k)
  {
    if k > 0 { OffsetCons("", rest, k - 1); }
    hide Offset;
  }

  lemma LongerFirstLineAt(s: string, rest: seq<string>, k: nat)
    requires s != "" && 0 < k < |rest| && LineAt(s[1..], rest, k)
    ensures LineAt(s, [[s[0]] + rest[0]] + rest[1..], k)
  {
    OffsetCons([s[0]] + rest[0], rest[1..], k - 1);
    OffsetCons(rest[0], rest[1..], k - 1);
    assert [rest[0]] + rest[1..] == rest;
    hide Offset;
  }

  lemma FencedIsCode(s: string)
    ensures forall k | 0 <= k < |FencedRanges(s)| :: IsCode(s, FencedRanges(s)[k])
  {
    var ls := Lines(s);
    var bs := Blocks(ls, 0);
    BlocksInBounds(ls, 0);
    BlocksMatch(ls, 0);
    forall k | 0 <= k < |bs| ensures IsCode(s, BlockRange(ls, bs[k])) {
      assert Closes(ls, bs[k].open, bs[k].close);
      BlockIsCode(s, bs[k]);
    }
    hide IsCode, Lines, Blocks, BlockRange;
  }

  lemma BlockIsCode(s: string, b: Block)
    requires b.open < b.close < |Lines(s)| && OpenFence(Lines(s)[b.open]).Some?
    ensures IsCode(s, BlockRange(Lines(s), b))
  {
    var ls := Lines(s);
    LinesAreAt(s, b.open);
    LinesAreAt(s, b.close);
    OffsetMonotone(ls, b.open + 1, b.close);
    OpenedFence(ls[b.open]);
    assert s[Offset(ls, b.open)] == ls[b.open][0];
    hide Lines, RunLength;
  }

  lemma BlankBeside(s: string, m: Range, p: nat)
    requires IsOccurrence(s, m) && StandsAlone(s, m)
    requires LineStart(s, m.start) <= p < m.start || m.end <= p < LineEnd(s, m.end)
    ensures IsWhitespace(s[p])
  {
    AloneOnLine(s, m);
    hide StandsAlone, LineStart, LineEnd;
  }

  lemma RemovalSparesCode(s: string, m: Range, r: Range)
    requires IsOccurrence(s, m) && IsCode(s, r) && !Overlaps(m, r)
    ensures Removal(s, m).end <= r.start || r.end <= Removal(s, m).start
  {
    if StandsAlone(s, m) {
      AloneSparesCode(s, m, r);
    } else {
      BesideSparesCode(s, m, r);
    }
    hide StandsAlone, Removal, IsCode;
  }

  lemma AloneSparesCode(s: string, m: Range, r: Range)
    requires IsOccurrence(s, m) && IsCode(s, r) && !Overlaps(m, r) && StandsAlone(s, m)
    ensures Removal(s, m).end <= r.start || r.end <= Removal(s, m).start
  {
    hide StandsAlone, LineStart, LineEnd, IsWhitespace, IsMark, IsHorizontal, IsTagChar;
    LineStartIsStart(s, m.start);
    LineEndIsEnd(s, m.end);
    MarkIsNotBlank(s[r.start]);
    MarkIsNotBlank(s[r.end - 1]);
    NewlineIsBlank();
    if r.end <= m.start && LineStart(s, m.start) < r.end { BlankBeside(s, m, r.end - 1); }
    if m.end <= r.start < LineEnd(s, m.end) { BlankBeside(s, m, r.start); }
  }

  lemma MarkIsNotBlank(c: char)
    ensures IsMark(c) ==> !IsWhitespace(c)
    ensures c == '`' ==> IsMark(c)
  {
  }

  lemma BesideSparesCode(s: string, m: Range, r: Range)
    requires IsOccurrence(s, m) && IsCode(s, r) && !Overlaps(m, r) && !StandsAlone(s, m)
    ensures Removal(s, m).end <= r.start || r.end <= Removal(s, m).start
  {
    hide StandsAlone, LineStart, LineEnd;
  }

  // ---- merging ----

  ghost predicate StartsInOrder(rs: seq<Range>) {
    && (forall k | 0 <= k < |rs| :: rs[k].start < rs[k].end)
    && forall k, l | 0 <= k < l < |rs| :: rs[k].start <= rs[l].start
  }

  ghost predicate Apart(rs: seq<Range>) {
    && (forall k | 0 <= k < |rs| :: rs[k].start < rs[k].end)
    && forall k, l | 0 <= k < l < |rs| :: rs[k].end < rs[l].start
  }

  lemma InSnoc(p: nat, rs: seq<Range>, r: Range)
    ensures In(p, rs + [r]) <==> In(p, rs) || Within(p, r)
  {
    var all := rs + [r];
    if k :| 0 <= k < |rs| && Within(p, rs[k]) { assert Within(p, all[k]); }
    if Within(p, r) { assert Within(p, all[|rs|]); }
  }

  /** What the pass knows after the first ranges: the same positions, apart, and only ends it was given. */
  ghost predicate MergedSoFar(done: seq<Range>, merged: seq<Range>) {
    && Apart(merged)
    && (forall p: nat :: In(p, merged) <==> In(p, done))
    && (merged == [] <==> done == [])
    && (done != [] ==> merged[|merged| - 1].start <= done[|done| - 1].start)
    && (forall r | r in merged :: exists x | x in done :: r.end == x.end)
  }

  lemma SwallowStep(done: seq<Range>, merged: seq<Range>, next: Range)
    requires MergedSoFar(done, merged) && merged != [] && next.start < next.end
    requires merged[|merged| - 1].start <= next.start <= merged[|merged| - 1].end
    ensures var last := merged[|merged| - 1];
      MergedSoFar(done + [next],
        merged[..|merged| - 1] + [Range(last.start, if next.end > last.end then next.end else last.end)])
  {
    var front, last := merged[..|merged| - 1], merged[|merged| - 1];
    var joined := Range(last.start, if next.end > last.end then next.end else last.end);
    hide In;
    forall p: nat ensures In(p, front + [joined]) <==> In(p, done + [next]) {
      Swallowed(p, merged, next);
      InSnoc(p, done, next);
    }
    forall r | r in front + [joined] ensures exists x | x in done + [next] :: r.end == x.end {
      if r.end == next.end {
        assert next in done + [next];
      } else {
        var m := if r == joined then last else r;
        assert m in merged;
        var x :| x in done && m.end == x.end;
        assert x in done + [next];
      }
    }
  }

  lemma AppendStep(done: seq<Range>, merged: seq<Range>, next: Range)
    requires MergedSoFar(done, merged) && next.start < next.end
    requires merged != [] ==> merged[|merged| - 1].end < next.start
    ensures MergedSoFar(done + [next], merged + [next])
  {
    hide In;
    forall p: nat ensures In(p, merged + [next]) <==> In(p, done + [next]) {
      InSnoc(p, merged, next);
      InSnoc(p, done, next);
    }
    forall r | r in merged + [next] ensures exists x | x in done + [next] :: r.end == x.end {
      if r == next {
        assert next in done + [next];
      } else {
        var x :| x in done && r.end == x.end;
        assert x in done + [next];
      }
    }
    if merged != [] { LastEnds(merged); }
  }

  lemma LastEnds(merged: seq<Range>)
    requires Apart(merged) && merged != []
    ensures forall k | 0 <= k < |merged| :: merged[k].end <= merged[|merged| - 1].end
  {
    forall k | 0 <= k < |merged| ensures merged[k].end <= merged[|merged| - 1].end {
      if k < |merged| - 1 {
        assert merged[k].end < merged[|merged| - 1].start;
      }
    }
  }

  /** One pass that swallows each range touching the last one. */
  method Merge(ranges: seq<Range>) returns (merged: seq<Range>)
    requires StartsInOrder(ranges)
    ensures Apart(merged)
    ensures forall p: nat :: In(p, merged) <==> In(p, ranges)
    ensures forall r | r in merged :: exists x | x in ranges :: r.end == x.end
  {
    merged := [];
    assert MergedSoFar([], []);
    for n := 0 to |ranges|
      invariant MergedSoFar(ranges[..n], merged)
    {
      var next := ranges[n];
      assert ranges[..n + 1] == ranges[..n] + [next];
      if merged != [] && next.start <= merged[|merged| - 1].end {
        SwallowStep(ranges[..n], merged, next);
        var last := merged[|merged| - 1];
        merged := merged[..|merged| - 1] + [Range(last.start, if next.end > last.end then next.end else last.end)];
      } else {
        AppendStep(ranges[..n], merged, next);
        merged := merged + [next];
      }
    }
    assert ranges[..|ranges|] == ranges;
  }

  lemma Swallowed(p: nat, merged: seq<Range>, next: Range)
    requires merged != [] && merged[|merged| - 1].start <= next.start <= merged[|merged| - 1].end
    ensures var last := merged[|merged| - 1];
      In(p, merged[..|merged| - 1] + [Range(last.start, if next.end > last.end then next.end else last.end)])
      <==> In(p, merged) || Within(p, next)
  {
    var front, last := merged[..|merged| - 1], merged[|merged| - 1];
    InSnoc(p, front, last);
    InSnoc(p, front, Range(last.start, if next.end > last.end then next.end else last.end));
    assert merged == front + [last];
  }

  lemma {:induction false} KeepSame(s: string, i: nat, a: seq<Range>, b: seq<Range>)
    requires i <= |s| && forall p: nat | i <= p < |s| :: In(p, a) <==> In(p, b)
    ensures Keep(s, i, a) == Keep(s, i, b)
    decreases |s| - i
  {
    hide In;
    if i < |s| { KeepSame(s, i + 1, a, b); }
  }

  lemma {:induction false} KeepStretch(s: string, i: nat, j: nat, rs: seq<Range>)
    requires i <= j <= |s|
    ensures (forall p: nat | i <= p < j :: !In(p, rs)) ==> Keep(s, i, rs) == s[i..j] + Keep(s, j, rs)
    ensures (forall p: nat | i <= p < j :: In(p, rs)) ==> Keep(s, i, rs) == Keep(s, j, rs)
    decreases j - i
  {
    hide In;
    if i < j {
      KeepStretch(s, i + 1, j, rs);
      assert s[i..j] == [s[i]] + s[i + 1..j];
    }
  }

  /** Cutting the ranges out one by one, last first, leaves what lies outside them all. */
  method CutAll(s: string, rs: seq<Range>) returns (out: string)
    requires Apart(rs) && forall k | 0 <= k < |rs| :: rs[k].end <= |s|
    ensures out == Keep(s, 0, rs)
  {
    out := s;
    var n := |rs|;
    NothingCut(s, rs);
    assert out == s[..CutFrom(rs, n)] + s[CutFrom(rs, n)..];
    while n > 0
      invariant 0 <= n <= |rs| && CutDownTo(s, rs, n, out)
    {
      n := n - 1;
      CutOne(s, rs, n, out);
      out := out[..rs[n].start] + out[rs[n].end..];
    }
  }

  /** With the ranges from the `n`-th on cut out, the text before them is still as it was. */
  ghost predicate CutDownTo(s: string, rs: seq<Range>, n: nat, out: string)
    requires n <= |rs|
  {
    CutFrom(rs, n) <= |s| && out == s[..CutFrom(rs, n)] + Keep(s, CutFrom(rs, n), rs)
  }

  lemma CutOne(s: string, rs: seq<Range>, n: nat, out: string)
    requires Apart(rs) && n < |rs| && (forall k | 0 <= k < |rs| :: rs[k].end <= |s|) && CutDownTo(s, rs, n + 1, out)
    ensures rs[n].start <= rs[n].end <= |out|
    ensures CutDownTo(s, rs, n, out[..rs[n].start] + out[rs[n].end..])
  {
    CutStep(s, rs, n);
    var from, r := CutFrom(rs, n), rs[n];
    assert r.start < r.end == CutFrom(rs, n + 1);
    hide Apart, Keep, CutFrom;
    assert out[..r.start] == s[..r.start] && out[r.end..] == Keep(s, r.end, rs);
    assert s[..r.start] == s[..from] + s[from..r.start];
  }

  function CutFrom(rs: seq<Range>, n: nat): nat
    requires n <= |rs|
  {
    if n == 0 then 0 else rs[n - 1].end
  }

  lemma NothingCut(s: string, rs: seq<Range>)
    requires Apart(rs) && forall k | 0 <= k < |rs| :: rs[k].end <= |s|
    ensures CutFrom(rs, |rs|) <= |s| && Keep(s, CutFrom(rs, |rs|), rs) == s[CutFrom(rs, |rs|)..]
  {
    var from := CutFrom(rs, |rs|);
    hide In, Apart, Keep;
    assert from <= |s|;
    hide CutFrom;
    forall p: nat | from <= p < |s| ensures !In(p, rs) { PastLast(p, rs); }
    KeepRest(s, from, rs);
  }

  lemma {:induction false} KeepRest(s: string, i: nat, rs: seq<Range>)
    requires i <= |s| && forall p: nat | i <= p < |s| :: !In(p, rs)
    ensures Keep(s, i, rs) == s[i..]
    decreases |s| - i
  {
    hide In;
    if i < |s| {
      KeepRest(s, i + 1, rs);
      assert s[i..] == [s[i]] + s[i + 1..];
    }
  }

  lemma PastLast(p: nat, rs: seq<Range>)
    requires Apart(rs) && CutFrom(rs, |rs|) <= p
    ensures !In(p, rs)
  {
    forall k | 0 <= k < |rs| ensures !Within(p, rs[k]) {
      if k < |rs| - 1 { assert rs[k].end < rs[|rs| - 1].start; }
    }
  }

  lemma CutStep(s: string, rs: seq<Range>, n: nat)
    requires Apart(rs) && n < |rs| && forall k | 0 <= k < |rs| :: rs[k].end <= |s|
    ensures CutFrom(rs, n) <= rs[n].start
    ensures Keep(s, CutFrom(rs, n), rs) == s[CutFrom(rs, n)..rs[n].start] + Keep(s, rs[n].end, rs)
  {
    var from, r := CutFrom(rs, n), rs[n];
    forall p: nat | from <= p < r.start ensures !In(p, rs) {
      if k :| 0 <= k < |rs| && Within(p, rs[k]) { BetweenRanges(p, rs, n, k); }
    }
    forall p: nat | r.start <= p < r.end ensures In(p, rs) { assert Within(p, rs[n]); }
    KeepStretch(s, from, r.start, rs);
    KeepStretch(s, r.start, r.end, rs);
  }

  lemma BetweenRanges(p: nat, rs: seq<Range>, n: nat, k: nat)
    requires Apart(rs) && n < |rs| && k < |rs| && CutFrom(rs, n) <= p < rs[n].start
    ensures !Within(p, rs[k])
  {
    if k > n { assert rs[n].end < rs[k].start; }
    if k < n - 1 { assert rs[k].end < rs[n - 1].start; }
  }

  // ---- the ranges come in order ----

  /** Two occurrences never share a line with one of them alone on it, so ranges start in order. */
  lemma RemovalsInOrder(s: string, m: Range, n: Range)
    requires IsOccurrence(s, m) && IsOccurrence(s, n) && m.end <= n.start
    ensures Removal(s, m).start <= Removal(s, n).start
  {
    hide StandsAlone, LineStart, LineEnd, IsHorizontal;
    if StandsAlone(s, n) {
      LineStartIsStart(s, n.start);
      if LineStart(s, n.start) <= m.start { BlankBeside(s, n, m.start); }
    }
  }

  lemma {:induction false} RemovalsFrom(s: string, ms: seq<Range>, tag: string, code: seq<Range>)
    requires forall k | 0 <= k < |ms| :: ms[k].start < ms[k].end <= |s|
    ensures forall r | r in Removals(s, ms, tag, code) ::
      exists k | 0 <= k < |ms| :: Counts(s, ms[k], tag, code) && r == Removal(s, ms[k])
    ensures forall k | 0 <= k < |ms| && Counts(s, ms[k], tag, code) :: Removal(s, ms[k]) in Removals(s, ms, tag, code)
  {
    hide Counts, Removal;
    if ms != [] {
      var tail := ms[1..];
      RemovalsFrom(s, tail, tag, code);
      assert forall k | 0 < k < |ms| :: ms[k] == tail[k - 1];
      forall r | r in Removals(s, tail, tag, code)
        ensures exists k | 0 <= k < |ms| :: Counts(s, ms[k], tag, code) && r == Removal(s, ms[k])
      {
        var k :| 0 <= k < |tail| && Counts(s, tail[k], tag, code) && r == Removal(s, tail[k]);
        assert ms[k + 1] == tail[k];
      }
    }
  }

  lemma {:induction false} RemovalsStartInOrder(s: string, ms: seq<Range>, tag: string, code: seq<Range>)
    requires forall k | 0 <= k < |ms| :: ms[k].start < ms[k].end <= |s| && IsOccurrence(s, ms[k])
    requires forall k, l | 0 <= k < l < |ms| :: ms[k].end <= ms[l].start
    ensures StartsInOrder(Removals(s, ms, tag, code))
  {
    hide Counts, Removal, IsOccurrence;
    if ms != [] {
      var tail := ms[1..];
      assert forall k | 0 <= k < |tail| :: tail[k] == ms[k + 1];
      RemovalsStartInOrder(s, tail, tag, code);
      FirstStartsFirst(s, ms, tag, code);
      StartsInOrderCons(Removal(s, ms[0]), Removals(s, tail, tag, code));
    }
  }

  lemma FirstStartsFirst(s: string, ms: seq<Range>, tag: string, code: seq<Range>)
    requires ms != [] && forall k | 0 <= k < |ms| :: ms[k].start < ms[k].end <= |s| && IsOccurrence(s, ms[k])
    requires forall k, l | 0 <= k < l < |ms| :: ms[k].end <= ms[l].start
    ensures forall r | r in Removals(s, ms[1..], tag, code) :: Removal(s, ms[0]).start <= r.start
  {
    var tail := ms[1..];
    assert forall k | 0 <= k < |tail| :: tail[k] == ms[k + 1];
    RemovalsFrom(s, tail, tag, code);
    hide Counts, Removal, IsOccurrence, Removals;
    forall r | r in Removals(s, tail, tag, code) ensures Removal(s, ms[0]).start <= r.start {
      var k :| 0 <= k < |tail| && Counts(s, tail[k], tag, code) && r == Removal(s, tail[k]);
      RemovalsInOrder(s, ms[0], ms[k + 1]);
    }
  }

  lemma StartsInOrderCons(r: Range, rest: seq<Range>)
    requires r.start < r.end && StartsInOrder(rest) && forall x | x in rest :: r.start <= x.start
    ensures StartsInOrder([r] + rest)
  {
    var all := [r] + rest;
    forall k, l | 0 <= k < l < |all| ensures all[k].start <= all[l].start {
      assert all[l] == rest[l - 1] && rest[l - 1] in rest;
    }
  }

  // ---- the whole operation ----

  method RemoveTagFrom(body: string, tag: string) returns (out: string)
    ensures out == Keep(body, 0, Removed(body, tag))
  {
    var code, ms, ranges := CodeRanges(body), TagMatches(body, 0), [];
    MatchShape(body, 0);
    MatchesAreOccurrences(body);
    assert ms[..|ms|] == ms;
    hide CodeRanges, TagMatches, Counts, Removal, IsOccurrence;
    for n := 0 to |ms|
      invariant ranges == Removals(body, ms[..n], tag, code)
    {
      RemovalsSnoc(body, ms, n, tag, code);
      if Counts(body, ms[n], tag, code) {
        ranges := ranges + [Removal(body, ms[n])];
      }
    }
    RemovalsStartInOrder(body, ms, tag, code);
    RemovalsFrom(body, ms, tag, code);
    var merged := Merge(ranges);
    assert forall k | 0 <= k < |merged| :: merged[k] in merged;
    out := CutAll(body, merged);
    KeepSame(body, 0, merged, ranges);
  }

  lemma {:induction false} RemovalsSnoc(s: string, ms: seq<Range>, n: nat, tag: string, code: seq<Range>)
    requires n < |ms| && forall k | 0 <= k < |ms| :: ms[k].start < ms[k].end <= |s|
    ensures Removals(s, ms[..n + 1], tag, code)
         == if Counts(s, ms[n], tag, code) then Removals(s, ms[..n], tag, code) + [Removal(s, ms[n])]
            else Removals(s, ms[..n], tag, code)
  {
    hide Counts, Removal;
    assert ms[..n + 1][1..] == ms[1..][..n];
    if n > 0 {
      assert ms[..n][1..] == ms[1..][..n - 1];
      RemovalsSnoc(s, ms[1..], n - 1, tag, code);
    }
  }

  /** Every counted occurrence goes entirely; what goes with it is only whitespace; code stays. */
  lemma RemovedExactly(body: string, tag: string)
    ensures forall m, p: nat | m in TagMatches(body, 0) && Counts(body, m, tag, CodeRanges(body)) && Within(p, m) ::
      In(p, Removed(body, tag))
    ensures forall p: nat | p < |body| && In(p, Removed(body, tag)) && !IsWhitespace(body[p]) ::
      exists m | m in TagMatches(body, 0) :: Counts(body, m, tag, CodeRanges(body)) && Within(p, m)
    ensures forall r, p: nat | r in CodeRanges(body) && Within(p, r) :: !In(p, Removed(body, tag))
  {
    var code, ms, rs := CodeRanges(body), TagMatches(body, 0), Removed(body, tag);
    MatchShape(body, 0);
    MatchesAreOccurrences(body);
    RemovalsFrom(body, ms, tag, code);
    hide TagMatches, CodeRanges, Removed, Counts, Removal, IsOccurrence;
    forall m, p: nat | m in ms && Counts(body, m, tag, code) && Within(p, m) ensures In(p, rs) {
      RemovalCovers(body, m, p, rs);
    }
    forall p: nat | p < |body| && In(p, rs) && !IsWhitespace(body[p])
      ensures exists m | m in ms :: Counts(body, m, tag, code) && Within(p, m)
    {
      var k :| 0 <= k < |rs| && Within(p, rs[k]);
      assert rs[k] in rs;
      var n :| 0 <= n < |ms| && Counts(body, ms[n], tag, code) && rs[k] == Removal(body, ms[n]);
      RemovalShape(body, ms[n]);
      assert ms[n] in ms;
    }
    forall r, p: nat | r in code && Within(p, r) ensures !In(p, rs) {
      forall k | 0 <= k < |rs| ensures !Within(p, rs[k]) {
        assert rs[k] in rs;
        var n :| 0 <= n < |ms| && Counts(body, ms[n], tag, code) && rs[k] == Removal(body, ms[n]);
        CountedSparesCode(body, ms[n], tag, r);
      }
    }
  }

  lemma RemovalCovers(s: string, m: Range, p: nat, rs: seq<Range>)
    requires m.start < m.end <= |s| && Within(p, m) && Removal(s, m) in rs
    ensures In(p, rs)
  {
    hide StandsAlone, LineStart, LineEnd;
    assert Within(p, Removal(s, m));
    hide Removal;
    var k :| 0 <= k < |rs| && rs[k] == Removal(s, m);
  }

  lemma CountedSparesCode(s: string, m: Range, tag: string, r: Range)
    requires IsOccurrence(s, m) && Counts(s, m, tag, CodeRanges(s)) && r in CodeRanges(s)
    ensures Removal(s, m).end <= r.start || r.end <= Removal(s, m).start
  {
    FencedIsCode(s);
    InlineIsCode(s, 0);
    hide FencedRanges, InlineSpans, IsCode, Removal;
    var k :| 0 <= k < |CodeRanges(s)| && CodeRanges(s)[k] == r;
    assert !Overlaps(m, r);
    RemovalSparesCode(s, m, r);
  }

  // ---- a limit of the operation ----

  lemma {:induction false} NoMarksNoBlocks(ls: seq<string>, i: nat)
    requires i <= |ls| && forall k | 0 <= k < |ls| :: NoMarks(ls[k])
    ensures Blocks(ls, i) == []
    decreases |ls| - i
  {
    if i < |ls| {
      NoFence(ls[i], Fence('`', 3));
      NoMarksNoBlocks(ls, i + 1);
    }
  }

  lemma NoMarksNoCode(s: string)
    requires NoMarks(s)
    ensures CodeRanges(s) == []
  {
    LineScalars(s);
    NoMarksNoBlocks(Lines(s), 0);
    NoTickAfter("", s, 0);
    assert "" + s == s;
  }

  lemma OnlyTag(s: string)
    requires s == "#a"
    ensures ExtractTags(s) == ["a"]
  {
    NormalizeWithoutCr(s);
    NoMarksNoCode(s);
    hide CodeRanges, Normalize;
    assert TagEnd(s, 1) == 2;
    assert TagMatches(s, 0) == [Range(0, 2)];
    assert Name(s, Range(0, 2)) == "a" && IsTag(s, Range(0, 2), []);
    assert [Range(0, 2)][1..] == [];
    assert NamesOf(s, [], []) == [] && ["a"] + [] == ["a"];
    assert NamesOf(s, [Range(0, 2)], []) == ["a"];
    assert ["a"][..0] == [];
  }

  lemma FirstOfTwo(s: string)
    requires s == "#a#a"
    ensures Removed(s, "a") == [Range(0, 2)] && Keep(s, 0, [Range(0, 2)]) == "#a"
  {
    FirstRemoved(s);
    FirstCut(s);
  }

  lemma FirstCut(s: string)
    requires s == "#a#a"
    ensures Keep(s, 0, [Range(0, 2)]) == "#a"
  {
    var rs := [Range(0, 2)];
    assert Within(0, rs[0]) && Within(1, rs[0]) && !In(2, rs) && !In(3, rs);
    KeepStretch(s, 0, 2, rs);
    KeepStretch(s, 2, 4, rs);
    assert s[2..4] == "#a";
  }

  lemma FirstRemoved(s: string)
    requires s == "#a#a"
    ensures Removed(s, "a") == [Range(0, 2)]
  {
    NoMarksNoCode(s);
    hide CodeRanges;
    var a, b := Range(0, 2), Range(2, 4);
    assert TagEnd(s, 1) == 2 && TagEnd(s, 3) == 4;
    assert TagMatches(s, 2) == [b];
    assert TagMatches(s, 0) == [a] + [b];
    assert Name(s, a) == "a" && Counts(s, a, "a", []) && !Counts(s, b, "a", []);
    WholeLine(s);
    assert Removal(s, a) == a;
    hide TagMatches, Counts, Removal;
    assert [a] + [b] == [a, b] && [a, b][1..] == [b] && [b][1..] == [];
    assert Removals(s, [b], "a", []) == [];
    assert Removals(s, [a, b], "a", []) == [a];
  }

  lemma WholeLine(s: string)
    requires s == "#a#a"
    ensures !StandsAlone(s, Range(0, 2))
  {
    assert LineEnd(s, 4) == 4 && LineEnd(s, 3) == 4 && LineEnd(s, 2) == 4;
    assert s[0..4] == s && StripCr(s) == s;
    assert TrimStart(s) == s && TrimEnd(s) == s;
  }

  /**
   Removing is not the same as no longer deriving: of `#a#a` only the first half counts as a tag,
   and cutting it leaves an `#a` that now does.
   */
  lemma RemovalCanUncoverTag()
    ensures var out := Keep("#a#a", 0, Removed("#a#a", "a")); out == "#a" && "a" in ExtractTags(out)
  {
    FirstOfTwo("#a#a");
    OnlyTag("#a");
    hide Keep, Removed, ExtractTags;
  }
}

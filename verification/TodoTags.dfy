/**
 Checking items never changes tags (content/edits.rs, content/mod.rs): the one scalar that changes
 stands between the brackets of a task item, where no scanner tells a blank from an `x`.
 */
module TodoTags {
  import opened Text
  import opened Fences
  import opened Tags
  import opened Frontmatter
  import RemoveTag
  import Todos

  predicate IsState(c: char) {
    c == ' ' || c == 'x' || c == 'X'
  }

  /** A scalar behind `p` is replaced by itself, or as a state behind a bracket by another state. */
  predicate Swap(p: char, c: char, d: char) {
    c == d || (p == '[' && IsState(c) && IsState(d))
  }

  function Before(prev: char, s: string, i: nat): char
    requires i < |s|
  {
    if i == 0 then prev else s[i - 1]
  }

  /** Texts that differ only in state scalars behind an opening bracket; `prev` is what comes before. */
  ghost predicate Swapped(prev: char, s: string, t: string) {
    |s| == |t| && forall i | 0 <= i < |s| :: Swap(Before(prev, s, i), s[i], t[i])
  }

  ghost predicate Boxed(s: string, t: string) {
    |s| == |t| && forall i | 0 <= i < |s| && s[i] != t[i] :: i + 1 < |s| && s[i + 1] == ']'
  }

  ghost predicate Alike(s: string, t: string) {
    Swapped('\n', s, t) && Boxed(s, t)
  }

  lemma SwappedTail(prev: char, s: string, t: string)
    requires Swapped(prev, s, t) && s != ""
    ensures Swapped(s[0], s[1..], t[1..]) && Swap(prev, s[0], t[0])
  {
    assert Swap(Before(prev, s, 0), s[0], t[0]);
    forall i | 0 <= i < |s| - 1 ensures Swap(Before(s[0], s[1..], i), s[1..][i], t[1..][i]) {
      assert Swap(Before(prev, s, i + 1), s[i + 1], t[i + 1]);
    }
  }

  lemma SwappedCons(prev: char, c: char, d: char, s: string, t: string)
    requires Swapped(c, s, t) && Swap(prev, c, d)
    ensures Swapped(prev, [c] + s, [d] + t)
  {
    var a, b := [c] + s, [d] + t;
    forall i | 0 <= i < |a| ensures Swap(Before(prev, a, i), a[i], b[i]) {
      if i > 0 { assert Swap(Before(c, s, i - 1), s[i - 1], t[i - 1]); }
    }
  }

  lemma SwappedNothing(prev: char)
    ensures Swapped(prev, "", "")
  {
  }

  // ---- lines ----

  lemma AlikeConcat(a: string, b: string, c: string, d: string)
    requires Alike(a, b) && Alike(c, d)
    ensures Alike(a + "\n" + c, b + "\n" + d)
  {
  }

  ghost predicate AlikeLines(ls: seq<string>, lt: seq<string>) {
    |ls| == |lt| && forall k | 0 <= k < |ls| :: Alike(ls[k], lt[k])
  }

  lemma {:induction false} JoinAlike(ls: seq<string>, lt: seq<string>)
    requires AlikeLines(ls, lt) && |ls| >= 1
    ensures Alike(Join(ls), Join(lt))
  {
    hide Alike;
    if |ls| > 1 {
      JoinAlike(ls[1..], lt[1..]);
      AlikeConcat(ls[0], lt[0], Join(ls[1..]), Join(lt[1..]));
    }
  }

  lemma SameIsAlike(s: string)
    ensures Alike(s, s)
  {
  }

  lemma MarkAlike(line: string, checked: bool)
    requires Todos.ParseCheckbox(line).Some?
    ensures Alike(line, Todos.Mark(line, Todos.ParseCheckbox(line).value.pos, checked))
  {
    Todos.ParsedShape(line);
    hide Todos.ParseCheckbox;
    var content, pos := StripCr(line), Todos.ParseCheckbox(line).value.pos;
    assert content[pos - 1] == line[pos - 1] && content[pos] == line[pos] && content[pos + 1] == line[pos + 1];
  }

  lemma {:induction false} MarkLinesAlike(ls: seq<string>, indices: set<nat>, checked: bool, next: nat)
    ensures AlikeLines(ls, Todos.MarkLines(ls, indices, checked, next))
  {
    hide Todos.ParseCheckbox, Todos.Mark, Alike;
    if ls != [] {
      SameIsAlike(ls[0]);
      if Todos.ParseCheckbox(ls[0]).Some? { MarkAlike(ls[0], checked); }
      MarkLinesAlike(ls[1..], indices, checked, if Todos.ParseCheckbox(ls[0]).Some? then next + 1 else next);
    }
  }

  ghost predicate SwappedLines(prev: char, ls: seq<string>, lt: seq<string>) {
    && |ls| == |lt| && |ls| >= 1 && Swapped(prev, ls[0], lt[0])
    && forall k | 1 <= k < |ls| :: Swapped('\n', ls[k], lt[k])
  }

  lemma {:induction false} LinesSwapped(prev: char, s: string, t: string)
    requires Swapped(prev, s, t)
    ensures SwappedLines(prev, Lines(s), Lines(t))
    decreases |s|
  {
    if s != "" {
      SwappedTail(prev, s, t);
      LinesSwapped(s[0], s[1..], t[1..]);
      hide SwappedLines;
      PrependSwapped(prev, s[0], t[0], Lines(s[1..]), Lines(t[1..]));
    }
  }

  lemma PrependSwapped(prev: char, c: char, d: char, ls: seq<string>, lt: seq<string>)
    requires SwappedLines(c, ls, lt) && Swap(prev, c, d)
    ensures SwappedLines(prev, Prepend(c, ls), Prepend(d, lt))
  {
    var a, b := Prepend(c, ls), Prepend(d, lt);
    if c == '\n' {
      hide Swapped;
      assert Swapped(prev, "", "") by { SwappedNothing(prev); }
    } else {
      SwappedCons(prev, c, d, ls[0], lt[0]);
      hide Swapped;
    }
  }

  // ---- line endings ----

  lemma {:induction false} CrAlike(s: string, t: string)
    requires Alike(s, t)
    ensures Alike(ReplaceCr(s), ReplaceCr(t))
  {
    CrAt(s);
    CrAt(t);
  }

  lemma {:induction false} CrAt(s: string)
    ensures |ReplaceCr(s)| == |s|
    ensures forall i | 0 <= i < |s| :: ReplaceCr(s)[i] == if s[i] == '\r' then '\n' else s[i]
  {
    if s != "" { CrAt(s[1..]); }
  }

  lemma {:induction false} CrLfSwapped(prev: char, s: string, t: string)
    requires Swapped(prev, s, t) && Boxed(s, t)
    ensures Swapped(prev, ReplaceCrLf(s), ReplaceCrLf(t)) && Boxed(ReplaceCrLf(s), ReplaceCrLf(t))
    decreases |s|
  {
    if s != "" {
      SwappedTail(prev, s, t);
      BoxedTail(s, t);
      if StartsCrLf(s) {
        SwappedTail(s[0], s[1..], t[1..]);
        BoxedTail(s[1..], t[1..]);
        assert s[1..][1..] == s[2..] && t[1..][1..] == t[2..];
        CrLfSwapped('\n', s[2..], t[2..]);
        SwappedCons(prev, '\n', '\n', ReplaceCrLf(s[2..]), ReplaceCrLf(t[2..]));
        BoxedCons('\n', '\n', ReplaceCrLf(s[2..]), ReplaceCrLf(t[2..]));
      } else {
        CrLfSwapped(s[0], s[1..], t[1..]);
        SwappedCons(prev, s[0], t[0], ReplaceCrLf(s[1..]), ReplaceCrLf(t[1..]));
        FirstStays(s[1..]);
        hide Swapped;
        BoxedCons(s[0], t[0], ReplaceCrLf(s[1..]), ReplaceCrLf(t[1..]));
      }
    }
  }

  lemma FirstStays(s: string)
    ensures s != "" && s[0] == ']' ==> ReplaceCrLf(s) != "" && ReplaceCrLf(s)[0] == ']'
  {
  }

  lemma BoxedTail(s: string, t: string)
    requires Boxed(s, t) && s != ""
    ensures Boxed(s[1..], t[1..])
    ensures s[0] != t[0] ==> s[1..] != "" && s[1..][0] == ']'
  {
  }

  lemma BoxedCons(c: char, d: char, s: string, t: string)
    requires Boxed(s, t) && (c == d || (s != "" && s[0] == ']'))
    ensures Boxed([c] + s, [d] + t)
  {
  }

  lemma NormalizeAlike(s: string, t: string)
    requires Alike(s, t)
    ensures Alike(Normalize(s), Normalize(t))
  {
    CrLfSwapped('\n', s, t);
    CrAlike(ReplaceCrLf(s), ReplaceCrLf(t));
  }

  // ---- fences ----

  lemma {:induction false} RunSwapped(prev: char, s: string, t: string, mark: char)
    requires Swapped(prev, s, t) && IsMark(mark)
    ensures RunLength(s, mark) == RunLength(t, mark)
    ensures forall i | 0 <= i < RunLength(s, mark) :: s[i] == mark
    decreases |s|
  {
    if s != "" {
      SwappedTail(prev, s, t);
      RunSwapped(s[0], s[1..], t[1..], mark);
    }
  }

  lemma OpenSwapped(prev: char, s: string, t: string)
    requires Swapped(prev, s, t)
    ensures OpenFence(s) == OpenFence(t)
  {
    RunSwapped(prev, s, t, '`');
    RunSwapped(prev, s, t, '~');
    hide RunLength;
  }

  lemma CloseSwapped(s: string, t: string, fence: Fence)
    requires Swapped('\n', s, t) && IsMark(fence.mark)
    ensures IsClosingFence(s, fence) == IsClosingFence(t, fence)
  {
    RunSwapped('\n', s, t, fence.mark);
    hide RunLength;
    if RunLength(s, fence.mark) == fence.run {
      BlankSwapped(s, t, fence.run);
    }
  }

  /** A line with a bracket is not blank, whatever the bracket holds. */
  lemma BlankSwapped(s: string, t: string, run: nat)
    requires Swapped('\n', s, t) && run <= |s| && forall i | 0 <= i < run :: s[i] != '['
    ensures AllBlank(s[run..]) == AllBlank(t[run..])
  {
    if i :| run <= i < |s| && s[i] != t[i] {
      assert Swap(Before('\n', s, i), s[i], t[i]);
      assert s[i - 1] == '[' && Swap(Before('\n', s, i - 1), s[i - 1], t[i - 1]);
      assert s[run..][i - 1 - run] == '[' && t[run..][i - 1 - run] == '[';
    } else {
      assert s[run..] == t[run..];
    }
  }

  lemma {:induction false} FindCloseSwapped(ls: seq<string>, lt: seq<string>, i: nat, fence: Fence)
    requires SwappedLines('\n', ls, lt) && i <= |ls| && IsMark(fence.mark)
    ensures FindClose(ls, i, fence) == FindClose(lt, i, fence)
    decreases |ls| - i
  {
    hide IsClosingFence, Swapped;
    if i < |ls| {
      CloseSwapped(ls[i], lt[i], fence);
      FindCloseSwapped(ls, lt, i + 1, fence);
    }
  }

  lemma {:induction false} BlocksSwapped(ls: seq<string>, lt: seq<string>, i: nat)
    requires SwappedLines('\n', ls, lt) && i <= |ls|
    ensures Blocks(ls, i) == Blocks(lt, i)
    decreases |ls| - i
  {
    hide OpenFence, FindClose, Swapped;
    if i < |ls| {
      OpenSwapped('\n', ls[i], lt[i]);
      if OpenFence(ls[i]).Some? {
        OpenedFence(ls[i]);
        FindCloseSwapped(ls, lt, i + 1, OpenFence(ls[i]).value);
      }
      BlocksStep(ls, i);
      BlocksStep(lt, i);
      assert AfterLine(ls, i) == AfterLine(lt, i) && OpensBlock(ls, i) == OpensBlock(lt, i);
      hide Blocks, AfterLine, OpensBlock, SwappedLines;
      BlocksSwapped(ls, lt, AfterLine(ls, i));
    }
  }

  lemma {:induction false} OffsetSwapped(ls: seq<string>, lt: seq<string>, k: nat)
    requires SwappedLines('\n', ls, lt) && k <= |ls|
    ensures Offset(ls, k) == Offset(lt, k)
  {
    if k > 0 { OffsetSwapped(ls, lt, k - 1); }
  }

  lemma RangeSwapped(ls: seq<string>, lt: seq<string>, b: Block)
    requires SwappedLines('\n', ls, lt) && b.open < |ls| && b.close < |ls|
    ensures BlockRange(ls, b) == BlockRange(lt, b)
  {
    OffsetSwapped(ls, lt, b.open);
    OffsetSwapped(ls, lt, b.close);
  }

  lemma FencesSwapped(s: string, t: string)
    requires Swapped('\n', s, t)
    ensures FencedRanges(s) == FencedRanges(t)
  {
    var ls, lt := Lines(s), Lines(t);
    LinesSwapped('\n', s, t);
    BlocksSwapped(ls, lt, 0);
    BlocksInBounds(ls, 0);
    hide Lines, Blocks, BlockRange, SwappedLines;
    assert |FencedRanges(s)| == |FencedRanges(t)|;
    forall k | 0 <= k < |FencedRanges(s)| ensures FencedRanges(s)[k] == FencedRanges(t)[k] {
      RangeSwapped(ls, lt, Blocks(ls, 0)[k]);
    }
  }

  // ---- spans and matches ----

  lemma {:induction false} TickSwapped(s: string, t: string, i: nat)
    requires Swapped('\n', s, t) && i <= |s|
    ensures NextTick(s, i) == NextTick(t, i)
    decreases |s| - i
  {
    if i < |s| { TickSwapped(s, t, i + 1); }
  }

  lemma {:induction false} SpansSwapped(s: string, t: string, i: nat)
    requires Swapped('\n', s, t) && i <= |s|
    ensures InlineSpans(s, i) == InlineSpans(t, i)
    decreases |s| - i
  {
    if i < |s| {
      TickSwapped(s, t, i + 1);
      SpansStep(s, i);
      SpansStep(t, i);
      assert OpensSpan(s, i) == OpensSpan(t, i) && AfterSpan(s, i) == AfterSpan(t, i);
      hide InlineSpans, OpensSpan, AfterSpan, Swapped;
      SpansSwapped(s, t, AfterSpan(s, i));
    }
  }

  lemma {:induction false} TagEndSwapped(s: string, t: string, i: nat)
    requires Swapped('\n', s, t) && 0 < i <= |s| && s[i - 1] != '['
    ensures TagEnd(s, i) == TagEnd(t, i)
    decreases |s| - i
  {
    if i < |s| && IsTagChar(s[i]) { TagEndSwapped(s, t, i + 1); }
  }

  lemma StartSwapped(s: string, t: string, i: nat)
    requires Swapped('\n', s, t) && i < |s|
    ensures StartsTag(s, i) == StartsTag(t, i)
  {
  }

  lemma {:induction false} MatchesSwapped(s: string, t: string, i: nat)
    requires Swapped('\n', s, t) && i <= |s|
    ensures TagMatches(s, i) == TagMatches(t, i)
    decreases |s| - i
  {
    if i < |s| {
      TagMatchesStep(s, i);
      TagMatchesStep(t, i);
      StartSwapped(s, t, i);
      hide TagMatches, Swapped;
      if StartsTag(s, i) {
        TagEndSwapped(s, t, i + 1);
        hide TagEnd;
        MatchesSwapped(s, t, TagEnd(s, i + 1));
      } else {
        MatchesSwapped(s, t, i + 1);
      }
    }
  }

  lemma NameSwapped(s: string, t: string, m: Range)
    requires Alike(s, t) && m.start < m.end <= |s| && s[m.start] == '#'
    requires forall p | m.start < p < m.end :: IsTagChar(s[p])
    ensures Name(s, m) == Name(t, m)
    ensures PrecededOk(s, m.start) == PrecededOk(t, m.start)
  {
    forall p | m.start < p < m.end ensures s[p] == t[p] { assert Swap(Before('\n', s, p), s[p], t[p]); }
    if m.start > 0 { assert Swap(Before('\n', s, m.start - 1), s[m.start - 1], t[m.start - 1]); }
    assert s[m.start + 1..m.end] == t[m.start + 1..m.end];
  }

  lemma {:induction false} NamesSwapped(s: string, t: string, ms: seq<Range>, code: seq<Range>)
    requires Alike(s, t)
    requires forall k | 0 <= k < |ms| :: ms[k].start < ms[k].end <= |s| && s[ms[k].start] == '#'
    requires forall k, p | 0 <= k < |ms| && ms[k].start < p < ms[k].end :: IsTagChar(s[p])
    ensures NamesOf(s, ms, code) == NamesOf(t, ms, code)
  {
    hide Name, OverlapsAny, PrecededOk, Alike, IsTagChar;
    if ms != [] {
      assert |s| == |t| by { SameLength(s, t); }
      NameSwapped(s, t, ms[0]);
      NamesSwapped(s, t, ms[1..], code);
    }
  }

  lemma SameLength(s: string, t: string)
    requires Alike(s, t)
    ensures |s| == |t|
  {
  }

  lemma MatchScalars(s: string)
    ensures var ms := TagMatches(s, 0);
      && (forall k | 0 <= k < |ms| :: ms[k].start < ms[k].end <= |s| && s[ms[k].start] == '#')
      && (forall k, p | 0 <= k < |ms| && ms[k].start < p < ms[k].end :: IsTagChar(s[p]))
  {
    var ms := TagMatches(s, 0);
    RemoveTag.MatchShape(s, 0);
    hide TagMatches, IsTagChar;
    forall k, p | 0 <= k < |ms| && ms[k].start < p < ms[k].end ensures IsTagChar(s[p]) {
      TagEndScalars(s, ms[k].start + 1);
    }
  }

  lemma AlikeTags(s: string, t: string)
    requires Alike(s, t)
    ensures TagNames(s) == TagNames(t)
  {
    MatchesSwapped(s, t, 0);
    SpansSwapped(s, t, 0);
    FencesSwapped(s, t);
    MatchScalars(s);
    hide TagMatches, InlineSpans, FencedRanges, NamesOf, Alike;
    NamesSwapped(s, t, TagMatches(s, 0), CodeRanges(s));
  }

  // ---- the fence at the front ----

  lemma DashesAlike(s: string, t: string)
    requires Alike(s, t)
    ensures IsDashes(s) == IsDashes(t)
  {
    if i :| 0 <= i < |s| && s[i] != t[i] {
      assert Swap(Before('\n', s, i), s[i], t[i]);
      assert s[i - 1] == '[' && Swap(Before('\n', s, i - 1), s[i - 1], t[i - 1]);
      NotDashes(s, i - 1);
      NotDashes(t, i - 1);
    } else {
      assert s == t;
    }
  }

  lemma NotDashes(s: string, i: nat)
    requires i < |s| && s[i] == '['
    ensures !IsDashes(s)
  {
    if i < |StripCr(s)| { assert StripCr(s)[i] == '['; }
  }

  lemma {:induction false} FindDashesAlike(ls: seq<string>, lt: seq<string>, k: nat)
    requires AlikeLines(ls, lt) && k <= |ls|
    ensures FindDashes(ls, k) == FindDashes(lt, k)
    decreases |ls| - k
  {
    hide IsDashes, Alike;
    if k < |ls| {
      DashesAlike(ls[k], lt[k]);
      FindDashesAlike(ls, lt, k + 1);
    }
  }

  lemma RestAlike(s: string, t: string)
    requires AlikeLines(Lines(s), Lines(t))
    ensures Alike(Rest(s), Rest(t))
  {
    var ls, lt := Lines(s), Lines(t);
    DashesAlike(ls[0], lt[0]);
    FindDashesAlike(ls, lt, 1);
    JoinLines(s);
    JoinLines(t);
    JoinAlike(ls, lt);
    SameIsAlike("");
    hide Lines, Join, IsDashes, FindDashes, Alike;
    match FenceEnd(ls)
    case None =>
    case Some(n) => if n + 1 < |ls| { JoinAlike(ls[n + 1..], lt[n + 1..]); }
  }

  /** Checking or unchecking any items leaves the tags derived from the body as they were. */
  lemma CheckingKeepsTags(body: string, indices: seq<nat>, checked: bool)
    ensures var r := Todos.SetTodosChecked(body, indices, checked);
      r.Body? ==> DerivedTags(r.body) == DerivedTags(body)
  {
    var r := Todos.SetTodosChecked(body, indices, checked);
    if r.Body? {
      Todos.CheckedSet(body, indices, checked);
      var ls, lt := Lines(body), Todos.MarkLines(Lines(body), Todos.ToSet(indices), checked, 0);
      MarkLinesAlike(ls, Todos.ToSet(indices), checked, 0);
      hide Alike, Todos.Items, Todos.SetTodosChecked, Todos.MarkLines, Todos.ToSet, Lines, Join;
      MarkedOneLine(body, Todos.ToSet(indices), checked);
      LinesJoin(lt);
      RestAlike(body, r.body);
      NormalizeAlike(Rest(body), Rest(r.body));
      AlikeTags(Normalize(Rest(body)), Normalize(Rest(r.body)));
    }
  }

  lemma MarkedOneLine(body: string, indices: set<nat>, checked: bool)
    ensures forall k | 0 <= k < |Lines(body)| :: OneLine(Todos.MarkLines(Lines(body), indices, checked, 0)[k])
  {
    MarkLinesAlike(Lines(body), indices, checked, 0);
    var ls, lt := Lines(body), Todos.MarkLines(Lines(body), indices, checked, 0);
    hide Lines, Todos.MarkLines, Alike;
    forall k | 0 <= k < |ls| ensures OneLine(lt[k]) { AlikeOneLine(ls[k], lt[k]); }
  }

  lemma AlikeOneLine(s: string, t: string)
    requires Alike(s, t) && OneLine(s)
    ensures OneLine(t)
  {
  }
}

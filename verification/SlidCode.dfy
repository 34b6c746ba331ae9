/**
 Where code lies after a tag was removed (content/edits.rs, content/mod.rs): as long as every line
 that lost something opens and closes what it did before, every code range of the body is a code
 range of what is left, slid along. Then the tags after a removal can be told from the body alone.
 */
module SlidCode {
  import opened Text
  import opened Fences
  import opened Tags
  import opened RemoveTag
  import opened UncoveredTags
  import opened Frontmatter

  // ---- positions ----

  /** Where position `p` of the body lies in what is left. */
  function Pos(b: string, rs: seq<Range>, p: nat): nat {
    |KeptTo(b, rs, if p <= |b| then p else |b|)|
  }

  lemma PosStep(b: string, rs: seq<Range>, p: nat)
    requires p < |b|
    ensures Pos(b, rs, p + 1) == Pos(b, rs, p) + if In(p, rs) then 0 else 1
  {
    hide In;
  }

  lemma PosStart(b: string, rs: seq<Range>)
    ensures Pos(b, rs, 0) == 0 && Pos(b, rs, |b|) == |Keep(b, 0, rs)|
  {
    KeepSplits(b, rs, |b|);
    hide In;
    assert Keep(b, |b|, rs) == "";
  }

  lemma {:induction false} PosMonotone(b: string, rs: seq<Range>, p: nat, q: nat)
    requires p <= q <= |b|
    ensures Pos(b, rs, p) <= Pos(b, rs, q)
    ensures p < q && !In(p, rs) ==> Pos(b, rs, p) < Pos(b, rs, q)
    ensures (forall x: nat | p <= x < q :: !In(x, rs)) ==> Pos(b, rs, q) == Pos(b, rs, p) + (q - p)
    decreases q - p
  {
    hide In, Pos;
    if p < q {
      PosStep(b, rs, p);
      PosMonotone(b, rs, p + 1, q);
    }
  }

  /** A kept scalar is found where its position says. */
  lemma KeptAt(b: string, rs: seq<Range>, p: nat)
    requires p < |b| && !In(p, rs)
    ensures Pos(b, rs, p) < |Keep(b, 0, rs)| && Keep(b, 0, rs)[Pos(b, rs, p)] == b[p]
  {
    KeepSplits(b, rs, p);
    hide In;
    assert Keep(b, p, rs) == [b[p]] + Keep(b, p + 1, rs);
  }

  function Slid1(b: string, rs: seq<Range>, r: Range): Range {
    Range(Pos(b, rs, r.start), Pos(b, rs, r.end))
  }

  function SlidAll(b: string, rs: seq<Range>, ranges: seq<Range>): (r: seq<Range>)
    ensures |r| == |ranges|
  {
    if ranges == [] then [] else [Slid1(b, rs, ranges[0])] + SlidAll(b, rs, ranges[1..])
  }

  lemma {:induction false} SlidAllAt(b: string, rs: seq<Range>, ranges: seq<Range>, k: nat)
    requires k < |ranges|
    ensures SlidAll(b, rs, ranges)[k] == Slid1(b, rs, ranges[k])
  {
    hide Slid1;
    if k > 0 { SlidAllAt(b, rs, ranges[1..], k - 1); }
  }

  lemma {:induction false} SlidAllConcat(b: string, rs: seq<Range>, x: seq<Range>, y: seq<Range>)
    ensures SlidAll(b, rs, x + y) == SlidAll(b, rs, x) + SlidAll(b, rs, y)
  {
    hide Slid1;
    if x == [] {
      assert x + y == y;
    } else {
      assert (x + y)[1..] == x[1..] + y;
      SlidAllConcat(b, rs, x[1..], y);
    }
  }

  // ---- inline code ----

  /** Between its two marks the span keeps something. */
  ghost predicate KeepsInside(rs: seq<Range>, r: Range) {
    exists p: nat :: r.start < p < r.end - 1 && !In(p, rs)
  }

  ghost predicate AllKeepInside(rs: seq<Range>, spans: seq<Range>) {
    forall k | 0 <= k < |spans| :: KeepsInside(rs, spans[k])
  }

  /** Nothing of the range is cut. */
  ghost predicate Uncut(rs: seq<Range>, r: Range) {
    forall p: nat | r.start <= p < r.end :: !In(p, rs)
  }

  ghost predicate SparesTicks(b: string, rs: seq<Range>) {
    forall p: nat | p < |b| && In(p, rs) :: b[p] != '`'
  }

  lemma {:induction false} TickSlides(b: string, rs: seq<Range>, i: nat)
    requires i <= |b| && SparesTicks(b, rs)
    ensures Pos(b, rs, i) <= |Keep(b, 0, rs)|
    ensures NextTick(Keep(b, 0, rs), Pos(b, rs, i)) == Pos(b, rs, NextTick(b, i))
    decreases |b| - i
  {
    hide In, Keep, Pos;
    PosStart(b, rs);
    PosMonotone(b, rs, i, |b|);
    if i < |b| {
      PosStep(b, rs, i);
      TickSlides(b, rs, i + 1);
      if !In(i, rs) { KeptAt(b, rs, i); }
    }
  }

  lemma SpanSlides(b: string, rs: seq<Range>, i: nat)
    requires i < |b| && !In(i, rs) && SparesTicks(b, rs)
    requires OpensSpan(b, i) ==> KeepsInside(rs, Range(i, AfterSpan(b, i)))
    ensures var out, at := Keep(b, 0, rs), Pos(b, rs, i);
      at < |out| && OpensSpan(out, at) == OpensSpan(b, i) && AfterSpan(out, at) == Pos(b, rs, AfterSpan(b, i))
  {
    hide In, Keep, Pos, NextTick, KeepsInside;
    KeptAt(b, rs, i);
    PosStep(b, rs, i);
    PosStart(b, rs);
    TickSlides(b, rs, i + 1);
    NextTickIsTick(b, i + 1);
    var tick := NextTick(b, i + 1);
    if tick < |b| {
      KeptAt(b, rs, tick);
      PosStep(b, rs, tick);
      if OpensSpan(b, i) { InsideStays(b, rs, i, tick); }
    }
  }

  lemma InsideStays(b: string, rs: seq<Range>, i: nat, tick: nat)
    requires i < tick < |b| && KeepsInside(rs, Range(i, tick + 1))
    ensures Pos(b, rs, i + 1) < Pos(b, rs, tick)
  {
    hide In, Pos;
    var p: nat :| i < p < tick && !In(p, rs);
    PosMonotone(b, rs, i + 1, p);
    PosMonotone(b, rs, p, tick);
  }

  lemma UncutAt(rs: seq<Range>, r: Range, p: nat)
    requires Uncut(rs, r) && r.start <= p < r.end
    ensures !In(p, rs)
  {
    hide In;
  }

  lemma AllKeepTail(rs: seq<Range>, r: Range, rest: seq<Range>)
    requires AllKeepInside(rs, [r] + rest)
    ensures KeepsInside(rs, r) && AllKeepInside(rs, rest)
  {
    var all := [r] + rest;
    hide KeepsInside;
    assert all[0] == r && forall k | 0 <= k < |rest| :: rest[k] == all[k + 1];
  }

  lemma {:induction false} SpansSlide(b: string, rs: seq<Range>, i: nat)
    requires i <= |b| && SparesTicks(b, rs) && AllKeepInside(rs, InlineSpans(b, i))
    ensures Pos(b, rs, i) <= |Keep(b, 0, rs)|
    ensures InlineSpans(Keep(b, 0, rs), Pos(b, rs, i)) == SlidAll(b, rs, InlineSpans(b, i))
    decreases |b| - i
  {
    PosStart(b, rs);
    PosMonotone(b, rs, i, |b|);
    if i < |b| {
      SpansStep(b, i);
      PosStep(b, rs, i);
      if In(i, rs) {
        assert b[i] != '`';
        assert !OpensSpan(b, i) && AfterSpan(b, i) == i + 1;
        hide *;
        SpansSlide(b, rs, i + 1);
      } else {
        SpansStart(b, rs, i);
      }
    }
  }

  lemma {:induction false} SpansStart(b: string, rs: seq<Range>, i: nat)
    requires i < |b| && SparesTicks(b, rs) && AllKeepInside(rs, InlineSpans(b, i)) && !In(i, rs)
    ensures Pos(b, rs, i) <= |Keep(b, 0, rs)|
    ensures InlineSpans(Keep(b, 0, rs), Pos(b, rs, i)) == SlidAll(b, rs, InlineSpans(b, i))
    decreases |b| - i, 0
  {
    SpansStep(b, i);
    var next := AfterSpan(b, i);
    hide InlineSpans, Keep, Pos, In, OpensSpan, AfterSpan, SlidAll, AllKeepInside, KeepsInside;
    if OpensSpan(b, i) { AllKeepTail(rs, Range(i, next), InlineSpans(b, next)); }
    SpanSlides(b, rs, i);
    SpansStep(Keep(b, 0, rs), Pos(b, rs, i));
    SpansSlide(b, rs, next);
    SlidCons(b, rs, Range(i, next), InlineSpans(b, next));
  }

  lemma SlidCons(b: string, rs: seq<Range>, r: Range, rest: seq<Range>)
    ensures SlidAll(b, rs, [r] + rest) == [Slid1(b, rs, r)] + SlidAll(b, rs, rest)
  {
    assert ([r] + rest)[1..] == rest;
    hide Slid1;
  }

  // ---- lines ----

  /** The scalars kept of positions `i..j`. */
  function KeptOf(b: string, rs: seq<Range>, i: nat, j: nat): string
    requires i <= j <= |b|
    decreases j - i
  {
    if i == j then "" else (if In(i, rs) then "" else [b[i]]) + KeptOf(b, rs, i + 1, j)
  }

  lemma {:induction false} KeepParts(b: string, rs: seq<Range>, i: nat, j: nat)
    requires i <= j <= |b|
    ensures Keep(b, i, rs) == KeptOf(b, rs, i, j) + Keep(b, j, rs)
    ensures |KeptOf(b, rs, i, j)| == Pos(b, rs, j) - Pos(b, rs, i)
    decreases j - i
  {
    hide In, Pos, Keep;
    if i == j {
      assert "" + Keep(b, j, rs) == Keep(b, j, rs);
    } else {
      KeepParts(b, rs, i + 1, j);
      PosStep(b, rs, i);
      KeepStep(b, rs, i);
      var one := if In(i, rs) then "" else [b[i]];
      Tags.Associative(one, KeptOf(b, rs, i + 1, j), Keep(b, j, rs));
    }
  }

  lemma KeepStep(b: string, rs: seq<Range>, i: nat)
    requires i < |b|
    ensures Keep(b, i, rs) == (if In(i, rs) then "" else [b[i]]) + Keep(b, i + 1, rs)
  {
    hide In;
  }

  lemma {:induction false} KeptScalarsOf(b: string, rs: seq<Range>, i: nat, j: nat)
    requires i <= j <= |b|
    ensures forall c | c in KeptOf(b, rs, i, j) :: exists p :: i <= p < j && b[p] == c
    ensures (forall p: nat | i <= p < j :: !In(p, rs)) ==> KeptOf(b, rs, i, j) == b[i..j]
    ensures (forall p: nat | i <= p < j :: In(p, rs)) ==> KeptOf(b, rs, i, j) == ""
    decreases j - i
  {
    hide In;
    if i < j {
      KeptScalarsOf(b, rs, i + 1, j);
      assert b[i..j] == [b[i]] + b[i + 1..j];
    }
  }

  function LineFrom(b: string, k: nat): (at: nat)
    requires k < |Lines(b)|
    ensures at <= |b|
  {
    LinesAreAt(b, k);
    Offset(Lines(b), k)
  }

  function LineTo(b: string, k: nat): (at: nat)
    requires k < |Lines(b)|
    ensures LineFrom(b, k) <= at <= |b|
  {
    LinesAreAt(b, k);
    Offset(Lines(b), k) + |Lines(b)[k]|
  }

  /** What is kept of line `k`. */
  function KeptLine(b: string, rs: seq<Range>, k: nat): string
    requires k < |Lines(b)|
  {
    KeptOf(b, rs, LineFrom(b, k), LineTo(b, k))
  }

  /** The line goes with its terminator. */
  predicate Gone(b: string, rs: seq<Range>, k: nat)
    requires k < |Lines(b)|
  {
    k < |Lines(b)| - 1 && In(LineTo(b, k), rs)
  }

  /** A terminator goes with its whole line only. */
  ghost predicate WholeLines(b: string, rs: seq<Range>) {
    forall k | 0 <= k < |Lines(b)| && Gone(b, rs, k) :: KeptLine(b, rs, k) == ""
  }

  /** The lines left from line `k` on. */
  function LinesLeft(b: string, rs: seq<Range>, k: nat): seq<string>
    requires k <= |Lines(b)|
    decreases |Lines(b)| - k
  {
    if k == |Lines(b)| then []
    else (if Gone(b, rs, k) then [] else [KeptLine(b, rs, k)]) + LinesLeft(b, rs, k + 1)
  }

  lemma LineFacts(b: string, k: nat)
    requires k < |Lines(b)|
    ensures b[LineFrom(b, k)..LineTo(b, k)] == Lines(b)[k]
    ensures k < |Lines(b)| - 1 ==>
      LineTo(b, k) < |b| && b[LineTo(b, k)] == '\n' && LineFrom(b, k + 1) == LineTo(b, k) + 1
    ensures k == |Lines(b)| - 1 ==> LineTo(b, k) == |b|
  {
    LinesAreAt(b, k);
    LinesSpan(b);
    if k < |Lines(b)| - 1 { OffsetMonotone(Lines(b), k + 1, |Lines(b)| - 1); }
    hide Lines;
  }

  lemma KeptLineIsOne(b: string, rs: seq<Range>, k: nat)
    requires k < |Lines(b)|
    ensures OneLine(KeptLine(b, rs, k))
  {
    LineFacts(b, k);
    KeptScalarsOf(b, rs, LineFrom(b, k), LineTo(b, k));
    hide Lines, KeptOf, LineFrom, LineTo;
    var line := b[LineFrom(b, k)..LineTo(b, k)];
    assert forall p | LineFrom(b, k) <= p < LineTo(b, k) :: b[p] == line[p - LineFrom(b, k)];
  }

  lemma LineThen(x: string, y: string)
    requires OneLine(x)
    ensures Lines(x + "\n" + y) == [x] + Lines(y)
  {
    LinesOfOneLine(x);
    LinesConcat(x, "\n" + y);
    assert ("\n" + y)[1..] == y;
    assert x + ("\n" + y) == x + "\n" + y;
    hide Lines;
    assert Glue([x], [""] + Lines(y)) == [] + [x + ""] + Lines(y);
    assert x + "" == x;
  }

  lemma KeptThen(b: string, rs: seq<Range>, k: nat)
    requires k < |Lines(b)| && WholeLines(b, rs)
    ensures k == |Lines(b)| - 1 ==> Keep(b, LineFrom(b, k), rs) == KeptLine(b, rs, k)
    ensures k < |Lines(b)| - 1 ==>
      var rest := Keep(b, LineFrom(b, k + 1), rs);
      Keep(b, LineFrom(b, k), rs) == if Gone(b, rs, k) then rest else KeptLine(b, rs, k) + "\n" + rest
  {
    LineFacts(b, k);
    var from, to, line := LineFrom(b, k), LineTo(b, k), KeptLine(b, rs, k);
    KeepParts(b, rs, from, to);
    assert line == KeptOf(b, rs, from, to);
    if k == |Lines(b)| - 1 {
      assert Keep(b, |b|, rs) == "" && line + "" == line;
    } else {
      var rest := Keep(b, to + 1, rs);
      assert Keep(b, to, rs) == (if In(to, rs) then "" else [b[to]]) + rest;
      hide Lines, KeptLine, LineFrom, LineTo, In, Keep, KeptOf;
      if Gone(b, rs, k) {
        assert "" + ("" + rest) == rest;
      } else {
        assert line + ("\n" + rest) == line + "\n" + rest;
      }
    }
  }

  lemma LinesLeftStep(b: string, rs: seq<Range>, k: nat)
    requires k < |Lines(b)|
    ensures LinesLeft(b, rs, k) == (if Gone(b, rs, k) then [] else [KeptLine(b, rs, k)]) + LinesLeft(b, rs, k + 1)
    ensures k == |Lines(b)| - 1 ==> LinesLeft(b, rs, k) == [KeptLine(b, rs, k)]
  {
    hide Lines, KeptLine;
    if k == |Lines(b)| - 1 { assert LinesLeft(b, rs, k + 1) == []; }
  }

  /** The lines of what is left are the lines left. */
  lemma {:induction false} LinesOfLeft(b: string, rs: seq<Range>, k: nat)
    requires k < |Lines(b)| && WholeLines(b, rs)
    ensures Lines(Keep(b, LineFrom(b, k), rs)) == LinesLeft(b, rs, k)
    decreases |Lines(b)| - k
  {
    hide *;
    KeptThen(b, rs, k);
    KeptLineIsOne(b, rs, k);
    LinesLeftStep(b, rs, k);
    if k == |Lines(b)| - 1 {
      LinesOfOneLine(KeptLine(b, rs, k));
    } else {
      LinesOfLeft(b, rs, k + 1);
      LineThen(KeptLine(b, rs, k), Keep(b, LineFrom(b, k + 1), rs));
    }
  }

  /** How many of the first `k` lines are left. */
  function LeftBefore(b: string, rs: seq<Range>, k: nat): nat
    requires k <= |Lines(b)|
  {
    if k == 0 then 0 else LeftBefore(b, rs, k - 1) + if Gone(b, rs, k - 1) then 0 else 1
  }

  lemma {:induction false} LeftAt(b: string, rs: seq<Range>, k: nat)
    requires k <= |Lines(b)|
    ensures var lt := LinesLeft(b, rs, 0);
      LeftBefore(b, rs, k) <= |lt| && lt[LeftBefore(b, rs, k)..] == LinesLeft(b, rs, k)
  {
    hide Lines, Gone, KeptLine;
    if k > 0 {
      LeftAt(b, rs, k - 1);
      var lt, n := LinesLeft(b, rs, 0), LeftBefore(b, rs, k - 1);
      assert lt[n..] == (if Gone(b, rs, k - 1) then [] else [KeptLine(b, rs, k - 1)]) + LinesLeft(b, rs, k);
      if !Gone(b, rs, k - 1) { assert lt[n + 1..] == lt[n..][1..]; }
    }
  }

  lemma LeftIs(b: string, rs: seq<Range>, k: nat)
    requires k < |Lines(b)|
    ensures var lt := LinesLeft(b, rs, 0);
      && LeftBefore(b, rs, k) <= |lt|
      && LeftBefore(b, rs, k + 1) == LeftBefore(b, rs, k) + (if Gone(b, rs, k) then 0 else 1)
      && (!Gone(b, rs, k) ==> LeftBefore(b, rs, k) < |lt| && lt[LeftBefore(b, rs, k)] == KeptLine(b, rs, k))
  {
    LeftAt(b, rs, k);
    var lt, n := LinesLeft(b, rs, 0), LeftBefore(b, rs, k);
    hide Lines, Gone, KeptLine;
    assert lt[n..] == (if Gone(b, rs, k) then [] else [KeptLine(b, rs, k)]) + LinesLeft(b, rs, k + 1);
    if !Gone(b, rs, k) { assert lt[n..][0] == KeptLine(b, rs, k); }
  }

  // ---- fences ----

  /** A line that is nothing but a fence: the only kind that closes one. */
  predicate JustFence(line: string) {
    OpenFence(line).Some? && AllBlank(line[OpenFence(line).value.run..])
  }

  /** Both lines open the same fence and close the same fences. */
  predicate SameFence(x: string, y: string) {
    OpenFence(x) == OpenFence(y) && (JustFence(x) <==> JustFence(y))
  }

  lemma ClosesIff(line: string, fence: Fence)
    requires IsMark(fence.mark) && fence.run >= 3
    ensures IsClosingFence(line, fence) <==> OpenFence(line) == Some(fence) && JustFence(line)
  {
    hide AllBlank;
  }

  predicate Touched(b: string, rs: seq<Range>, k: nat)
    requires k < |Lines(b)|
  {
    exists p :: LineFrom(b, k) <= p < LineTo(b, k) && In(p, rs)
  }

  /** Every line that lost something opens what it opened and closes what it closed. */
  ghost predicate FencesStay(b: string, rs: seq<Range>) {
    forall k | 0 <= k < |Lines(b)| && Touched(b, rs, k) :: SameFence(Lines(b)[k], KeptLine(b, rs, k))
  }

  ghost predicate SparesMarks(b: string, rs: seq<Range>) {
    forall p: nat | p < |b| && In(p, rs) :: !IsMark(b[p])
  }

  lemma LineStays(b: string, rs: seq<Range>, k: nat)
    requires k < |Lines(b)| && WholeLines(b, rs) && FencesStay(b, rs)
    ensures SameFence(Lines(b)[k], KeptLine(b, rs, k))
    ensures Gone(b, rs, k) ==> OpenFence(Lines(b)[k]) == None
  {
    LineFacts(b, k);
    var from, to := LineFrom(b, k), LineTo(b, k);
    KeptScalarsOf(b, rs, from, to);
    hide Lines, LineFrom, LineTo, In, RunLength, KeptOf, JustFence;
    if !Touched(b, rs, k) { assert KeptLine(b, rs, k) == Lines(b)[k]; }
  }

  lemma FindCloseStep(ls: seq<string>, k: nat, fence: Fence)
    requires k < |ls|
    ensures FindClose(ls, k, fence) == if IsClosingFence(ls[k], fence) then Some(k) else FindClose(ls, k + 1, fence)
  {
    hide IsClosingFence;
  }

  lemma NoneLeftEnds(b: string, rs: seq<Range>, fence: Fence)
    ensures LeftBefore(b, rs, |Lines(b)|) == |LinesLeft(b, rs, 0)|
    ensures FindClose(LinesLeft(b, rs, 0), LeftBefore(b, rs, |Lines(b)|), fence) == None
  {
    hide Lines, Gone, LeftBefore, KeptLine;
    LeftAt(b, rs, |Lines(b)|);
    assert LinesLeft(b, rs, |Lines(b)|) == [];
  }

  lemma {:induction false} CloseSlides(b: string, rs: seq<Range>, k: nat, fence: Fence)
    requires k <= |Lines(b)| && WholeLines(b, rs) && FencesStay(b, rs)
    requires IsMark(fence.mark) && fence.run >= 3
    ensures LeftBefore(b, rs, k) <= |LinesLeft(b, rs, 0)|
    ensures FindClose(LinesLeft(b, rs, 0), LeftBefore(b, rs, k), fence)
         == match FindClose(Lines(b), k, fence) case Some(j) => Some(LeftBefore(b, rs, j)) case None => None
    decreases |Lines(b)| - k
  {
    hide *;
    if k < |Lines(b)| {
      LeftIs(b, rs, k);
      LineStays(b, rs, k);
      CloseSlides(b, rs, k + 1, fence);
      FindCloseStep(Lines(b), k, fence);
      ClosesIff(Lines(b)[k], fence);
      ClosesIff(KeptLine(b, rs, k), fence);
      SameFenceIs(Lines(b)[k], KeptLine(b, rs, k));
      if !Gone(b, rs, k) { FindCloseStep(LinesLeft(b, rs, 0), LeftBefore(b, rs, k), fence); }
    } else {
      NoneLeftEnds(b, rs, fence);
      FindCloseEnds(Lines(b), fence);
    }
  }

  lemma SameFenceIs(x: string, y: string)
    requires SameFence(x, y)
    ensures OpenFence(x) == OpenFence(y) && JustFence(x) == JustFence(y)
  {
  }

  lemma FindCloseEnds(ls: seq<string>, fence: Fence)
    ensures FindClose(ls, |ls|, fence) == None
  {
  }

  function SlidBlock(b: string, rs: seq<Range>, block: Block): Block
    requires block.open <= |Lines(b)| && block.close <= |Lines(b)|
  {
    Block(LeftBefore(b, rs, block.open), LeftBefore(b, rs, block.close))
  }

  /** `lt` are the blocks `ls`, found among the lines left. */
  ghost predicate BlocksFollow(b: string, rs: seq<Range>, ls: seq<Block>, lt: seq<Block>) {
    |ls| == |lt| && forall k | 0 <= k < |ls| ::
      ls[k].open < |Lines(b)| && ls[k].close < |Lines(b)| && lt[k] == SlidBlock(b, rs, ls[k])
  }

  lemma FollowCons(b: string, rs: seq<Range>, block: Block, ls: seq<Block>, lt: seq<Block>)
    requires BlocksFollow(b, rs, ls, lt) && block.open < |Lines(b)| && block.close < |Lines(b)|
    ensures BlocksFollow(b, rs, [block] + ls, [SlidBlock(b, rs, block)] + lt)
  {
    hide SlidBlock, Lines;
  }

  /** A line that starts with a fence is left, with that fence. */
  lemma FenceStays(b: string, rs: seq<Range>, k: nat)
    requires k < |Lines(b)| && WholeLines(b, rs) && FencesStay(b, rs)
    requires OpenFence(Lines(b)[k]).Some?
    ensures var lt, n := LinesLeft(b, rs, 0), LeftBefore(b, rs, k);
      && n < |lt| && lt[n] == KeptLine(b, rs, k) && OpenFence(lt[n]) == OpenFence(Lines(b)[k])
      && LeftBefore(b, rs, k + 1) == n + 1
  {
    hide Lines, KeptLine, Gone, OpenFence, LinesLeft, LeftBefore;
    LineStays(b, rs, k);
    LeftIs(b, rs, k);
  }

  /** What a line opens, it opens among the lines left. */
  lemma OpenSlides(b: string, rs: seq<Range>, k: nat)
    requires k < |Lines(b)| && WholeLines(b, rs) && FencesStay(b, rs)
    requires OpensBlock(Lines(b), k)
    ensures var lt, n := LinesLeft(b, rs, 0), LeftBefore(b, rs, k);
      && n < |lt| && OpensBlock(lt, n)
      && AfterLine(lt, n) == LeftBefore(b, rs, AfterLine(Lines(b), k))
      && AfterLine(lt, n) == LeftBefore(b, rs, AfterLine(Lines(b), k) - 1) + 1
  {
    hide Lines, LinesLeft, LeftBefore, KeptLine, JustFence, FindClose, OpenFence, IsClosingFence;
    hide WholeLines, FencesStay;
    var ls := Lines(b);
    OpenedFence(ls[k]);
    var fence := OpenFence(ls[k]).value;
    FenceStays(b, rs, k);
    CloseSlides(b, rs, k + 1, fence);
    var j := FindClose(ls, k + 1, fence).value;
    Closed(ls, k + 1, fence);
    ClosesIff(ls[j], fence);
    FenceStays(b, rs, j);
  }

  lemma {:induction false} Closed(ls: seq<string>, k: nat, fence: Fence)
    requires k <= |ls| && FindClose(ls, k, fence).Some?
    ensures IsClosingFence(ls[FindClose(ls, k, fence).value], fence)
    decreases |ls| - k
  {
    hide IsClosingFence;
    if !IsClosingFence(ls[k], fence) { Closed(ls, k + 1, fence); }
  }

  lemma OpensNothing(ls: seq<string>, k: nat)
    requires k < |ls|
    ensures !OpensBlock(ls, k) ==> AfterLine(ls, k) == k + 1
    ensures OpenFence(ls[k]).Some? ==>
      var fence := OpenFence(ls[k]).value;
      IsMark(fence.mark) && fence.run >= 3 && (OpensBlock(ls, k) <==> FindClose(ls, k + 1, fence).Some?)
    ensures OpensBlock(ls, k) ==> OpenFence(ls[k]).Some?
  {
    hide OpenFence, FindClose;
    if OpenFence(ls[k]).Some? { OpenedFence(ls[k]); }
  }

  /** A line that opens nothing, if it is left, opens nothing among the lines left. */
  lemma NoOpenSlides(b: string, rs: seq<Range>, k: nat)
    requires k < |Lines(b)| && WholeLines(b, rs) && FencesStay(b, rs)
    requires !OpensBlock(Lines(b), k)
    ensures var lt, n := LinesLeft(b, rs, 0), LeftBefore(b, rs, k);
      && AfterLine(Lines(b), k) == k + 1 && n <= |lt|
      && (!Gone(b, rs, k) ==> n < |lt| && !OpensBlock(lt, n) && AfterLine(lt, n) == LeftBefore(b, rs, k + 1))
      && (Gone(b, rs, k) ==> LeftBefore(b, rs, k + 1) == n)
  {
    hide *;
    OpensNothing(Lines(b), k);
    LineStays(b, rs, k);
    SameFenceIs(Lines(b)[k], KeptLine(b, rs, k));
    LeftIs(b, rs, k);
    if !Gone(b, rs, k) {
      OpensNothing(LinesLeft(b, rs, 0), LeftBefore(b, rs, k));
      if OpenFence(Lines(b)[k]).Some? {
        CloseSlides(b, rs, k + 1, OpenFence(Lines(b)[k]).value);
      }
    }
  }

  ghost predicate Follows(b: string, rs: seq<Range>, k: nat)
    requires k <= |Lines(b)|
  {
    && LeftBefore(b, rs, k) <= |LinesLeft(b, rs, 0)|
    && BlocksFollow(b, rs, Blocks(Lines(b), k), Blocks(LinesLeft(b, rs, 0), LeftBefore(b, rs, k)))
  }

  lemma BlockSlides(b: string, rs: seq<Range>, k: nat)
    requires k < |Lines(b)| && WholeLines(b, rs) && FencesStay(b, rs)
    requires OpensBlock(Lines(b), k) && Follows(b, rs, AfterLine(Lines(b), k))
    ensures Follows(b, rs, k)
  {
    hide Lines, LinesLeft, LeftBefore, Blocks, BlocksFollow, WholeLines, FencesStay, OpensBlock, AfterLine;
    var ls, lt, n := Lines(b), LinesLeft(b, rs, 0), LeftBefore(b, rs, k);
    OpenSlides(b, rs, k);
    BlocksStep(ls, k);
    BlocksStep(lt, n);
    var block := Block(k, AfterLine(ls, k) - 1);
    FollowCons(b, rs, block, Blocks(ls, AfterLine(ls, k)), Blocks(lt, AfterLine(lt, n)));
  }

  lemma NoBlockSlides(b: string, rs: seq<Range>, k: nat)
    requires k < |Lines(b)| && WholeLines(b, rs) && FencesStay(b, rs)
    requires !OpensBlock(Lines(b), k) && Follows(b, rs, k + 1)
    ensures Follows(b, rs, k)
  {
    hide Lines, LinesLeft, LeftBefore, Blocks, BlocksFollow, WholeLines, FencesStay, OpensBlock, AfterLine;
    hide Gone;
    NoOpenSlides(b, rs, k);
    BlocksStep(Lines(b), k);
    if !Gone(b, rs, k) { BlocksStep(LinesLeft(b, rs, 0), LeftBefore(b, rs, k)); }
  }

  lemma BlocksEnd(b: string, rs: seq<Range>)
    ensures Follows(b, rs, |Lines(b)|)
  {
    hide Lines, Gone, LeftBefore, KeptLine;
    LeftAt(b, rs, |Lines(b)|);
    assert LinesLeft(b, rs, |Lines(b)|) == [];
  }

  lemma {:induction false} BlocksSlide(b: string, rs: seq<Range>, k: nat)
    requires k <= |Lines(b)| && WholeLines(b, rs) && FencesStay(b, rs)
    ensures Follows(b, rs, k)
    decreases |Lines(b)| - k
  {
    hide *;
    if k == |Lines(b)| {
      BlocksEnd(b, rs);
    } else {
      BlocksSlide(b, rs, AfterLine(Lines(b), k));
      if OpensBlock(Lines(b), k) {
        BlockSlides(b, rs, k);
      } else {
        OpensNothing(Lines(b), k);
        NoBlockSlides(b, rs, k);
      }
    }
  }

  // ---- fenced ranges ----

  lemma OffsetStep(ls: seq<string>, n: nat)
    requires n < |ls|
    ensures Offset(ls, n + 1) == Offset(ls, n) + |ls[n]| + 1
  {
  }

  /** How far the start of the next line moves. */
  lemma LineMoves(b: string, rs: seq<Range>, k: nat)
    requires k < |Lines(b)| - 1 && WholeLines(b, rs)
    ensures Pos(b, rs, LineFrom(b, k + 1))
         == Pos(b, rs, LineFrom(b, k)) + if Gone(b, rs, k) then 0 else |KeptLine(b, rs, k)| + 1
  {
    hide Lines, LineFrom, LineTo, Pos, KeptOf, In;
    LineFacts(b, k);
    KeepParts(b, rs, LineFrom(b, k), LineTo(b, k));
    PosStep(b, rs, LineTo(b, k));
  }

  lemma FirstOffset(b: string, rs: seq<Range>)
    ensures LeftBefore(b, rs, 0) == 0 && LineFrom(b, 0) == 0 && Pos(b, rs, 0) == 0
    ensures Offset(LinesLeft(b, rs, 0), 0) == 0
  {
    PosStart(b, rs);
  }

  lemma {:induction false} OffsetSlides(b: string, rs: seq<Range>, k: nat)
    requires k < |Lines(b)| && WholeLines(b, rs)
    ensures LeftBefore(b, rs, k) <= |LinesLeft(b, rs, 0)|
    ensures Offset(LinesLeft(b, rs, 0), LeftBefore(b, rs, k)) == Pos(b, rs, LineFrom(b, k))
  {
    hide *;
    if k == 0 {
      FirstOffset(b, rs);
    } else {
      OffsetSlides(b, rs, k - 1);
      LeftIs(b, rs, k - 1);
      LeftAt(b, rs, k);
      LineMoves(b, rs, k - 1);
      if !Gone(b, rs, k - 1) { OffsetStep(LinesLeft(b, rs, 0), LeftBefore(b, rs, k - 1)); }
    }
  }

  lemma LineEndMoves(b: string, rs: seq<Range>, k: nat)
    requires k < |Lines(b)|
    ensures Pos(b, rs, LineTo(b, k)) == Pos(b, rs, LineFrom(b, k)) + |KeptLine(b, rs, k)|
  {
    hide Lines, LineFrom, LineTo, Pos, KeptOf;
    KeepParts(b, rs, LineFrom(b, k), LineTo(b, k));
  }

  lemma BlockSpans(b: string, block: Block)
    requires block.open < |Lines(b)| && block.close < |Lines(b)|
    ensures BlockRange(Lines(b), block) == Range(LineFrom(b, block.open), LineTo(b, block.close))
  {
    hide Lines, Offset;
  }

  lemma BlockRangeSlides(b: string, rs: seq<Range>, block: Block)
    requires WholeLines(b, rs) && FencesStay(b, rs)
    requires block.open <= block.close < |Lines(b)|
    requires OpenFence(Lines(b)[block.open]).Some? && OpenFence(Lines(b)[block.close]).Some?
    ensures var lt, to := LinesLeft(b, rs, 0), SlidBlock(b, rs, block);
      && to.open < |lt| && to.close < |lt|
      && BlockRange(lt, to) == Slid1(b, rs, BlockRange(Lines(b), block))
  {
    hide Lines, LinesLeft, LeftBefore, Pos, KeptLine, In, Offset, OpenFence, Gone, LineFrom, LineTo;
    hide WholeLines, FencesStay;
    BlockSpans(b, block);
    OffsetSlides(b, rs, block.open);
    OffsetSlides(b, rs, block.close);
    FenceStays(b, rs, block.open);
    FenceStays(b, rs, block.close);
    LineEndMoves(b, rs, block.close);
  }

  lemma BlocksAreFences(ls: seq<string>)
    ensures forall k | 0 <= k < |Blocks(ls, 0)| :: var block := Blocks(ls, 0)[k];
      block.open < block.close < |ls| && OpenFence(ls[block.open]).Some? && OpenFence(ls[block.close]).Some?
  {
    BlocksInBounds(ls, 0);
    BlocksMatch(ls, 0);
    hide Blocks, OpenFence, JustFence, IsClosingFence;
    forall k | 0 <= k < |Blocks(ls, 0)|
      ensures OpenFence(ls[Blocks(ls, 0)[k].open]).Some? && OpenFence(ls[Blocks(ls, 0)[k].close]).Some?
    {
      var block := Blocks(ls, 0)[k];
      assert Closes(ls, block.open, block.close);
      OpenedFence(ls[block.open]);
      ClosesIff(ls[block.close], OpenFence(ls[block.open]).value);
    }
  }

  lemma FencesSlide(b: string, rs: seq<Range>)
    requires WholeLines(b, rs) && FencesStay(b, rs)
    ensures FencedRanges(Keep(b, 0, rs)) == SlidAll(b, rs, FencedRanges(b))
  {
    var out, ls, lt := Keep(b, 0, rs), Lines(b), LinesLeft(b, rs, 0);
    assert LineFrom(b, 0) == 0 && LeftBefore(b, rs, 0) == 0;
    LinesOfLeft(b, rs, 0);
    BlocksSlide(b, rs, 0);
    BlocksAreFences(ls);
    hide Lines, LinesLeft, LeftBefore, Blocks, Slid1, SlidAll, SlidBlock, BlockRange, Keep, OpenFence;
    hide WholeLines, FencesStay;
    assert |FencedRanges(out)| == |SlidAll(b, rs, FencedRanges(b))|;
    forall k | 0 <= k < |FencedRanges(b)| ensures FencedRanges(out)[k] == SlidAll(b, rs, FencedRanges(b))[k] {
      SlidAllAt(b, rs, FencedRanges(b), k);
      BlockRangeSlides(b, rs, Blocks(ls, 0)[k]);
    }
  }

  lemma CodeSlides(b: string, rs: seq<Range>)
    requires WholeLines(b, rs) && FencesStay(b, rs) && SparesMarks(b, rs) && AllKeepInside(rs, InlineSpans(b, 0))
    ensures CodeRanges(Keep(b, 0, rs)) == SlidAll(b, rs, CodeRanges(b))
  {
    assert SparesTicks(b, rs);
    PosStart(b, rs);
    hide *;
    FencesSlide(b, rs);
    SpansSlide(b, rs, 0);
    SlidAllConcat(b, rs, FencedRanges(b), InlineSpans(b, 0));
    CodeIs(b);
    CodeIs(Keep(b, 0, rs));
  }

  lemma CodeIs(s: string)
    ensures CodeRanges(s) == FencedRanges(s) + InlineSpans(s, 0)
  {
  }

  // ---- what a removal cuts ----

  lemma CutIsNoMark(b: string, m: Range, p: nat)
    requires IsOccurrence(b, m) && Within(p, Removal(b, m))
    ensures p < |b| && !IsMark(b[p])
  {
    hide Removal, IsWhitespace;
    RemovalShape(b, m);
    MarkIsNotBlank(b[p]);
  }

  lemma RemovedSparesMarks(b: string, tag: string)
    ensures SparesMarks(b, Removed(b, tag))
  {
    hide Removed, In, Removal, Goes, IsOccurrence, PrecededOk;
    forall p: nat | p < |b| && In(p, Removed(b, tag)) ensures !IsMark(b[p]) {
      InRemoved(b, tag, p);
      var m :| Goes(b, tag, m) && m.start < m.end <= |b| && Within(p, Removal(b, m));
      GoesShape(b, tag, m);
      CutIsNoMark(b, m, p);
    }
  }

  lemma RemovedSparesSpans(b: string, tag: string)
    ensures AllKeepInside(Removed(b, tag), InlineSpans(b, 0))
  {
    hide Removed, In, InlineSpans, KeepsInside;
    forall k | 0 <= k < |InlineSpans(b, 0)| ensures KeepsInside(Removed(b, tag), InlineSpans(b, 0)[k]) {
      RemovedSparesSpan(b, tag, k);
    }
  }

  lemma RemovedSparesSpan(b: string, tag: string, k: nat)
    requires k < |InlineSpans(b, 0)|
    ensures KeepsInside(Removed(b, tag), InlineSpans(b, 0)[k])
  {
    InlineIsCode(b, 0);
    SpansHaveInside(b, 0);
    hide Removed, In, InlineSpans;
    var p := InlineSpans(b, 0)[k].start + 1;
    InRemoved(b, tag, p);
    if m :| Goes(b, tag, m) && m.start < m.end <= |b| && Within(p, Removal(b, m)) {
      GoesShape(b, tag, m);
      SpanIsClear(b, tag, m, k);
    }
    assert !In(p, Removed(b, tag));
  }

  lemma {:induction false} SpansHaveInside(s: string, i: nat)
    requires i <= |s|
    ensures forall k | 0 <= k < |InlineSpans(s, i)| :: var r := InlineSpans(s, i)[k];
      r.start + 2 < r.end <= |s| && s[r.end - 1] == '`'
    decreases |s| - i
  {
    if i < |s| {
      SpansStep(s, i);
      NextTickIsTick(s, i + 1);
      SpansHaveInside(s, AfterSpan(s, i));
      hide InlineSpans, NextTick;
    }
  }

  lemma SpanIsClear(b: string, tag: string, m: Range, k: nat)
    requires Goes(b, tag, m) && IsOccurrence(b, m) && k < |InlineSpans(b, 0)| && IsCode(b, InlineSpans(b, 0)[k])
    ensures var r := InlineSpans(b, 0)[k]; Removal(b, m).end <= r.start || r.end <= Removal(b, m).start
  {
    var code := CodeRanges(b);
    assert code[|FencedRanges(b)| + k] == InlineSpans(b, 0)[k];
    hide InlineSpans, FencedRanges, Removal, IsCode;
    RemovalSparesCode(b, m, InlineSpans(b, 0)[k]);
  }

  /** Only a tag alone on its line takes the line's end with it, and then nothing of the line is kept. */
  lemma RemovedTakesWholeLines(b: string, tag: string)
    ensures WholeLines(b, Removed(b, tag))
  {
    hide Removed, In, Lines, KeptOf;
    forall k | 0 <= k < |Lines(b)| && Gone(b, Removed(b, tag), k) ensures KeptLine(b, Removed(b, tag), k) == "" {
      LineFacts(b, k);
      var from, to := LineFrom(b, k), LineTo(b, k);
      InRemoved(b, tag, to);
      var m :| Goes(b, tag, m) && m.start < m.end <= |b| && Within(to, Removal(b, m));
      GoesShape(b, tag, m);
      LineIsOne(b, k);
      NewlineTaken(b, m, from, to);
      forall p: nat | from <= p < to ensures In(p, Removed(b, tag)) {
        InRemoved(b, tag, p);
        assert Within(p, Removal(b, m));
      }
      KeptScalarsOf(b, Removed(b, tag), from, to);
    }
  }

  lemma LineIsOne(b: string, k: nat)
    requires k < |Lines(b)|
    ensures forall p | LineFrom(b, k) <= p < LineTo(b, k) :: b[p] != '\n'
  {
    LineFacts(b, k);
    var line := b[LineFrom(b, k)..LineTo(b, k)];
    assert OneLine(line);
    hide Lines, LineFrom, LineTo;
    assert forall p | LineFrom(b, k) <= p < LineTo(b, k) :: b[p] == line[p - LineFrom(b, k)];
  }

  lemma NewlineTaken(b: string, m: Range, from: nat, to: nat)
    requires IsOccurrence(b, m) && from <= to < |b| && b[to] == '\n' && Within(to, Removal(b, m))
    requires forall p | from <= p < to :: b[p] != '\n'
    ensures Removal(b, m).start <= from
  {
    LineStartIsStart(b, m.start);
    LineEndIsEnd(b, m.end);
    hide StandsAlone, LineStart, LineEnd;
  }

  // ---- the lines a removal leaves ----

  /** Line `k` holds an occurrence of the tag, and nothing but blanks beside it. */
  ghost predicate TagAlone(b: string, tag: string, k: nat)
    requires k < |Lines(b)|
  {
    exists m :: TagAt(b, m, tag) && AloneOn(b, m, LineFrom(b, k), LineTo(b, k))
  }

  /** No occurrence of the tag is in line `k`. */
  ghost predicate TagFree(b: string, tag: string, k: nat)
    requires k < |Lines(b)|
  {
    forall m :: TagAt(b, m, tag) ==> m.end <= LineFrom(b, k) || LineTo(b, k) <= m.start
  }

  lemma LineIsLine(b: string, k: nat)
    requires k < |Lines(b)|
    ensures IsLine(b, LineFrom(b, k), LineTo(b, k))
  {
    LineFacts(b, k);
    LineIsOne(b, k);
    if k > 0 { LineFacts(b, k - 1); } else { FirstOffset(b, []); }
    hide Lines, LineFrom, LineTo;
  }

  /** A cut reaches over no other line than that of its occurrence, and takes a newline only with all of it. */
  lemma CutInLine(b: string, m: Range, r: Range, from: nat, to: nat, p: nat)
    requires IsOccurrence(b, m) && IsCut(b, m, r) && IsLine(b, from, to) && Within(p, r)
    ensures from <= p < to ==> from <= m.start && m.end <= to
    ensures p == to < |b| ==> AloneOn(b, m, from, to)
  {
    hide IsHorizontal, IsTagChar;
    NewlineIsNone();
    if l: nat, n: nat :| AloneOn(b, m, l, n) && r == Range(l, if n < |b| then n + 1 else n) {
      assert p <= n;
    } else {
      assert forall q | m.start <= q < m.end :: b[q] != '\n' by { MatchHasNoNewline(b, m); }
    }
  }

  lemma GoneIff(b: string, tag: string, k: nat)
    requires k < |Lines(b)| - 1
    ensures Gone(b, Removed(b, tag), k) <==> TagAlone(b, tag, k)
  {
    hide Lines, LineFrom, LineTo, Removed, In, Goes, TagAt, IsCut, IsLine, IsOccurrence, PrecededOk;
    var from, to := LineFrom(b, k), LineTo(b, k);
    LineFacts(b, k);
    LineIsLine(b, k);
    RemovedIs(b, tag, to);
    if m, r :| TagAt(b, m, tag) && IsCut(b, m, r) && Within(to, r) {
      GoesIs(b, tag, m);
      GoesShape(b, tag, m);
      CutInLine(b, m, r, from, to, to);
    }
    if m :| TagAt(b, m, tag) && AloneOn(b, m, from, to) {
      assert IsCut(b, m, Range(from, to + 1)) by { AloneIsCut(b, m, from, to); }
      assert Within(to, Range(from, to + 1));
    }
  }

  lemma AloneIsCut(b: string, m: Range, from: nat, to: nat)
    requires AloneOn(b, m, from, to)
    ensures IsCut(b, m, Range(from, if to < |b| then to + 1 else to))
  {
  }

  /** A line that only holds the tag is left empty, and one without it as it was. */
  lemma LineLeft(b: string, tag: string, k: nat)
    requires k < |Lines(b)|
    ensures TagAlone(b, tag, k) ==> KeptLine(b, Removed(b, tag), k) == ""
    ensures TagFree(b, tag, k) ==> KeptLine(b, Removed(b, tag), k) == Lines(b)[k]
  {
    hide Lines, LineFrom, LineTo, Removed, In, Goes, TagAt, IsCut, IsLine, IsOccurrence, PrecededOk, KeptOf;
    var from, to, rs := LineFrom(b, k), LineTo(b, k), Removed(b, tag);
    LineFacts(b, k);
    LineIsLine(b, k);
    KeptScalarsOf(b, rs, from, to);
    if m :| TagAt(b, m, tag) && AloneOn(b, m, from, to) {
      AloneIsCut(b, m, from, to);
      forall p: nat | from <= p < to ensures In(p, rs) {
        RemovedIs(b, tag, p);
        assert Within(p, Range(from, if to < |b| then to + 1 else to));
      }
    }
    if TagFree(b, tag, k) {
      forall p: nat | from <= p < to ensures !In(p, rs) {
        RemovedIs(b, tag, p);
        if m, r :| TagAt(b, m, tag) && IsCut(b, m, r) && Within(p, r) {
          GoesIs(b, tag, m);
          GoesShape(b, tag, m);
          CutInLine(b, m, r, from, to, p);
          OccurrenceInBounds(b, m);
          assert false;
        }
      }
    }
  }

  /**
   The lines of what is left: those holding nothing but the tag are gone with their terminators, and
   no empty line takes their place, except at the end of the body; lines without the tag are as they were.
   */
  lemma LinesAfterRemoval(b: string, tag: string)
    ensures Lines(Left(b, tag)) == LinesLeft(b, Removed(b, tag), 0)
    ensures forall k | 0 <= k < |Lines(b)| - 1 :: Gone(b, Removed(b, tag), k) <==> TagAlone(b, tag, k)
    ensures forall k | 0 <= k < |Lines(b)| && TagAlone(b, tag, k) :: KeptLine(b, Removed(b, tag), k) == ""
    ensures forall k | 0 <= k < |Lines(b)| && TagFree(b, tag, k) :: KeptLine(b, Removed(b, tag), k) == Lines(b)[k]
  {
    hide Lines, Gone, TagAlone, TagFree, Removed, KeptLine, LinesLeft, WholeLines, Keep;
    RemovedTakesWholeLines(b, tag);
    FirstOffset(b, Removed(b, tag));
    LinesOfLeft(b, Removed(b, tag), 0);
    forall k | 0 <= k < |Lines(b)| - 1 ensures Gone(b, Removed(b, tag), k) <==> TagAlone(b, tag, k) {
      GoneIff(b, tag, k);
    }
    forall k | 0 <= k < |Lines(b)|
      ensures TagAlone(b, tag, k) ==> KeptLine(b, Removed(b, tag), k) == ""
      ensures TagFree(b, tag, k) ==> KeptLine(b, Removed(b, tag), k) == Lines(b)[k]
    {
      LineLeft(b, tag, k);
    }
  }

  lemma NewlineIsNone()
    ensures !IsHorizontal('\n') && !IsTagChar('\n')
  {
  }

  lemma MatchHasNoNewline(b: string, m: Range)
    requires IsOccurrence(b, m)
    ensures forall q | m.start <= q < m.end :: b[q] != '\n'
  {
    hide IsTagChar;
    NewlineIsNone();
    forall q | m.start < q < m.end ensures b[q] != '\n' { assert IsTagChar(b[q]); }
  }

  // ---- line endings ----

  /** Line endings are those of one system or the other: no carriage return stands alone. */
  ghost predicate PlainEndings(s: string) {
    forall p | 0 <= p < |s| && s[p] == '\r' :: p + 1 < |s| && s[p + 1] == '\n'
  }

  /** The carriage returns from position `i` on. */
  function Crs(s: string, i: nat): seq<Range>
    requires i <= |s|
    decreases |s| - i
  {
    if i == |s| then [] else (if s[i] == '\r' then [Range(i, i + 1)] else []) + Crs(s, i + 1)
  }

  lemma {:induction false} InCrs(s: string, i: nat, p: nat)
    requires i <= |s|
    ensures In(p, Crs(s, i)) <==> i <= p < |s| && s[p] == '\r'
    decreases |s| - i
  {
    if i < |s| {
      InCrs(s, i + 1, p);
      var rest := Crs(s, i + 1);
      hide Crs;
      if s[i] == '\r' {
        InCons(p, Range(i, i + 1), rest);
      } else {
        assert [] + rest == rest;
      }
    }
  }

  lemma InCons(p: nat, r: Range, rest: seq<Range>)
    ensures In(p, [r] + rest) <==> Within(p, r) || In(p, rest)
  {
    var all := [r] + rest;
    hide Within;
    if In(p, all) {
      var k :| 0 <= k < |all| && Within(p, all[k]);
      if k > 0 { assert rest[k - 1] == all[k]; }
    }
    if Within(p, r) { assert all[0] == r; }
    if In(p, rest) {
      var k :| 0 <= k < |rest| && Within(p, rest[k]);
      assert all[k + 1] == rest[k];
    }
  }

  /** Normalizing such a text cuts its carriage returns. */
  lemma {:induction false} NormalizeCuts(s: string, i: nat)
    requires PlainEndings(s) && i <= |s|
    ensures ReplaceCrLf(s[i..]) == Keep(s, i, Crs(s, 0)) && '\r' !in Keep(s, i, Crs(s, 0))
    decreases |s| - i
  {
    if i < |s| {
      InCrs(s, 0, i);
      NormalizeCuts(s, i + 1);
      hide In, Crs;
      assert s[i..][1..] == s[i + 1..];
      if s[i] == '\r' { assert s[i..][2..] == s[i + 1..][1..]; }
    }
  }

  lemma {:induction false} NoCrLeft(s: string)
    requires '\r' !in s
    ensures ReplaceCr(s) == s
  {
    if s != "" { NoCrLeft(s[1..]); }
  }

  lemma NormalizeIs(s: string, i: nat)
    requires PlainEndings(s) && i <= |s|
    ensures Normalize(s[i..]) == Keep(s, i, Crs(s, 0))
  {
    hide ReplaceCrLf, ReplaceCr, Keep, Crs, PlainEndings;
    NormalizeCuts(s, i);
    NoCrLeft(Keep(s, i, Crs(s, 0)));
  }

  /** A position that is not behind a carriage return moves as the cut says. */
  lemma NormalizedPos(s: string, p: nat)
    requires PlainEndings(s) && p <= |s| && (p == 0 || s[p - 1] != '\r')
    ensures |Normalize(s[..p])| == Pos(s, Crs(s, 0), p)
  {
    var crs := Crs(s, 0);
    hide Normalize, Keep, Crs, PlainEndings, In;
    NormalizeIs(s, 0);
    NormalizeIs(s, p);
    NormalizeConcat(s[..p], s[p..]);
    assert s[0..] == s == s[..p] + s[p..];
    KeepSplits(s, crs, p);
  }

  lemma {:induction false} RunOfFront(front: string, mark: char)
    requires mark != '\r'
    ensures RunLength(front + "\r", mark) == RunLength(front, mark)
  {
    if front != "" && front[0] == mark {
      RunOfFront(front[1..], mark);
      assert (front + "\r")[1..] == front[1..] + "\r";
    }
  }

  lemma BlankFront(front: string, run: nat)
    requires run <= |front|
    ensures AllBlank((front + "\r")[run..]) <==> AllBlank(front[run..])
  {
    assert (front + "\r")[run..] == front[run..] + "\r";
    if AllBlank(front[run..] + "\r") {
      forall k | 0 <= k < |front[run..]| ensures IsWhitespace(front[run..][k]) {
        assert front[run..][k] == (front[run..] + "\r")[k];
      }
    }
  }

  lemma FrontSameFence(front: string)
    ensures SameFence(front + "\r", front)
  {
    hide RunLength, AllBlank;
    RunOfFront(front, '`');
    RunOfFront(front, '~');
    EmptyRun();
    if front != "" { assert (front + "\r")[0] == front[0]; }
    if OpenFence(front).Some? { BlankFront(front, OpenFence(front).value.run); }
  }

  lemma EmptyRun()
    ensures RunLength("", '`') == 0 == RunLength("", '~')
  {
  }

  lemma StripCrSameFence(line: string)
    ensures SameFence(line, StripCr(line))
  {
    hide SameFence, OpenFence, JustFence;
    if line != "" && line[|line| - 1] == '\r' {
      FrontSameFence(line[..|line| - 1]);
      assert line[..|line| - 1] + "\r" == line;
    } else {
      SameAsItself(line);
    }
  }

  lemma SameAsItself(line: string)
    ensures SameFence(line, line)
  {
  }

  lemma {:induction false} KeptOfEnd(b: string, rs: seq<Range>, i: nat, j: nat)
    requires i < j <= |b|
    ensures KeptOf(b, rs, i, j) == KeptOf(b, rs, i, j - 1) + if In(j - 1, rs) then "" else [b[j - 1]]
    decreases j - i
  {
    hide In;
    if i + 1 < j { KeptOfEnd(b, rs, i + 1, j); }
  }

  /** Only the last scalar of a line can be a carriage return. */
  lemma CrEndsLine(s: string, k: nat, p: nat)
    requires PlainEndings(s) && k < |Lines(s)| && LineFrom(s, k) <= p < LineTo(s, k) && s[p] == '\r'
    ensures p == LineTo(s, k) - 1
  {
    hide Lines, LineFrom, LineTo;
    LineIsOne(s, k);
    assert p < |s| && s[p + 1] == '\n';
  }

  lemma StripCrOf(front: string, c: char)
    ensures StripCr(front + [c]) == front + if c == '\r' then "" else [c]
  {
  }

  lemma CutLine(s: string, k: nat)
    requires PlainEndings(s) && k < |Lines(s)|
    ensures KeptLine(s, Crs(s, 0), k) == StripCr(Lines(s)[k])
  {
    hide Lines, LineFrom, LineTo, In, Crs, PlainEndings, KeptOf;
    var crs, from, to := Crs(s, 0), LineFrom(s, k), LineTo(s, k);
    LineFacts(s, k);
    if from == to {
      KeptScalarsOf(s, crs, from, to);
    } else {
      FrontIsKept(s, k);
      KeptOfEnd(s, crs, from, to);
      InCrs(s, 0, to - 1);
      StripCrOf(s[from..to - 1], s[to - 1]);
      assert s[from..to] == s[from..to - 1] + [s[to - 1]];
    }
  }

  lemma FrontIsKept(s: string, k: nat)
    requires PlainEndings(s) && k < |Lines(s)| && LineFrom(s, k) < LineTo(s, k)
    ensures KeptOf(s, Crs(s, 0), LineFrom(s, k), LineTo(s, k) - 1) == s[LineFrom(s, k)..LineTo(s, k) - 1]
  {
    hide Lines, LineFrom, LineTo, In, Crs, PlainEndings, KeptOf;
    var crs, from, to := Crs(s, 0), LineFrom(s, k), LineTo(s, k);
    forall p: nat | from <= p < to - 1 ensures !In(p, crs) {
      InCrs(s, 0, p);
      if s[p] == '\r' { CrEndsLine(s, k, p); }
    }
    KeptScalarsOf(s, crs, from, to - 1);
  }

  lemma CrsSpareLines(s: string)
    requires PlainEndings(s)
    ensures WholeLines(s, Crs(s, 0)) && FencesStay(s, Crs(s, 0)) && SparesMarks(s, Crs(s, 0))
  {
    hide Lines, In, Crs, KeptLine, SameFence, LineTo, LineFrom, PlainEndings, Touched;
    var crs := Crs(s, 0);
    forall k | 0 <= k < |Lines(s)|
      ensures !Gone(s, crs, k) && SameFence(Lines(s)[k], KeptLine(s, crs, k))
    {
      LineFacts(s, k);
      InCrs(s, 0, LineTo(s, k));
      CutLine(s, k);
      StripCrSameFence(Lines(s)[k]);
    }
    forall p: nat | p < |s| && In(p, crs) ensures !IsMark(s[p]) { InCrs(s, 0, p); }
  }

  lemma CrsKeepInside(s: string)
    requires PlainEndings(s)
    ensures AllKeepInside(Crs(s, 0), InlineSpans(s, 0))
  {
    hide In, Crs, InlineSpans;
    SpansHaveInside(s, 0);
    forall k | 0 <= k < |InlineSpans(s, 0)| ensures KeepsInside(Crs(s, 0), InlineSpans(s, 0)[k]) {
      var start := InlineSpans(s, 0)[k].start;
      var p := if s[start + 1] == '\r' then start + 2 else start + 1;
      InCrs(s, 0, p);
    }
  }

  lemma CodeOfNormalized(s: string)
    requires PlainEndings(s)
    ensures CodeRanges(Normalize(s)) == SlidAll(s, Crs(s, 0), CodeRanges(s))
  {
    hide *;
    CrsSpareLines(s);
    CrsKeepInside(s);
    CodeSlides(s, Crs(s, 0));
    NormalizeIs(s, 0);
    assert s[0..] == s;
  }

  /** What is code stays code when such a text is normalized. */
  lemma MovedIsCode(s: string, m: Range)
    requires PlainEndings(s) && IsMatch(s, m) && m.start <= m.end && m.start <= |s|
    ensures OverlapsAny(Moved(s, m), CodeRanges(Normalize(s))) == OverlapsAny(m, CodeRanges(s))
  {
    hide CodeRanges, OverlapsAny, Normalize, SlidAll, In, Crs, Pos, IsMatch;
    var crs := Crs(s, 0);
    MatchHasNoCr(s, m);
    CodeOfNormalized(s);
    CodeInBounds(s);
    OverlapsSlide(s, crs, m, CodeRanges(s));
    NormalizedPos(s, m.start);
    PosMonotone(s, crs, m.start, m.end);
  }

  lemma MatchHasNoCr(s: string, m: Range)
    requires PlainEndings(s) && IsMatch(s, m)
    ensures m.start < m.end <= |s| && Uncut(Crs(s, 0), m) && (m.start == 0 || s[m.start - 1] != '\r')
  {
    MatchSplits(s, m);
    hide In, Crs, TagEnd;
    forall p: nat | m.start <= p < m.end ensures !In(p, Crs(s, 0)) {
      InCrs(s, 0, p);
      if m.start < p { NoHashInside(s, m, p); }
    }
  }

  /** A removal takes a newline only with the carriage return before it. */
  lemma LeftKeepsEndings(b: string, tag: string)
    requires PlainEndings(b)
    ensures PlainEndings(Left(b, tag))
  {
    hide Removed, In, Keep, KeptTo, Pos;
    var rs, out := Removed(b, tag), Left(b, tag);
    KeepSplits(b, rs, |b|);
    PosStart(b, rs);
    forall q | 0 <= q < |out| && out[q] == '\r' ensures q + 1 < |out| && out[q + 1] == '\n' {
      assert out == KeptTo(b, rs, |b|) by { EndsKept(b, rs); }
      var p := KeptOrigin(b, rs, q, |b|);
      NewlineStays(b, tag, p);
      KeptAt(b, rs, p + 1);
      PosStep(b, rs, p);
      assert Pos(b, rs, p) == q by { PosIs(b, rs, p); }
    }
  }

  lemma EndsKept(b: string, rs: seq<Range>)
    ensures Keep(b, 0, rs) == KeptTo(b, rs, |b|)
  {
    KeepSplits(b, rs, |b|);
    hide KeptTo;
    assert Keep(b, |b|, rs) == "";
  }

  lemma PosIs(b: string, rs: seq<Range>, p: nat)
    requires p <= |b|
    ensures Pos(b, rs, p) == |KeptTo(b, rs, p)|
  {
  }

  lemma NewlineStays(b: string, tag: string, p: nat)
    requires PlainEndings(b) && p < |b| && b[p] == '\r' && !In(p, Removed(b, tag))
    ensures p + 1 < |b| && b[p + 1] == '\n' && !In(p + 1, Removed(b, tag))
  {
    hide Removed, In, Removal, Goes;
    InRemoved(b, tag, p);
    InRemoved(b, tag, p + 1);
    if m :| Goes(b, tag, m) && m.start < m.end <= |b| && Within(p + 1, Removal(b, m)) {
      GoesShape(b, tag, m);
      NewlineTaken(b, m, p, p + 1);
      assert false;
    }
  }

  // ---- the tags of what is left, told from the body ----

  lemma OverlapSlides(b: string, rs: seq<Range>, n: Range, r: Range)
    requires n.start < n.end <= |b| && r.start <= r.end <= |b| && Uncut(rs, n)
    ensures Overlaps(Slid1(b, rs, n), Slid1(b, rs, r)) == Overlaps(n, r)
  {
    hide Pos, In;
    UncutAt(rs, n, n.start);
    UncutAt(rs, n, n.end - 1);
    PosMonotone(b, rs, n.end - 1, n.end);
    if n.start < r.end { PosMonotone(b, rs, n.start, r.end); } else { PosMonotone(b, rs, r.end, n.start); }
    if r.start < n.end { PosMonotone(b, rs, r.start, n.end - 1); } else { PosMonotone(b, rs, n.end, r.start); }
  }

  lemma OverlapsSlide(b: string, rs: seq<Range>, n: Range, code: seq<Range>)
    requires n.start < n.end <= |b| && Uncut(rs, n)
    requires forall k | 0 <= k < |code| :: code[k].start <= code[k].end <= |b|
    ensures OverlapsAny(Slid1(b, rs, n), SlidAll(b, rs, code)) == OverlapsAny(n, code)
  {
    hide Slid1, Overlaps, SlidAll, Uncut;
    forall k | 0 <= k < |code|
      ensures Overlaps(Slid1(b, rs, n), SlidAll(b, rs, code)[k]) == Overlaps(n, code[k])
    {
      SlidAllAt(b, rs, code, k);
      OverlapSlides(b, rs, n, code[k]);
    }
  }

  lemma CodeInBounds(b: string)
    ensures forall k | 0 <= k < |CodeRanges(b)| :: CodeRanges(b)[k].start <= CodeRanges(b)[k].end <= |b|
  {
    FencedIsCode(b);
    InlineIsCode(b, 0);
    hide FencedRanges, InlineSpans;
  }

  /** Of a match that stays nothing is cut, and it slides as any range does. */
  lemma MatchStaysWhole(b: string, tag: string, n: Range)
    requires IsMatch(b, n) && !Goes(b, tag, n)
    ensures n.start < n.end <= |b| && Uncut(Removed(b, tag), n)
    ensures Slid(b, tag, n) == Slid1(b, Removed(b, tag), n)
  {
    MatchSplits(b, n);
    forall p: nat | n.start <= p < n.end ensures !In(p, Removed(b, tag)) { MatchKept(b, tag, n, p); }
    hide Removed, IsMatch, Goes, In;
    PosMonotone(b, Removed(b, tag), n.start, n.end);
  }

  /** A match that is no code and stays, and stands at the start or behind a blank once the cut is made. */
  ghost predicate Emerges(b: string, tag: string, n: Range) {
    && IsMatch(b, n) && n.start <= |b| && !Counts(b, n, tag, CodeRanges(b))
    && AtBlank(KeptTo(b, Removed(b, tag), n.start)) && !OverlapsAny(n, CodeRanges(b))
  }

  lemma SurfacesIffEmerges(body: string, tag: string, n: Range)
    requires PlainEndings(body) && FencesStay(body, Removed(body, tag)) && IsMatch(body, n)
    ensures Surfaces(body, tag, n) <==> Emerges(body, tag, n)
  {
    MatchSplits(body, n);
    if !Goes(body, tag, n) {
      var rs, out, slid := Removed(body, tag), Left(body, tag), Slid(body, tag, n);
      RemovedSparesMarks(body, tag);
      RemovedSparesSpans(body, tag);
      RemovedTakesWholeLines(body, tag);
      CodeSlides(body, rs);
      CodeInBounds(body);
      MatchStaysWhole(body, tag, n);
      MatchSlides(body, tag, n);
      InBounds(out, slid);
      LeftKeepsEndings(body, tag);
      MovedIsCode(out, slid);
      OverlapsSlide(body, rs, n, CodeRanges(body));
      assert out == Keep(body, 0, rs);
      hide Removed, CodeRanges, IsMatch, Left, KeptTo, Name, Slid, Slid1, SlidAll, Moved, Normalize, Keep, OverlapsAny;
      hide FencesStay, WholeLines, SparesMarks, AllKeepInside, Uncut, AtBlank, PrecededOk;
    }
  }

  /**
   The tags after a removal, told from the body before it: when every line that lost something opens
   and closes what it did before, they are those of the matches outside code that did not count as
   the tag removed and come to stand at the start or behind a blank.
   */
  lemma TagsOutsideCode(body: string, tag: string, name: string)
    requires PlainEndings(body) && FencesStay(body, Removed(body, tag))
    ensures name in ExtractTags(Left(body, tag)) <==> exists n :: Emerges(body, tag, n) && Name(body, n) == name
  {
    TagsAfterRemoval(body, tag, name);
    hide ExtractTags, Left, FencesStay, Removed, Name;
    forall n ensures Surfaces(body, tag, n) <==> Emerges(body, tag, n) {
      if IsMatch(body, n) { SurfacesIffEmerges(body, tag, n); }
    }
    hide Surfaces, Emerges;
  }

  /** So the tag survives its removal exactly when a match glued to one cut out comes free outside code. */
  lemma TagSurvivesOutsideCodeIff(body: string, tag: string)
    requires PlainEndings(body) && FencesStay(body, Removed(body, tag))
    ensures tag in ExtractTags(Left(body, tag))
       <==> exists n :: Unglued(body, tag, n) && !OverlapsAny(n, CodeRanges(body))
  {
    TagsOutsideCode(body, tag, tag);
    hide ExtractTags, Left, FencesStay, Removed, CodeRanges, OverlapsAny, KeptTo, AtBlank;
    forall n
      ensures Emerges(body, tag, n) && Name(body, n) == tag <==>
              Unglued(body, tag, n) && !OverlapsAny(n, CodeRanges(body))
    {
      if IsMatch(body, n) { InBounds(body, n); }
    }
  }
}

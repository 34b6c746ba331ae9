/**
 The leading `---` fence of a body: the status read from it (content/mod.rs), the note type
 written into it by export and read back by import (transfer.rs), and its effect on the tags.
 */
module Frontmatter {
  import opened Text
  import opened Fences
  import opened Tags

  // ---- status and the rest of the body ----

  predicate IsDashes(line: string) {
    StripCr(line) == "---"
  }

  function FindDashes(ls: seq<string>, k: nat): (r: Option<nat>)
    requires k <= |ls|
    ensures r.Some? ==> k <= r.value < |ls|
    decreases |ls| - k
  {
    if k == |ls| then None else if IsDashes(ls[k]) then Some(k) else FindDashes(ls, k + 1)
  }

  /** Line number of the closing fence, if the body starts with a terminated fence. */
  function FenceEnd(ls: seq<string>): (r: Option<nat>)
    requires |ls| >= 1
    ensures r.Some? ==> 1 <= r.value < |ls|
  {
    if IsDashes(ls[0]) then FindDashes(ls, 1) else None
  }

  /** The last `status:` value among lines `k..n`. */
  function LastStatus(ls: seq<string>, k: nat, n: nat): Option<string>
    requires k <= n <= |ls|
  {
    if k == n then None
    else
      var line := StripCr(ls[n - 1]);
      if "status:" <= line then Some(Trim(line[7..])) else LastStatus(ls, k, n - 1)
  }

  function Status(body: string): Option<string> {
    match FenceEnd(Lines(body))
    case Some(n) => LastStatus(Lines(body), 1, n)
    case None => None
  }

  /** The body without its fence. */
  function Rest(body: string): string {
    var ls := Lines(body);
    match FenceEnd(ls)
    case None => body
    case Some(n) => if n + 1 < |ls| then Join(ls[n + 1..]) else ""
  }

  // ---- what they are ----

  /** The line is three dashes, whatever its ending. */
  ghost predicate DashLine(line: string) {
    line == "---" || line == "---\r"
  }

  /** The lines open with a fence that line `n` closes. */
  ghost predicate FenceTo(ls: seq<string>, n: nat) {
    1 <= n < |ls| && DashLine(ls[0]) && DashLine(ls[n]) && forall k | 1 <= k < n :: !DashLine(ls[k])
  }

  /** `rest` is the body behind its fence, or the whole of a body that has none. */
  ghost predicate IsRest(body: string, rest: string) {
    var ls := Lines(body);
    || (rest == body && forall n: nat :: !FenceTo(ls, n))
    || exists n: nat :: FenceTo(ls, n) && rest == if n + 1 < |ls| then Join(ls[n + 1..]) else ""
  }

  /** Line `k` is the last in the fence that gives a status, namely `value`. */
  ghost predicate StatusAt(ls: seq<string>, n: nat, k: nat, value: string) {
    && FenceTo(ls, n) && 1 <= k < n && "status:" <= StripCr(ls[k]) && IsTrimOf(StripCr(ls[k])[7..], value)
    && forall j | k < j < n :: !("status:" <= StripCr(ls[j]))
  }

  ghost predicate IsStatus(body: string, status: Option<string>) {
    var ls := Lines(body);
    match status
    case Some(value) => exists n: nat, k: nat :: StatusAt(ls, n, k, value)
    case None => forall n: nat, k: nat | FenceTo(ls, n) && 1 <= k < n :: !("status:" <= StripCr(ls[k]))
  }

  lemma FenceOnce(ls: seq<string>, m: nat, n: nat)
    requires FenceTo(ls, m) && FenceTo(ls, n)
    ensures m == n
  {
    hide DashLine;
  }

  lemma RestOnce(body: string, a: string, b: string)
    requires IsRest(body, a) && IsRest(body, b)
    ensures a == b
  {
    var ls := Lines(body);
    hide Lines, Join, FenceTo;
    if m: nat :| FenceTo(ls, m) && a == if m + 1 < |ls| then Join(ls[m + 1..]) else "" {
      if n: nat :| FenceTo(ls, n) && b == if n + 1 < |ls| then Join(ls[n + 1..]) else "" { FenceOnce(ls, m, n); }
    }
  }

  lemma StatusOnce(body: string, a: Option<string>, b: Option<string>)
    requires IsStatus(body, a) && IsStatus(body, b)
    ensures a == b
  {
    var ls := Lines(body);
    hide Lines, DashLine, StripCr, IsTrimOf;
    if a.Some? && b.Some? {
      var m: nat, j: nat :| StatusAt(ls, m, j, a.value);
      var n: nat, k: nat :| StatusAt(ls, n, k, b.value);
      FenceOnce(ls, m, n);
      assert j == k;
      TrimOnce(StripCr(ls[j])[7..], a.value, b.value);
    }
  }

  lemma DashesIff(line: string)
    ensures IsDashes(line) <==> DashLine(line)
  {
    if line != "" && line[|line| - 1] == '\r' { assert line == line[..|line| - 1] + "\r"; }
  }

  lemma {:induction false} FindDashesIs(ls: seq<string>, k: nat)
    requires k <= |ls|
    ensures match FindDashes(ls, k)
      case Some(n) => DashLine(ls[n]) && forall j | k <= j < n :: !DashLine(ls[j])
      case None => forall j | k <= j < |ls| :: !DashLine(ls[j])
    decreases |ls| - k
  {
    hide DashLine, IsDashes;
    if k < |ls| {
      DashesIff(ls[k]);
      FindDashesIs(ls, k + 1);
    }
  }

  lemma FenceEndIs(ls: seq<string>, n: nat)
    requires |ls| >= 1
    ensures FenceEnd(ls) == Some(n) <==> FenceTo(ls, n)
    ensures FenceEnd(ls) == None ==> !FenceTo(ls, n)
  {
    hide DashLine, IsDashes;
    DashesIff(ls[0]);
    FindDashesIs(ls, 1);
  }

  lemma RestIs(body: string)
    ensures IsRest(body, Rest(body))
  {
    var ls := Lines(body);
    hide Lines, Join, FenceEnd, FenceTo;
    forall n: nat ensures FenceEnd(ls) == Some(n) <==> FenceTo(ls, n) { FenceEndIs(ls, n); }
  }

  lemma {:induction false} LastStatusIs(ls: seq<string>, k: nat, n: nat) returns (at: nat)
    requires k <= n <= |ls|
    ensures match LastStatus(ls, k, n)
      case Some(value) =>
        && k <= at < n && "status:" <= StripCr(ls[at]) && IsTrimOf(StripCr(ls[at])[7..], value)
        && forall j | at < j < n :: !("status:" <= StripCr(ls[j]))
      case None => forall j | k <= j < n :: !("status:" <= StripCr(ls[j]))
  {
    hide StripCr, Trim, IsTrimOf;
    at := k;
    if k < n {
      var line := StripCr(ls[n - 1]);
      if "status:" <= line {
        TrimIs(line[7..]);
        at := n - 1;
      } else {
        at := LastStatusIs(ls, k, n - 1);
      }
    }
  }

  lemma StatusIs(body: string)
    ensures IsStatus(body, Status(body))
  {
    var ls := Lines(body);
    hide Lines, FenceEnd, LastStatus, FenceTo, StripCr, IsTrimOf;
    forall n: nat ensures FenceEnd(ls) == Some(n) <==> FenceTo(ls, n) { FenceEndIs(ls, n); }
    if FenceEnd(ls).Some? {
      var n := FenceEnd(ls).value;
      var at := LastStatusIs(ls, 1, n);
      if LastStatus(ls, 1, n).Some? { assert StatusAt(ls, n, at, LastStatus(ls, 1, n).value); }
    }
  }

  lemma DropNone(s: string)
    ensures Offset(Lines(s), 0) == 0 && s[0..] == Join(Lines(s)[0..])
  {
    JoinLines(s);
    assert Lines(s)[0..] == Lines(s);
  }

  lemma {:induction false} DropLines(s: string, k: nat)
    requires k < |Lines(s)|
    ensures Offset(Lines(s), k) <= |s| && s[Offset(Lines(s), k)..] == Join(Lines(s)[k..])
  {
    hide Lines, Join, Offset;
    if k == 0 {
      DropNone(s);
    } else {
      DropLine(s);
      var cut := |Lines(s)[0]| + 1;
      DropLines(s[cut..], k - 1);
      OffsetCons(Lines(s)[0], Lines(s)[1..], k - 1);
      assert [Lines(s)[0]] + Lines(s)[1..] == Lines(s);
      DropTwice(Lines(s), 1, k - 1);
      DropTwice(s, cut, Offset(Lines(s[cut..]), k - 1));
    }
  }

  lemma {:induction false} OffsetSlice(ls: seq<string>, i: nat, j: nat, k: nat)
    requires i + k <= j <= |ls|
    ensures Offset(ls, i + k) == Offset(ls, i) + Offset(ls[i..j], k)
  {
    if k > 0 { OffsetSlice(ls, i, j, k - 1); }
  }

  lemma {:induction false} JoinLength(ls: seq<string>)
    requires |ls| >= 1
    ensures |Join(ls)| == Offset(ls, |ls| - 1) + |ls[|ls| - 1]|
  {
    hide Offset;
    if |ls| > 1 {
      JoinLength(ls[1..]);
      LastOffset(ls);
    } else {
      FirstOffset(ls);
    }
  }

  lemma FirstOffset(ls: seq<string>)
    ensures Offset(ls, 0) == 0
  {
  }

  lemma LastOffset(ls: seq<string>)
    requires |ls| > 1
    ensures Offset(ls, |ls| - 1) == |ls[0]| + 1 + Offset(ls[1..], |ls| - 2) && ls[1..][|ls| - 2] == ls[|ls| - 1]
  {
    OffsetSlice(ls, 1, |ls|, |ls| - 2);
    assert ls[1..|ls|] == ls[1..];
    assert Offset(ls, 1) == |ls[0]| + 1;
  }

  /** The range of a block is its lines, from the one that opens it to the one that closes it. */
  lemma BlockText(body: string, b: Block)
    requires b.open <= b.close < |Lines(body)|
    ensures var r := BlockRange(Lines(body), b);
      r.start <= r.end <= |body| && body[r.start..r.end] == Join(Lines(body)[b.open..b.close + 1])
  {
    hide Lines, Offset, Join;
    var ls := Lines(body);
    var part, rest := ls[b.open..b.close + 1], ls[b.close + 1..];
    DropLines(body, b.open);
    JoinLength(part);
    OffsetSlice(ls, b.open, b.close + 1, b.close - b.open);
    assert ls[b.open..] == part + rest;
    if rest == [] { assert part + rest == part; } else { JoinConcat(part, rest); }
    assert Join(part) <= body[Offset(ls, b.open)..];
    PrefixIsSlice(body, Offset(ls, b.open), Join(part));
  }

  lemma PrefixIsSlice(s: string, i: nat, t: string)
    requires i <= |s| && t <= s[i..]
    ensures i + |t| <= |s| && s[i..i + |t|] == t
  {
    assert s[i..][..|t|] == t;
  }

  lemma DropTwice<T>(s: seq<T>, m: nat, n: nat)
    requires m + n <= |s|
    ensures s[m..][n..] == s[m + n..]
  {
  }

  lemma {:induction false} DropLine(s: string)
    requires |Lines(s)| > 1
    ensures |Lines(s)[0]| + 1 <= |s| && Lines(s[|Lines(s)[0]| + 1..]) == Lines(s)[1..]
    ensures s == Lines(s)[0] + "\n" + s[|Lines(s)[0]| + 1..]
  {
    if s[0] != '\n' {
      DropLine(s[1..]);
      var first := Lines(s[1..])[0];
      assert Lines(s)[0] == [s[0]] + first;
      assert s[1..][|first| + 1..] == s[|first| + 2..];
    }
  }

  lemma RestFrom(body: string, k: nat)
    requires FenceEnd(Lines(body)) == Some(k)
    ensures var ls := Lines(body);
            if k + 1 < |ls| then Offset(ls, k + 1) <= |body| && Rest(body) == body[Offset(ls, k + 1)..]
            else Rest(body) == ""
  {
    if k + 1 < |Lines(body)| { DropLines(body, k + 1); }
    hide Lines, Join, Offset, FenceEnd;
  }

  method ParseFrontmatterStatus(body: string) returns (status: Option<string>, rest: string)
    ensures status == Status(body) && rest == Rest(body)
    ensures IsStatus(body, status) && IsRest(body, rest)
  {
    hide IsStatus, IsRest;
    StatusIs(body);
    RestIs(body);
    var ls := Lines(body);
    if !IsDashes(ls[0]) { return None, body; }
    var offset, k := |ls[0]| + 1, 1;
    status := None;
    hide Lines, Join, IsDashes;
    while k < |ls|
      invariant 1 <= k <= |ls| && offset == Offset(ls, k)
      invariant FindDashes(ls, k) == FindDashes(ls, 1)
      invariant status == LastStatus(ls, 1, k)
    {
      offset := offset + |ls[k]| + 1;
      if IsDashes(ls[k]) {
        RestFrom(body, k);
        return status, if k + 1 < |ls| then body[offset..] else "";
      }
      var content := StripCr(ls[k]);
      if "status:" <= content { status := Some(Trim(content[7..])); }
      k := k + 1;
    }
    return None, body;
  }

  /** Title, tags and status are derived from the body without its fence. */
  function DerivedTags(body: string): seq<string> {
    ExtractTags(Rest(body))
  }

  // ---- text before a text ----

  function Shift(rs: seq<Range>, d: nat): (r: seq<Range>)
    ensures |r| == |rs|
  {
    if rs == [] then [] else [Range(rs[0].start + d, rs[0].end + d)] + Shift(rs[1..], d)
  }

  lemma {:induction false} ShiftAt(rs: seq<Range>, d: nat, k: nat)
    requires k < |rs|
    ensures Shift(rs, d)[k] == Range(rs[k].start + d, rs[k].end + d)
  {
    if k > 0 { ShiftAt(rs[1..], d, k - 1); }
  }

  lemma {:induction false} ShiftConcat(a: seq<Range>, b: seq<Range>, d: nat)
    ensures Shift(a + b, d) == Shift(a, d) + Shift(b, d)
  {
    if a == [] {
      assert a + b == b;
    } else {
      assert (a + b)[1..] == a[1..] + b;
      ShiftConcat(a[1..], b, d);
    }
  }

  /** Whole lines without hashes and code marks. */
  ghost predicate Plain(f: string) {
    f != "" && f[|f| - 1] == '\n' && NoMarks(f) && '#' !in f
  }

  lemma {:induction false} TagEndShift(f: string, r: string, i: nat)
    requires i <= |r|
    ensures TagEnd(f + r, |f| + i) == |f| + TagEnd(r, i)
    decreases |r| - i
  {
    if i < |r| { TagEndShift(f, r, i + 1); }
  }

  lemma {:induction false} TagMatchesShift(f: string, r: string, i: nat)
    requires i <= |r|
    ensures TagMatches(f + r, |f| + i) == Shift(TagMatches(r, i), |f|)
    decreases |r| - i
  {
    if i < |r| {
      assert StartsTag(f + r, |f| + i) == StartsTag(r, i);
      TagMatchesStep(r, i);
      TagMatchesStep(f + r, |f| + i);
      TagEndShift(f, r, i + 1);
      hide TagMatches, StartsTag, TagEnd, Shift;
      if StartsTag(r, i) {
        var end := TagEnd(r, i + 1);
        TagMatchesShift(f, r, end);
        ShiftCons(Range(i, end), TagMatches(r, end), |f|);
      } else {
        TagMatchesShift(f, r, i + 1);
      }
    }
  }

  lemma {:induction false} NextTickShift(f: string, r: string, i: nat)
    requires i <= |r|
    ensures NextTick(f + r, |f| + i) == |f| + NextTick(r, i)
    decreases |r| - i
  {
    if i < |r| { NextTickShift(f, r, i + 1); }
  }

  lemma ShiftCons(m: Range, rest: seq<Range>, d: nat)
    ensures Shift([m] + rest, d) == [Range(m.start + d, m.end + d)] + Shift(rest, d)
  {
    assert ([m] + rest)[1..] == rest;
  }

  lemma AfterSpanShift(f: string, r: string, i: nat)
    requires i < |r|
    ensures OpensSpan(f + r, |f| + i) == OpensSpan(r, i) && AfterSpan(f + r, |f| + i) == |f| + AfterSpan(r, i)
  {
    NextTickShift(f, r, i + 1);
    hide NextTick;
  }

  lemma {:induction false} InlineSpansShift(f: string, r: string, i: nat)
    requires i <= |r|
    ensures InlineSpans(f + r, |f| + i) == Shift(InlineSpans(r, i), |f|)
    decreases |r| - i
  {
    if i < |r| {
      AfterSpanShift(f, r, i);
      SpansStep(r, i);
      SpansStep(f + r, |f| + i);
      hide InlineSpans, OpensSpan, AfterSpan, Shift;
      var next := AfterSpan(r, i);
      InlineSpansShift(f, r, next);
      ShiftCons(Range(i, next), InlineSpans(r, next), |f|);
    }
  }

  lemma {:induction false} SkipPlain(f: string, r: string, i: nat)
    requires i <= |f| && NoMarks(f) && '#' !in f
    ensures TagMatches(f + r, i) == TagMatches(f + r, |f|)
    ensures InlineSpans(f + r, i) == InlineSpans(f + r, |f|)
    decreases |f| - i
  {
    if i < |f| {
      assert f[i] in f && (f + r)[i] == f[i];
      InlineSpansStep(f + r, i);
      hide InlineSpans;
      SkipPlain(f, r, i + 1);
    }
  }

  // blocks

  function ShiftBlocks(bs: seq<Block>, d: nat): (r: seq<Block>)
    ensures |r| == |bs|
  {
    if bs == [] then [] else [Block(d + bs[0].open, d + bs[0].close)] + ShiftBlocks(bs[1..], d)
  }

  lemma {:induction false} ShiftBlocksAt(bs: seq<Block>, d: nat, k: nat)
    requires k < |bs|
    ensures ShiftBlocks(bs, d)[k] == Block(d + bs[k].open, d + bs[k].close)
  {
    if k > 0 { ShiftBlocksAt(bs[1..], d, k - 1); }
  }

  lemma {:induction false} FindCloseShift(pre: seq<string>, ls: seq<string>, i: nat, fence: Fence)
    requires i <= |ls|
    ensures FindClose(pre + ls, |pre| + i, fence)
         == match FindClose(ls, i, fence) case Some(j) => Some(|pre| + j) case None => None
    decreases |ls| - i
  {
    hide IsClosingFence;
    if i < |ls| { FindCloseShift(pre, ls, i + 1, fence); }
  }

  lemma ShiftBlocksCons(b: Block, rest: seq<Block>, d: nat)
    ensures ShiftBlocks([b] + rest, d) == [Block(d + b.open, d + b.close)] + ShiftBlocks(rest, d)
  {
    assert ([b] + rest)[1..] == rest;
  }

  /** Where the scan goes on after line `i`: past the block it opens, or to the next line. */
  function AfterLine(ls: seq<string>, i: nat): (next: nat)
    requires i < |ls|
    ensures i < next <= |ls|
  {
    match OpenFence(ls[i])
    case None => i + 1
    case Some(fence) =>
      match FindClose(ls, i + 1, fence)
      case None => i + 1
      case Some(j) => j + 1
  }

  predicate OpensBlock(ls: seq<string>, i: nat)
    requires i < |ls|
  {
    OpenFence(ls[i]).Some? && FindClose(ls, i + 1, OpenFence(ls[i]).value).Some?
  }

  lemma BlocksStep(ls: seq<string>, i: nat)
    requires i < |ls|
    ensures Blocks(ls, i) == if OpensBlock(ls, i) then [Block(i, AfterLine(ls, i) - 1)] + Blocks(ls, AfterLine(ls, i))
                             else Blocks(ls, AfterLine(ls, i))
  {
    hide OpenFence, FindClose;
  }

  lemma AfterLineShift(pre: seq<string>, ls: seq<string>, i: nat)
    requires i < |ls|
    ensures OpensBlock(pre + ls, |pre| + i) == OpensBlock(ls, i)
    ensures AfterLine(pre + ls, |pre| + i) == |pre| + AfterLine(ls, i)
  {
    hide OpenFence, FindClose;
    assert (pre + ls)[|pre| + i] == ls[i];
    if OpenFence(ls[i]).Some? { FindCloseShift(pre, ls, i + 1, OpenFence(ls[i]).value); }
  }

  lemma {:induction false} BlocksShift(pre: seq<string>, ls: seq<string>, i: nat)
    requires i <= |ls|
    ensures Blocks(pre + ls, |pre| + i) == ShiftBlocks(Blocks(ls, i), |pre|)
    decreases |ls| - i
  {
    if i < |ls| {
      hide OpensBlock, AfterLine, Blocks, ShiftBlocks;
      var next := AfterLine(ls, i);
      BlocksStepShift(pre, ls, i);
      BlocksStep(ls, i);
      BlocksShift(pre, ls, next);
      ShiftBlocksCons(Block(i, next - 1), Blocks(ls, next), |pre|);
    }
  }

  lemma BlocksStepShift(pre: seq<string>, ls: seq<string>, i: nat)
    requires i < |ls|
    ensures var next := |pre| + AfterLine(ls, i);
      Blocks(pre + ls, |pre| + i)
      == if OpensBlock(ls, i) then [Block(|pre| + i, |pre| + (AfterLine(ls, i) - 1))] + Blocks(pre + ls, next)
         else Blocks(pre + ls, next)
  {
    hide OpensBlock, AfterLine, Blocks;
    BlocksStep(pre + ls, |pre| + i);
    AfterLineShift(pre, ls, i);
  }

  lemma {:induction false} BlocksSkip(pre: seq<string>, ls: seq<string>, i: nat)
    requires i <= |pre| && forall k | 0 <= k < |pre| :: NoMarks(pre[k])
    ensures Blocks(pre + ls, i) == Blocks(pre + ls, |pre|)
    decreases |pre| - i
  {
    if i < |pre| {
      NoFence(pre[i], Fence('`', 3));
      hide OpenFence, FindClose, NoMarks;
      BlocksSkip(pre, ls, i + 1);
    }
  }

  lemma {:induction false} OffsetShift(pre: seq<string>, ls: seq<string>, k: nat)
    requires k <= |ls|
    ensures Offset(pre + ls, |pre| + k) == Offset(pre, |pre|) + Offset(ls, k)
  {
    if k > 0 { OffsetShift(pre, ls, k - 1); } else { SameOffset(pre, pre + ls, |pre|); }
  }

  lemma {:induction false} LastLineEmpty(f: string)
    requires f != "" && f[|f| - 1] == '\n'
    ensures var ls := Lines(f); |ls| > 1 && ls[|ls| - 1] == ""
  {
    if |f| > 1 {
      LastLineEmpty(f[1..]);
    }
  }

  lemma BlockRangeShift(pre: seq<string>, ls: seq<string>, b: Block)
    requires b.open < |ls| && b.close < |ls|
    ensures var d, r := Offset(pre, |pre|), BlockRange(ls, b);
            BlockRange(pre + ls, Block(|pre| + b.open, |pre| + b.close)) == Range(r.start + d, r.end + d)
  {
    hide Offset;
    OffsetShift(pre, ls, b.open);
    OffsetShift(pre, ls, b.close);
    var c := Block(|pre| + b.open, |pre| + b.close);
    assert (pre + ls)[c.close] == ls[b.close];
  }

  /** The lines of plain lines followed by a text. */
  lemma PlainLinesThen(f: string, r: string) returns (pre: seq<string>)
    requires Plain(f)
    ensures Lines(f + r) == pre + Lines(r) && Offset(pre, |pre|) == |f|
    ensures forall k | 0 <= k < |pre| :: NoMarks(pre[k])
  {
    var fl := Lines(f);
    pre := fl[..|fl| - 1];
    LinesConcat(f, r);
    LastLineEmpty(f);
    LineScalars(f);
    LinesSpan(f);
    SameOffset(fl, pre, |pre|);
    hide Lines, Offset;
    assert "" + Lines(r)[0] == Lines(r)[0];
  }

  lemma {:induction false} RangesShift(pre: seq<string>, ls: seq<string>, k: nat)
    requires |ls| >= 1 && k < |Blocks(ls, 0)| && forall k | 0 <= k < |pre| :: NoMarks(pre[k])
    ensures |Blocks(pre + ls, 0)| == |Blocks(ls, 0)|
    ensures var b, c, d := Blocks(ls, 0)[k], Blocks(pre + ls, 0)[k], Offset(pre, |pre|);
            && b.open < |ls| && b.close < |ls| && c.open < |pre + ls| && c.close < |pre + ls|
            && BlockRange(pre + ls, c) == Range(BlockRange(ls, b).start + d, BlockRange(ls, b).end + d)
  {
    BlocksSkip(pre, ls, 0);
    BlocksShift(pre, ls, 0);
    BlocksInBounds(ls, 0);
    hide Blocks, BlockRange, Offset, NoMarks;
    ShiftBlocksAt(Blocks(ls, 0), |pre|, k);
    BlockRangeShift(pre, ls, Blocks(ls, 0)[k]);
  }

  lemma FencedRangeShift(f: string, r: string, pre: seq<string>, k: nat)
    requires k < |FencedRanges(r)| && Lines(f + r) == pre + Lines(r) && Offset(pre, |pre|) == |f|
    requires forall k | 0 <= k < |pre| :: NoMarks(pre[k])
    ensures k < |FencedRanges(f + r)| && FencedRanges(f + r)[k] == Shift(FencedRanges(r), |f|)[k]
  {
    hide Lines, Blocks, BlockRange, Shift, Offset, NoMarks;
    RangesShift(pre, Lines(r), k);
    ShiftAt(FencedRanges(r), |f|, k);
  }

  lemma FencedRangesShift(f: string, r: string)
    requires Plain(f)
    ensures FencedRanges(f + r) == Shift(FencedRanges(r), |f|)
  {
    hide *;
    var pre := PlainLinesThen(f, r);
    BlocksSkip(pre, Lines(r), 0);
    BlocksShift(pre, Lines(r), 0);
    assert |FencedRanges(f + r)| == |FencedRanges(r)|;
    forall k | 0 <= k < |FencedRanges(r)| ensures FencedRanges(f + r)[k] == Shift(FencedRanges(r), |f|)[k] {
      FencedRangeShift(f, r, pre, k);
    }
  }

  lemma OverlapShift(m: Range, code: seq<Range>, d: nat)
    ensures OverlapsAny(Range(m.start + d, m.end + d), Shift(code, d)) == OverlapsAny(m, code)
  {
    forall k | 0 <= k < |code|
      ensures Overlaps(Range(m.start + d, m.end + d), Shift(code, d)[k]) == Overlaps(m, code[k])
    {
      ShiftAt(code, d, k);
    }
  }

  lemma NameShift(f: string, r: string, m: Range)
    requires m.start < m.end <= |r|
    ensures Name(f + r, Range(m.start + |f|, m.end + |f|)) == Name(r, m)
  {
    assert (f + r)[m.start + |f| + 1..m.end + |f|] == r[m.start + 1..m.end];
  }

  lemma IsTagShift(f: string, r: string, m: Range, code: seq<Range>)
    requires Plain(f) && m.start < m.end <= |r|
    ensures IsTag(f + r, Range(m.start + |f|, m.end + |f|), Shift(code, |f|)) == IsTag(r, m, code)
  {
    OverlapShift(m, code, |f|);
    hide OverlapsAny, Shift;
    assert PrecededOk(f + r, m.start + |f|) == PrecededOk(r, m.start);
  }

  lemma {:induction false} NamesShift(f: string, r: string, ms: seq<Range>, code: seq<Range>)
    requires Plain(f) && forall k | 0 <= k < |ms| :: ms[k].start < ms[k].end <= |r|
    ensures NamesOf(f + r, Shift(ms, |f|), Shift(code, |f|)) == NamesOf(r, ms, code)
  {
    hide IsTag, Name, Plain;
    if ms != [] {
      NamesShift(f, r, ms[1..], code);
      NameShift(f, r, ms[0]);
      IsTagShift(f, r, ms[0], code);
      assert Shift(ms, |f|)[1..] == Shift(ms[1..], |f|);
    }
  }

  /** Plain lines in front of a text add no tags and hide none. */
  lemma PlainPrefix(f: string, r: string)
    requires Plain(f)
    ensures TagNames(f + r) == TagNames(r)
  {
    SkipPlain(f, r, 0);
    TagMatchesShift(f, r, 0);
    InlineSpansShift(f, r, 0);
    FencedRangesShift(f, r);
    ShiftConcat(FencedRanges(r), InlineSpans(r, 0), |f|);
    TagMatchesConcat(r, "", 0);
    assert r + "" == r;
    hide TagMatches, InlineSpans, FencedRanges, NamesOf, Plain;
    NamesShift(f, r, TagMatches(r, 0), CodeRanges(r));
  }

  // ---- a fence without hashes and code marks does not matter ----

  ghost predicate FenceIsPlain(body: string) {
    var ls := Lines(body);
    FenceEnd(ls).Some? ==> forall k | 0 <= k <= FenceEnd(ls).value :: NoMarks(ls[k]) && '#' !in ls[k]
  }

  lemma {:induction false} PlainLines(ls: seq<string>)
    requires |ls| >= 1 && forall k | 0 <= k < |ls| :: NoMarks(ls[k]) && '#' !in ls[k]
    ensures NoMarks(Join(ls)) && '#' !in Join(ls)
  {
    if |ls| > 1 { PlainLines(ls[1..]); }
  }

  lemma {:induction false} ReplacedScalars(s: string)
    ensures forall c | c in ReplaceCrLf(s) :: c in s || c == '\n'
    ensures forall c | c in ReplaceCr(s) :: c in s || c == '\n'
    decreases |s|
  {
    if s != "" {
      ReplacedScalars(s[1..]);
      assert forall c | c in s[1..] :: c in s;
      assert s[0] in s;
      ReplaceCrLfStep(s);
      if |s| >= 2 {
        ReplacedScalars(s[2..]);
        assert forall c | c in s[2..] :: c in s;
      }
      hide ReplaceCrLf;
    }
  }

  lemma PlainNormalized(f: string)
    requires NoMarks(f) && '#' !in f
    ensures NoMarks(Normalize(f)) && '#' !in Normalize(f)
  {
    ReplacedScalars(f);
    ReplacedScalars(ReplaceCrLf(f));
  }

  lemma NoHashNoTags(s: string)
    requires '#' !in s
    ensures ExtractTags(s) == []
  {
    ReplacedScalars(s);
    ReplacedScalars(ReplaceCrLf(s));
    var n := Normalize(s);
    assert forall k | 0 <= k < |n| :: n[k] in n;
    NoTagsFrom(n, 0);
    hide CodeRanges, Normalize, TagMatches;
  }

  /** With no hash and no code mark in the fence, derived tags are the tags of the whole body. */
  lemma DerivedFromWhole(body: string)
    requires FenceIsPlain(body)
    ensures DerivedTags(body) == ExtractTags(body)
  {
    var ls := Lines(body);
    JoinLines(body);
    match FenceEnd(ls)
    case None =>
    case Some(n) =>
      var fence := ls[..n + 1];
      PlainLines(fence);
      if n + 1 == |ls| {
        assert fence == ls;
        NoHashNoTags(body);
        NoHashNoTags("");
      } else {
        assert ls == fence + ls[n + 1..];
        JoinConcat(fence, ls[n + 1..]);
        hide ExtractTags, Join, Lines, FenceEnd, IsDashes, NoMarks;
        FenceThenRest(body, Join(fence) + "\n", Rest(body));
      }
  }

  lemma FenceThenRest(body: string, f: string, r: string)
    requires f != "" && f[|f| - 1] == '\n' && NoMarks(f) && '#' !in f
    ensures ExtractTags(f + r) == ExtractTags(r)
  {
    NormalizeConcat(f, r);
    PlainNormalized(f);
    NewlineStays(f);
    PlainPrefix(Normalize(f), Normalize(r));
    hide TagNames, Normalize, Distinct;
  }

  lemma NewlineStays(f: string)
    requires f != "" && f[|f| - 1] == '\n'
    ensures Normalize(f) != "" && Normalize(f)[|Normalize(f)| - 1] == '\n'
  {
    ReplacedEnd(f);
    ReplacedEnd(ReplaceCrLf(f));
  }

  lemma {:induction false} ReplacedEnd(s: string)
    requires s != "" && s[|s| - 1] == '\n'
    ensures ReplaceCrLf(s) != "" && ReplaceCrLf(s)[|ReplaceCrLf(s)| - 1] == '\n'
    ensures ReplaceCr(s) != "" && ReplaceCr(s)[|ReplaceCr(s)| - 1] == '\n'
    decreases |s|
  {
    if |s| > 1 {
      ReplacedEnd(s[1..]);
      if |s| > 2 { ReplacedEnd(s[2..]); }
    }
  }

  // ---- stamping a tag and deriving it ----

  lemma {:induction false} FindDashesMore(ls: seq<string>, more: seq<string>, k: nat)
    requires k <= |ls| && forall i | 0 <= i < |more| :: !IsDashes(more[i])
    ensures FindDashes(ls + more, k) == FindDashes(ls, k)
    decreases |ls| - k
  {
    hide IsDashes;
    if k < |ls| { FindDashesMore(ls, more, k + 1); } else { NoDashes(ls, more, k); }
  }

  lemma {:induction false} NoDashes(ls: seq<string>, more: seq<string>, k: nat)
    requires |ls| <= k <= |ls + more| && forall i | 0 <= i < |more| :: !IsDashes(more[i])
    ensures FindDashes(ls + more, k) == None
    decreases |ls + more| - k
  {
    hide IsDashes;
    if k < |ls + more| {
      assert (ls + more)[k] == more[k - |ls|];
      NoDashes(ls, more, k + 1);
    }
  }

  lemma TagIsOneLine(tag: string)
    requires ValidTag(tag)
    ensures OneLine("#" + tag) && !IsDashes("#" + tag) && !IsDashes("")
  {
    var line := "#" + tag;
    forall c | c in line ensures c != '\n' {
      var k :| 0 <= k < |line| && line[k] == c;
      if k > 0 { assert c == tag[k - 1]; }
    }
    if |StripCr(line)| > 0 { assert StripCr(line)[0] == '#'; }
  }

  lemma StampLines(line: string)
    requires OneLine(line)
    ensures Lines("\n\n" + line) == ["", "", line]
  {
    LinesOfOneLine(line);
    var y := "\n\n" + line;
    assert y[1..] == "\n" + line && y[1..][1..] == line;
    hide OneLine;
    assert Lines(y[1..]) == [""] + Lines(line);
    assert Lines(y) == [""] + Lines(y[1..]);
  }

  lemma GlueEmpty(ls: seq<string>, line: string)
    requires |ls| >= 1
    ensures Glue(ls, ["", "", line]) == ls + ["", line]
  {
    var tail := ["", "", line];
    assert ls[|ls| - 1] + "" == ls[|ls| - 1];
    assert tail[1..] == ["", line];
    assert ls[..|ls| - 1] + [ls[|ls| - 1]] == ls;
  }

  lemma TagLines(p: string, tag: string)
    requires ValidTag(tag)
    ensures var more := ["", "#" + tag];
      && Lines(p + ("\n\n#" + tag)) == Lines(p) + more
      && forall i | 0 <= i < |more| :: !IsDashes(more[i])
  {
    TagIsOneLine(tag);
    StampLines("#" + tag);
    assert "\n\n" + ("#" + tag) == "\n\n#" + tag;
    hide *;
    LinesConcat(p, "\n\n#" + tag);
    GlueEmpty(Lines(p), "#" + tag);
  }

  lemma StampedOneLine(tag: string)
    requires ValidTag(tag)
    ensures tag in ExtractTags("\n#" + tag)
  {
    var y := "\n#" + tag;
    TagIsTail(tag);
    assert forall c | c in y :: c in "\n\n#" + tag;
    NormalizeWithoutCr(y);
    AppendedTagNames("", tag);
    assert TagNames("") == [];
    assert "" + ("\n\n#" + tag) == "\n" + y;
    hide TagNames, Normalize;
    PlainPrefix("\n", y);
    assert TagNames(y) == [] + [tag];
    DistinctHas(TagNames(y));
  }

  lemma StampedAfter(x: string, tag: string)
    requires ValidTag(tag) && !EndsWithCr(x)
    ensures tag in ExtractTags(x + ("\n\n#" + tag))
  {
    var y := "\n\n#" + tag;
    TagIsTail(tag);
    NormalizeConcat(x, y);
    NormalizeWithoutCr(y);
    AppendedTagNames(Normalize(x), tag);
    hide TagNames, Normalize;
    DistinctHas(TagNames(Normalize(x)) + [tag]);
  }

  /** What is left of a stamped text behind its fence ends in the stamp. */
  lemma RestOfStamped(p: string, tag: string)
    requires ValidTag(tag) && (p == "" || !IsWhitespace(p[|p| - 1]))
    ensures tag in DerivedTags(p + ("\n\n#" + tag))
  {
    var ls, more := Lines(p), ["", "#" + tag];
    TagLines(p, tag);
    FindDashesMore(ls, more, 1);
    hide Lines, FindDashes, ExtractTags, ValidTag, IsDashes;
    assert (ls + more)[0] == ls[0];
    match FenceEnd(ls)
    case None =>
      StampedAfter(p, tag);
    case Some(n) =>
      assert (ls + more)[n + 1..] == ls[n + 1..] + more;
      StampAsLines("", tag);
      if n + 1 == |ls| {
        assert ls[n + 1..] + more == more;
        StampedOneLine(tag);
      } else {
        StampedBehind(p, n + 1, tag);
      }
  }

  lemma StampAsLines(x: string, tag: string)
    ensures Join(["", "#" + tag]) == "\n#" + tag
    ensures x + "\n" + ("\n#" + tag) == x + ("\n\n#" + tag)
  {
    var more := ["", "#" + tag];
    assert more[1..] == ["#" + tag];
    assert Join(more) == "" + "\n" + ("#" + tag);
  }

  lemma SuffixEnds(p: string, at: nat)
    requires at <= |p| && (p == "" || !IsWhitespace(p[|p| - 1]))
    ensures !EndsWithCr(p[at..])
  {
  }

  lemma StampedBehind(p: string, k: nat, tag: string)
    requires ValidTag(tag) && k < |Lines(p)| && (p == "" || !IsWhitespace(p[|p| - 1]))
    ensures tag in ExtractTags(Join(Lines(p)[k..] + ["", "#" + tag]))
  {
    hide *;
    var x := Join(Lines(p)[k..]);
    DropLines(p, k);
    SuffixEnds(p, Offset(Lines(p), k));
    StampedAfter(x, tag);
    JoinConcat(Lines(p)[k..], ["", "#" + tag]);
    StampAsLines(x, tag);
  }

  /**
   Stamping a tag makes it one of the note's tags, unless the body already shows it, but only inside
   its fence: then the stamp is left out and the tag is not derived.
   */
  lemma EnsuredIsDerivedIff(body: string, tag: string)
    requires ValidTag(tag)
    ensures tag in DerivedTags(EnsureTag(body, tag)) <==> !(tag in ExtractTags(body) && tag !in DerivedTags(body))
  {
    if tag !in ExtractTags(body) {
      TrimEndAllBlanks(body);
      RestOfStamped(TrimEndAll(body), tag);
      assert TrimEndAll(body) + "\n\n#" + tag == TrimEndAll(body) + ("\n\n#" + tag);
    }
    hide ExtractTags, Rest;
  }
}

/**
 Fenced code blocks (content/mod.rs): an opener line is closed by the first later line that is
 exactly the same fence run followed by blanks; an opener that is never closed is no block.
 */
module Fences {
  import opened Text

  datatype Fence = Fence(mark: char, run: nat)
  /** Line numbers of an opener and its closer. */
  datatype Block = Block(open: nat, close: nat)
  /** Scalar positions `start <= p < end`. */
  datatype Range = Range(start: nat, end: nat)

  function RunLength(line: string, mark: char): (n: nat)
    ensures n <= |line|
  {
    if line != "" && line[0] == mark then 1 + RunLength(line[1..], mark) else 0
  }

  function OpenFence(line: string): Option<Fence> {
    if line == "" || (line[0] != '`' && line[0] != '~') || RunLength(line, line[0]) < 3 then None
    else Some(Fence(line[0], RunLength(line, line[0])))
  }

  predicate IsClosingFence(line: string, fence: Fence) {
    RunLength(line, fence.mark) == fence.run && AllBlank(line[fence.run..])
  }

  // ---- what a fence is ----

  /** The line starts with exactly `n` of the mark, of which a fence has three or more. */
  ghost predicate StartsFence(line: string, mark: char, n: nat) {
    && (mark == '`' || mark == '~') && 3 <= n <= |line|
    && (forall i | 0 <= i < n :: line[i] == mark) && (n == |line| || line[n] != mark)
  }

  lemma {:induction false} RunLengthIs(line: string, mark: char)
    ensures forall i | 0 <= i < RunLength(line, mark) :: line[i] == mark
    ensures RunLength(line, mark) < |line| ==> line[RunLength(line, mark)] != mark
  {
    if line != "" && line[0] == mark {
      RunLengthIs(line[1..], mark);
      assert forall i :: 1 <= i < |line| ==> line[i] == line[1..][i - 1];
    }
  }

  lemma OpenFenceIs(line: string)
    ensures match OpenFence(line)
      case Some(fence) => StartsFence(line, fence.mark, fence.run)
      case None => forall mark, n: nat :: !StartsFence(line, mark, n)
  {
    if line != "" { RunLengthIs(line, line[0]); }
    hide RunLength;
    forall mark, n: nat | StartsFence(line, mark, n) ensures line[0] == mark && RunLength(line, line[0]) == n {
    }
  }

  /** A line closes a fence exactly if it is that fence and blanks. */
  lemma ClosingIs(line: string, fence: Fence)
    requires (fence.mark == '`' || fence.mark == '~') && fence.run >= 3
    ensures IsClosingFence(line, fence)
       <==> StartsFence(line, fence.mark, fence.run) && forall i | fence.run <= i < |line| :: IsWhitespace(line[i])
  {
    RunLengthIs(line, fence.mark);
    hide RunLength, IsWhitespace;
    var run := RunLength(line, fence.mark);
    if IsClosingFence(line, fence) {
      forall i | run <= i < |line| ensures IsWhitespace(line[i]) { assert line[i] == line[run..][i - run]; }
    }
  }

  // ---- what the blocks of a text are ----

  /** Line `i` opens a fence whose first exact-length closer is line `j`. */
  ghost predicate Closes(ls: seq<string>, i: nat, j: nat) {
    && i < j < |ls|
    && OpenFence(ls[i]).Some?
    && IsClosingFence(ls[j], OpenFence(ls[i]).value)
    && forall k | i < k < j :: !IsClosingFence(ls[k], OpenFence(ls[i]).value)
  }

  ghost predicate Covered(bs: seq<Block>, i: nat) {
    exists k | 0 <= k < |bs| :: bs[k].open <= i <= bs[k].close
  }

  /** `bs` are closed blocks from line `from` on, in order and apart, covering every closable opener. */
  ghost predicate IsMatching(ls: seq<string>, from: nat, bs: seq<Block>) {
    && (forall k | 0 <= k < |bs| :: from <= bs[k].open && Closes(ls, bs[k].open, bs[k].close))
    && (forall k, m | 0 <= k < m < |bs| :: bs[k].close < bs[m].open)
    && (forall i, j | from <= i && Closes(ls, i, j) :: Covered(bs, i))
  }

  lemma ClosesOnce(ls: seq<string>, i: nat, j: nat, k: nat)
    requires Closes(ls, i, j) && Closes(ls, i, k)
    ensures j == k
  {
    hide IsClosingFence, OpenFence;
  }

  /** The leftmost non-overlapping matching is unique. */
  lemma {:induction false} MatchingIsUnique(ls: seq<string>, from: nat, a: seq<Block>, b: seq<Block>)
    requires IsMatching(ls, from, a) && IsMatching(ls, from, b)
    ensures a == b
    decreases |a|
  {
    hide Closes, Covered;
    if a == [] {
      if b != [] { CoveredFrom(ls, from, b, a); }
    } else {
      CoveredFrom(ls, from, a, b);
      CoveredFrom(ls, from, b, a);
      ClosesOnce(ls, a[0].open, a[0].close, b[0].close);
      MatchingTail(ls, from, a);
      MatchingTail(ls, from, b);
      hide IsMatching;
      MatchingIsUnique(ls, a[0].close + 1, a[1..], b[1..]);
      assert a == [a[0]] + a[1..] && b == [b[0]] + b[1..];
    }
  }

  /** Both matchings must cover the other's first opener, so neither starts later. */
  lemma CoveredFrom(ls: seq<string>, from: nat, a: seq<Block>, b: seq<Block>)
    requires IsMatching(ls, from, a) && IsMatching(ls, from, b) && a != []
    ensures b != [] && b[0].open <= a[0].open
    ensures Closes(ls, a[0].open, a[0].close)
  {
    assert Closes(ls, a[0].open, a[0].close) && Covered(b, a[0].open);
    hide Closes, IsMatching;
    var k :| 0 <= k < |b| && b[k].open <= a[0].open <= b[k].close;
    FirstIsLeast(ls, from, b, k);
  }

  lemma FirstIsLeast(ls: seq<string>, from: nat, b: seq<Block>, k: nat)
    requires IsMatching(ls, from, b) && k < |b|
    ensures b[0].open <= b[k].open
  {
    hide Covered, OpenFence, IsClosingFence;
    assert Closes(ls, b[0].open, b[0].close);
  }

  lemma MatchingTail(ls: seq<string>, from: nat, a: seq<Block>)
    requires IsMatching(ls, from, a) && a != []
    ensures IsMatching(ls, a[0].close + 1, a[1..])
  {
    FirstCloses(ls, from, a);
    hide Closes, Covered;
    var rest := a[1..];
    assert forall k | 0 <= k < |rest| :: rest[k] == a[k + 1];
    forall i, j | a[0].close + 1 <= i && Closes(ls, i, j) ensures Covered(rest, i)
    {
      assert Covered(a, i);
      CoveredTail(a, i);
    }
  }

  lemma FirstCloses(ls: seq<string>, from: nat, a: seq<Block>)
    requires IsMatching(ls, from, a) && a != []
    ensures from <= a[0].open < a[0].close
  {
    hide Covered, OpenFence, IsClosingFence;
    assert Closes(ls, a[0].open, a[0].close);
  }

  lemma CoveredTail(a: seq<Block>, i: nat)
    requires a != []
    ensures Covered(a, i) <==> a[0].open <= i <= a[0].close || Covered(a[1..], i)
  {
    assert forall k | 0 <= k < |a| - 1 :: a[1..][k] == a[k + 1];
    if k :| 0 < k < |a| && a[k].open <= i <= a[k].close { assert a[1..][k - 1].open <= i; }
    if k :| 0 <= k < |a| - 1 && a[1..][k].open <= i <= a[1..][k].close { assert a[k + 1].open <= i; }
  }

  // ---- how they are found ----

  function FindClose(ls: seq<string>, from: nat, fence: Fence): (r: Option<nat>)
    requires from <= |ls|
    ensures r.Some? ==> from <= r.value < |ls|
    decreases |ls| - from
  {
    if from == |ls| then None
    else if IsClosingFence(ls[from], fence) then Some(from)
    else FindClose(ls, from + 1, fence)
  }

  lemma {:induction false} FindCloseFinds(ls: seq<string>, i: nat, from: nat)
    requires i < from <= |ls| && OpenFence(ls[i]).Some?
    requires forall k | i < k < from :: !IsClosingFence(ls[k], OpenFence(ls[i]).value)
    ensures match FindClose(ls, from, OpenFence(ls[i]).value)
            case Some(j) => Closes(ls, i, j)
            case None => forall j :: !Closes(ls, i, j)
    decreases |ls| - from
  {
    hide IsClosingFence, OpenFence;
    if from < |ls| && !IsClosingFence(ls[from], OpenFence(ls[i]).value) {
      FindCloseFinds(ls, i, from + 1);
    }
  }

  function Blocks(ls: seq<string>, i: nat): seq<Block>
    requires i <= |ls|
    decreases |ls| - i
  {
    if i == |ls| then []
    else match OpenFence(ls[i])
      case None => Blocks(ls, i + 1)
      case Some(fence) =>
        match FindClose(ls, i + 1, fence)
        case None => Blocks(ls, i + 1)
        case Some(j) => [Block(i, j)] + Blocks(ls, j + 1)
  }

  /** The scan finds the leftmost non-overlapping matching. */
  lemma {:induction false} BlocksMatch(ls: seq<string>, i: nat)
    requires i <= |ls|
    ensures IsMatching(ls, i, Blocks(ls, i))
    decreases |ls| - i
  {
    hide IsClosingFence, OpenFence, FindClose, IsMatching, Closes;
    if i == |ls| {
      NoBlocks(ls);
    } else {
      if OpenFence(ls[i]).None? {
        BlocksMatch(ls, i + 1);
        NotAnOpener(ls, i);
        SkipLine(ls, i, Blocks(ls, i + 1));
      } else {
        FindCloseFinds(ls, i, i + 1);
        match FindClose(ls, i + 1, OpenFence(ls[i]).value)
        case None =>
          BlocksMatch(ls, i + 1);
          SkipLine(ls, i, Blocks(ls, i + 1));
        case Some(j) =>
          BlocksMatch(ls, j + 1);
          AddBlock(ls, i, j, Blocks(ls, j + 1));
      }
    }
  }

  lemma NoBlocks(ls: seq<string>)
    ensures IsMatching(ls, |ls|, [])
  {
    hide IsClosingFence, OpenFence;
  }

  lemma NotAnOpener(ls: seq<string>, i: nat)
    requires i < |ls| && OpenFence(ls[i]).None?
    ensures forall j :: !Closes(ls, i, j)
  {
  }

  lemma SkipLine(ls: seq<string>, i: nat, bs: seq<Block>)
    requires IsMatching(ls, i + 1, bs) && forall j :: !Closes(ls, i, j)
    ensures IsMatching(ls, i, bs)
  {
    hide Closes, Covered;
  }

  lemma AddBlock(ls: seq<string>, i: nat, j: nat, bs: seq<Block>)
    requires Closes(ls, i, j) && IsMatching(ls, j + 1, bs)
    ensures IsMatching(ls, i, [Block(i, j)] + bs)
  {
    assert i < j;
    AddedClose(ls, i, j, bs);
    AddedApart(ls, i, j, bs);
    AddedCovers(ls, i, j, bs);
    hide Closes, Covered;
  }

  lemma AddedClose(ls: seq<string>, i: nat, j: nat, bs: seq<Block>)
    requires i < j && Closes(ls, i, j) && IsMatching(ls, j + 1, bs)
    ensures var all := [Block(i, j)] + bs;
            forall k | 0 <= k < |all| :: i <= all[k].open && Closes(ls, all[k].open, all[k].close)
  {
    hide Closes, Covered;
  }

  lemma AddedApart(ls: seq<string>, i: nat, j: nat, bs: seq<Block>)
    requires IsMatching(ls, j + 1, bs)
    ensures var all := [Block(i, j)] + bs;
            forall k, m | 0 <= k < m < |all| :: all[k].close < all[m].open
  {
    hide Closes, Covered;
  }

  lemma AddedCovers(ls: seq<string>, i: nat, j: nat, bs: seq<Block>)
    requires IsMatching(ls, j + 1, bs)
    ensures forall m, n | i <= m && Closes(ls, m, n) :: Covered([Block(i, j)] + bs, m)
  {
    hide Closes, Covered;
    assert ([Block(i, j)] + bs)[1..] == bs;
    forall m, n | i <= m && Closes(ls, m, n) ensures Covered([Block(i, j)] + bs, m) {
      CoveredTail([Block(i, j)] + bs, m);
    }
  }

  // ---- positions ----

  /** Position of the first scalar of line `k`. */
  function Offset(ls: seq<string>, k: nat): nat
    requires k <= |ls|
  {
    if k == 0 then 0 else Offset(ls, k - 1) + |ls[k - 1]| + 1
  }

  function BlockRange(ls: seq<string>, b: Block): Range
    requires b.open < |ls| && b.close < |ls|
  {
    Range(Offset(ls, b.open), Offset(ls, b.close) + |ls[b.close]|)
  }

  lemma {:induction false} BlocksInBounds(ls: seq<string>, i: nat)
    requires i <= |ls|
    ensures forall k | 0 <= k < |Blocks(ls, i)| :: i <= Blocks(ls, i)[k].open < Blocks(ls, i)[k].close < |ls|
  {
    BlocksMatch(ls, i);
    hide Covered, OpenFence, IsClosingFence, Blocks;
    var bs := Blocks(ls, i);
    assert forall k | 0 <= k < |bs| :: Closes(ls, bs[k].open, bs[k].close);
  }

  function FencedRanges(body: string): (r: seq<Range>)
    ensures |r| == |Blocks(Lines(body), 0)|
  {
    var ls := Lines(body);
    var bs := Blocks(ls, 0);
    BlocksInBounds(ls, 0);
    seq(|bs|, k requires 0 <= k < |bs| => BlockRange(ls, bs[k]))
  }

  method FencedCodeRanges(body: string) returns (ranges: seq<Range>)
    ensures ranges == FencedRanges(body)
  {
    ranges := [];
    var ls := Lines(body);
    BlocksInBounds(ls, 0);
    ghost var found := [];
    hide Lines, OpenFence, FindClose, BlockRange;
    var i := 0;
    while i < |ls|
      invariant 0 <= i <= |ls|
      invariant found + Blocks(ls, i) == Blocks(ls, 0)
      invariant |found| == |ranges| && forall k | 0 <= k < |found| ::
        found[k].open < |ls| && found[k].close < |ls| && ranges[k] == BlockRange(ls, found[k])
      decreases |ls| - i
    {
      match OpenFence(ls[i]) {
        case None => i := i + 1;
        case Some(fence) =>
          match FindClose(ls, i + 1, fence) {
            case None => i := i + 1;
            case Some(j) =>
              ranges := ranges + [BlockRange(ls, Block(i, j))];
              found := found + [Block(i, j)];
              i := j + 1;
          }
      }
    }
    assert found == Blocks(ls, 0);
  }

  // ---- text after the end ----

  ghost predicate IsMark(c: char) {
    c == '`' || c == '~'
  }

  ghost predicate NoMarks(s: string) {
    '`' !in s && '~' !in s
  }

  lemma {:induction false} RunBeforeBlanks(line: string, blanks: string, mark: char)
    requires IsMark(mark) && AllBlank(blanks)
    ensures RunLength(line + blanks, mark) == RunLength(line, mark)
  {
    if line == "" {
      assert line + blanks == blanks;
    } else {
      assert (line + blanks)[1..] == line[1..] + blanks;
      RunBeforeBlanks(line[1..], blanks, mark);
    }
  }

  /** Trailing blanks change neither what a line opens nor what it closes. */
  lemma FenceBeforeBlanks(line: string, blanks: string, fence: Fence)
    requires AllBlank(blanks) && IsMark(fence.mark)
    ensures OpenFence(line + blanks) == OpenFence(line)
    ensures IsClosingFence(line + blanks, fence) == IsClosingFence(line, fence)
  {
    RunBeforeBlanks(line, blanks, fence.mark);
    RunBeforeBlanks(line, blanks, '`');
    RunBeforeBlanks(line, blanks, '~');
    if line == "" { assert line + blanks == blanks; }
    if RunLength(line, fence.mark) == fence.run {
      assert (line + blanks)[fence.run..] == line[fence.run..] + blanks;
      BlankConcat(line[fence.run..], blanks);
    }
  }

  lemma BlankConcat(a: string, b: string)
    requires AllBlank(b)
    ensures AllBlank(a + b) <==> AllBlank(a)
  {
    if AllBlank(a + b) {
      forall i | 0 <= i < |a| ensures IsWhitespace(a[i]) { assert (a + b)[i] == a[i]; }
    }
  }

  lemma {:induction false} NoRun(line: string, mark: char)
    requires mark !in line
    ensures RunLength(line, mark) == 0
  {
  }

  lemma NoFence(line: string, fence: Fence)
    requires NoMarks(line) && IsMark(fence.mark) && fence.run >= 3
    ensures OpenFence(line).None? && !IsClosingFence(line, fence)
  {
    NoRun(line, fence.mark);
    NoRun(line, '`');
    NoRun(line, '~');
  }

  lemma OpenedFence(line: string)
    requires OpenFence(line).Some?
    ensures IsMark(OpenFence(line).value.mark) && OpenFence(line).value.run >= 3
  {
  }

  /** `b` is `a` with blanks after its last line and more lines without fence marks. */
  ghost predicate Continues(a: seq<string>, b: seq<string>) {
    && 1 <= |a| <= |b|
    && (forall k | 0 <= k < |a| - 1 :: b[k] == a[k])
    && (exists blanks :: AllBlank(blanks) && b[|a| - 1] == a[|a| - 1] + blanks)
    && (forall k | |a| <= k < |b| :: NoMarks(b[k]))
  }

  lemma SameFences(a: seq<string>, b: seq<string>, k: nat, fence: Fence)
    requires Continues(a, b) && k < |a| && IsMark(fence.mark)
    ensures OpenFence(b[k]) == OpenFence(a[k])
    ensures IsClosingFence(b[k], fence) == IsClosingFence(a[k], fence)
  {
    if k == |a| - 1 {
      var blanks :| AllBlank(blanks) && b[|a| - 1] == a[|a| - 1] + blanks;
      FenceBeforeBlanks(a[k], blanks, fence);
    }
  }

  lemma {:induction false} NoCloseAfter(a: seq<string>, b: seq<string>, from: nat, fence: Fence)
    requires Continues(a, b) && |a| <= from <= |b| && IsMark(fence.mark) && fence.run >= 3
    ensures FindClose(b, from, fence) == None
    decreases |b| - from
  {
    if from < |b| {
      NoFence(b[from], fence);
      hide IsClosingFence, OpenFence;
      NoCloseAfter(a, b, from + 1, fence);
    }
  }

  lemma {:induction false} SameClose(a: seq<string>, b: seq<string>, from: nat, fence: Fence)
    requires Continues(a, b) && from <= |a| && IsMark(fence.mark) && fence.run >= 3
    ensures FindClose(b, from, fence) == FindClose(a, from, fence)
    decreases |a| - from
  {
    assert |a| <= |b|;
    hide IsClosingFence, OpenFence, Continues;
    if from == |a| {
      NoCloseAfter(a, b, from, fence);
    } else {
      SameFences(a, b, from, fence);
      SameClose(a, b, from + 1, fence);
    }
  }

  lemma {:induction false} NoBlocksAfter(a: seq<string>, b: seq<string>, i: nat)
    requires Continues(a, b) && |a| <= i <= |b|
    ensures Blocks(b, i) == []
    decreases |b| - i
  {
    if i < |b| {
      NoFence(b[i], Fence('`', 3));
      hide IsClosingFence, OpenFence;
      NoBlocksAfter(a, b, i + 1);
    }
  }

  lemma {:induction false} SameBlocks(a: seq<string>, b: seq<string>, i: nat)
    requires Continues(a, b) && i <= |a|
    ensures Blocks(b, i) == Blocks(a, i)
    decreases |a| - i
  {
    assert |a| <= |b|;
    hide IsClosingFence, OpenFence, Continues, FindClose;
    if i == |a| {
      NoBlocksAfter(a, b, i);
    } else {
      SameFences(a, b, i, Fence('`', 3));
      if OpenFence(a[i]).Some? {
        OpenedFence(a[i]);
        SameClose(a, b, i + 1, OpenFence(a[i]).value);
        if j :| FindClose(a, i + 1, OpenFence(a[i]).value) == Some(j) {
          SameBlocks(a, b, j + 1);
        } else {
          SameBlocks(a, b, i + 1);
        }
      } else {
        SameBlocks(a, b, i + 1);
      }
    }
  }

  lemma {:induction false} SameOffset(a: seq<string>, b: seq<string>, k: nat)
    requires k <= |a| && k <= |b| && forall i | 0 <= i < k :: b[i] == a[i]
    ensures Offset(b, k) == Offset(a, k)
  {
    if k > 0 { SameOffset(a, b, k - 1); }
  }

  lemma {:induction false} OffsetCons(first: string, ls: seq<string>, k: nat)
    requires k <= |ls|
    ensures Offset([first] + ls, k + 1) == |first| + 1 + Offset(ls, k)
  {
    if k > 0 { OffsetCons(first, ls, k - 1); }
  }

  lemma {:induction false} OffsetMonotone(ls: seq<string>, i: nat, j: nat)
    requires i <= j <= |ls|
    ensures Offset(ls, i) + (j - i) <= Offset(ls, j)
  {
    if i < j { OffsetMonotone(ls, i, j - 1); }
  }

  /** The lines of a text end where the text ends. */
  lemma {:induction false} LinesSpan(s: string)
    ensures var ls := Lines(s); Offset(ls, |ls| - 1) + |ls[|ls| - 1]| == |s|
  {
    if s != "" {
      LinesSpan(s[1..]);
      SpanPrepend(s[0], Lines(s[1..]));
      hide Offset, Prepend;
    }
  }

  lemma SpanPrepend(c: char, ls: seq<string>)
    requires |ls| >= 1
    ensures var r := Prepend(c, ls);
            Offset(r, |r| - 1) + |r[|r| - 1]| == Offset(ls, |ls| - 1) + |ls[|ls| - 1]| + 1
  {
    if c == '\n' {
      OffsetCons("", ls, |ls| - 1);
    } else if |ls| > 1 {
      OffsetCons([c] + ls[0], ls[1..], |ls| - 2);
      OffsetCons(ls[0], ls[1..], |ls| - 2);
      assert [ls[0]] + ls[1..] == ls;
    }
  }

  /** `b` is `a`, or both reach the end of the old text and `b` runs on by at most `more`. */
  ghost predicate SameUpTo(a: Range, b: Range, limit: nat, more: nat) {
    b.start == a.start && a.end <= limit && (b.end == a.end || (a.end == limit && limit <= b.end <= limit + more))
  }

  lemma SameRange(a: seq<string>, b: seq<string>, block: Block, more: nat)
    requires Continues(a, b) && block.open < block.close < |a| && |b[|a| - 1]| == |a[|a| - 1]| + more
    ensures SameUpTo(BlockRange(a, block), BlockRange(b, block), Offset(a, |a| - 1) + |a[|a| - 1]|, more)
  {
    SameOffset(a, b, block.open);
    SameOffset(a, b, block.close);
    if block.close < |a| - 1 { OffsetMonotone(a, block.close + 1, |a| - 1); }
  }

  /** Blanks and mark-free lines after a text leave its fenced ranges as they were. */
  lemma SameFencedRanges(x: string, y: string)
    requires NoMarks(y) && AllBlank(Lines(y)[0])
    ensures var a, b := FencedRanges(x), FencedRanges(x + y);
      |a| == |b| && forall k | 0 <= k < |a| :: SameUpTo(a[k], b[k], |x|, |Lines(y)[0]|)
  {
    hide Lines, Continues, Blocks, BlockRange, SameUpTo, Offset, Glue, AllBlank;
    var a, b := Lines(x), Lines(x + y);
    LinesConcat(x, y);
    LineScalars(y);
    ContinuesConcat(a, Lines(y));
    LinesSpan(x);
    SameBlocks(a, b, 0);
    BlocksInBounds(a, 0);
    forall k | 0 <= k < |FencedRanges(x)|
      ensures SameUpTo(FencedRanges(x)[k], FencedRanges(x + y)[k], |x|, |Lines(y)[0]|)
    {
      SameRange(a, b, Blocks(a, 0)[k], |Lines(y)[0]|);
    }
  }

  lemma ContinuesConcat(a: seq<string>, c: seq<string>)
    requires |a| >= 1 && |c| >= 1 && AllBlank(c[0]) && forall k | 1 <= k < |c| :: NoMarks(c[k])
    ensures Continues(a, Glue(a, c)) && |Glue(a, c)[|a| - 1]| == |a[|a| - 1]| + |c[0]|
  {
    hide NoMarks, AllBlank;
    var b := Glue(a, c);
    assert b[|a| - 1] == a[|a| - 1] + c[0];
    assert forall k | |a| <= k < |b| :: b[k] == c[k - |a| + 1];
  }

  // ---- the ranges as stretches of the text ----

  lemma RangeEnds(ls: seq<string>, b: Block)
    requires b.open <= b.close < |ls|
    ensures BlockRange(ls, b).start <= BlockRange(ls, b).end
    ensures BlockRange(ls, b).end + 1 == Offset(ls, b.close + 1)
    ensures BlockRange(ls, b).end <= Offset(ls, |ls| - 1) + |ls[|ls| - 1]|
  {
    OffsetMonotone(ls, b.open, b.close);
    if b.close < |ls| - 1 { OffsetMonotone(ls, b.close + 1, |ls| - 1); }
  }

  /** Fenced ranges lie inside the text, in order, with at least a line break between two of them. */
  lemma FencedRangesApart(body: string)
    ensures var rs := FencedRanges(body);
      && (forall k | 0 <= k < |rs| :: rs[k].start <= rs[k].end <= |body|)
      && (forall k, m | 0 <= k < m < |rs| :: rs[k].end < rs[m].start)
  {
    hide *;
    forall k | 0 <= k < |FencedRanges(body)|
      ensures FencedRanges(body)[k].start <= FencedRanges(body)[k].end <= |body|
    {
      FencedRangeInside(body, k);
    }
    forall k, m | 0 <= k < m < |FencedRanges(body)| ensures FencedRanges(body)[k].end < FencedRanges(body)[m].start {
      FencedRangesInOrder(body, k, m);
    }
  }

  lemma FencedRangeInside(body: string, k: nat)
    requires k < |FencedRanges(body)|
    ensures FencedRanges(body)[k].start <= FencedRanges(body)[k].end <= |body|
  {
    var ls := Lines(body);
    BlocksInBounds(ls, 0);
    LinesSpan(body);
    hide Lines, Blocks, Offset, BlockRange;
    RangeEnds(ls, Blocks(ls, 0)[k]);
  }

  lemma FencedRangesInOrder(body: string, k: nat, m: nat)
    requires k < m < |FencedRanges(body)|
    ensures FencedRanges(body)[k].end < FencedRanges(body)[m].start
  {
    var ls := Lines(body);
    BlocksInBounds(ls, 0);
    BlocksMatch(ls, 0);
    BlocksInOrder(ls, Blocks(ls, 0));
    hide Lines, Blocks, Offset, BlockRange, IsMatching;
    RangesApart(ls, Blocks(ls, 0)[k], Blocks(ls, 0)[m]);
  }

  lemma BlocksInOrder(ls: seq<string>, bs: seq<Block>)
    requires IsMatching(ls, 0, bs)
    ensures forall k, m | 0 <= k < m < |bs| :: bs[k].close < bs[m].open
  {
  }

  lemma RangesApart(ls: seq<string>, a: Block, b: Block)
    requires a.open <= a.close < b.open <= b.close < |ls|
    ensures BlockRange(ls, a).end < BlockRange(ls, b).start
  {
    RangeEnds(ls, a);
    OffsetMonotone(ls, a.close + 1, b.open);
    hide Offset;
  }
}

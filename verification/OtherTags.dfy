/**
 What a removal does to the other tags of a note (content/edits.rs): as long as the fences stay what
 they were, every other tag stays; and a body whose fences change, so that one of them is lost.
 */
module OtherTags {
  import opened Text
  import opened Fences
  import opened Tags
  import opened RemoveTag
  import opened UncoveredTags
  import opened Frontmatter
  import opened SlidCode

  // ---- no other tag is lost ----

  /** The last scalar kept before a position, and the cut between them. */
  lemma LastKept(b: string, rs: seq<Range>, q: nat) returns (p: nat)
    requires q <= |b| && KeptTo(b, rs, q) != ""
    ensures p < q && !In(p, rs) && b[p] == KeptTo(b, rs, q)[|KeptTo(b, rs, q)| - 1]
    ensures forall x | p < x < q :: In(x, rs)
  {
    hide In, Pos, KeptTo;
    p := KeptOrigin(b, rs, |KeptTo(b, rs, q)| - 1, q);
    PosIs(b, rs, p);
    PosIs(b, rs, q);
    PosStep(b, rs, p);
    forall x | p < x < q ensures In(x, rs) {
      PosMonotone(b, rs, p + 1, x);
      PosStep(b, rs, x);
      PosMonotone(b, rs, x + 1, q);
    }
  }

  /** What a removal cuts behind a kept scalar that is not blank ends before any other tag's blank. */
  lemma GapIsShort(b: string, tag: string, n: Range, p: nat)
    requires IsMatch(b, n) && PrecededOk(b, n.start) && !Goes(b, tag, n) && p + 1 < n.start <= |b|
    requires !In(p, Removed(b, tag)) && !IsWhitespace(b[p])
    ensures exists x :: p < x < n.start && !In(x, Removed(b, tag))
  {
    var q := p + 1;
    hide Removed, In, Removal, Goes, IsMatch, IsWhitespace, IsHorizontal, IsTagChar, StandsAlone;
    if In(q, Removed(b, tag)) {
      InRemoved(b, tag, q);
      InRemoved(b, tag, p);
      var m :| Goes(b, tag, m) && m.start < m.end <= |b| && Within(q, Removal(b, m));
      GoesShape(b, tag, m);
      GapShape(b, m, q);
      GapEndsBefore(b, tag, m, n);
      EndKept(b, tag, m);
      assert p < m.end < n.start;
    }
  }

  lemma GapEndsBefore(b: string, tag: string, m: Range, n: Range)
    requires Goes(b, tag, m) && IsOccurrence(b, m) && IsMatch(b, n) && !Goes(b, tag, n) && PrecededOk(b, n.start)
    requires n.start <= |b| && m.start <= n.start
    ensures m.end < n.start
  {
    MatchSplits(b, n);
    HorizontalIsBlank(b[m.end - 1]);
    if n.start < m.end { SameMatch(b, m, n, n.start); }
    hide IsWhitespace, IsHorizontal, CodeRanges;
  }

  /** A match behind a blank stays behind a blank, or comes to stand at the start. */
  lemma BlankStays(b: string, tag: string, n: Range)
    requires IsMatch(b, n) && PrecededOk(b, n.start) && !Goes(b, tag, n) && n.start <= |b|
    ensures AtBlank(KeptTo(b, Removed(b, tag), n.start))
  {
    hide Removed, In, KeptTo, Goes, IsMatch, IsWhitespace;
    var rs := Removed(b, tag);
    if KeptTo(b, rs, n.start) != "" {
      var p := LastKept(b, rs, n.start);
      if p + 1 < n.start && !IsWhitespace(b[p]) {
        GapIsShort(b, tag, n, p);
        assert false;
      }
    }
  }

  lemma TagEmerges(body: string, tag: string, name: string) returns (n: Range)
    requires PlainEndings(body) && name != tag && HasTag(Normalize(body), name)
    ensures Emerges(body, tag, n) && Name(body, n) == name
  {
    hide CodeRanges, IsMatch, Normalize, Removed, KeptTo, OverlapsAny, Name, Moved, AtBlank, PlainEndings;
    var moved :| IsMatch(Normalize(body), moved) && IsTag(Normalize(body), moved, CodeRanges(Normalize(body)))
                 && Name(Normalize(body), moved) == name;
    n := MatchOrigin(body, moved);
    MatchMoves(body, n);
    MovedIsCode(body, n);
    BlankStays(body, tag, n);
  }

  /** A removal that leaves the fences alone takes no other tag from the note. */
  lemma OtherTagsStay(body: string, tag: string, name: string)
    requires PlainEndings(body) && FencesStay(body, Removed(body, tag))
    requires name != tag && name in ExtractTags(body)
    ensures name in ExtractTags(Left(body, tag))
  {
    hide ExtractTags, Left, FencesStay, Removed, Name, HasTag, Emerges, PlainEndings, Normalize;
    ExtractedIff(body, name);
    var n := TagEmerges(body, tag, name);
    TagsOutsideCode(body, tag, name);
  }

  // ---- where a line stops being more than a fence ----

  lemma ThreeLines(a: string, b: string, c: string) returns (s: string)
    requires OneLine(a) && OneLine(b) && OneLine(c)
    ensures s == a + "\n" + b + "\n" + c && Lines(s) == [a, b, c]
  {
    hide Lines;
    s := Join([a, b, c]);
    LinesJoin([a, b, c]);
    assert [a, b, c][1..] == [b, c] && [b, c][1..] == [c];
    assert Join([b, c]) == b + "\n" + c;
    assert a + "\n" + (b + "\n" + c) == a + "\n" + b + "\n" + c;
  }

  lemma TildesThen(line: string)
    requires |line| >= 4 && line[..3] == "~~~" && line[3] == ' '
    ensures OpenFence(line) == Some(Fence('~', 3)) && RunLength(line, '~') == 3
  {
    assert line[0] == line[..3][0] && line[1] == line[..3][1] && line[2] == line[..3][2];
    assert RunLength(line[3..], '~') == 0;
    assert RunLength(line[2..], '~') == 1 by { assert line[2..][1..] == line[3..]; }
    assert RunLength(line[1..], '~') == 2 by { assert line[1..][1..] == line[2..]; }
  }

  lemma TildesThenTag(line: string)
    requires line == "~~~ #a"
    ensures OpenFence(line) == Some(Fence('~', 3)) && !IsClosingFence(line, Fence('~', 3))
  {
    TildesThen(line);
    assert line[3..][1] == '#';
  }

  lemma NoBlocksYet(ls: seq<string>)
    requires ls == ["~~~ x", "#b", "~~~ #a"]
    ensures Blocks(ls, 0) == []
  {
    TildesThen(ls[0]);
    HashLine(ls[1]);
    TildesThenTag(ls[2]);
    hide OpenFence, IsClosingFence;
    assert FindClose(ls, 3, Fence('~', 3)) == None;
    assert FindClose(ls, 2, Fence('~', 3)) == None;
    assert FindClose(ls, 1, Fence('~', 3)) == None;
    assert Blocks(ls, 3) == [];
    assert Blocks(ls, 2) == [];
    assert Blocks(ls, 1) == [];
  }

  lemma OneBlockNow(ls: seq<string>)
    requires ls == ["~~~ x", "#b", "~~~"]
    ensures Blocks(ls, 0) == [Block(0, 2)]
  {
    TildesThen(ls[0]);
    HashLine(ls[1]);
    ThreeTildes();
    hide OpenFence, IsClosingFence;
    assert FindClose(ls, 2, Fence('~', 3)) == Some(2);
    assert FindClose(ls, 1, Fence('~', 3)) == Some(2);
    assert Blocks(ls, 3) == [];
    assert Blocks(ls, 0) == [Block(0, 2)] + [];
  }

  lemma NoCodeYet(b: string)
    requires b == "~~~ x\n#b\n~~~ #a"
    ensures CodeRanges(b) == []
  {
    hide Lines, Blocks, InlineSpans;
    var s := ThreeLines("~~~ x", "#b", "~~~ #a");
    assert s == b;
    NoBlocksYet(["~~~ x", "#b", "~~~ #a"]);
    NoTickAfter("", b, 0);
    assert "" + b == b;
  }

  lemma AllCodeNow(out: string)
    requires out == "~~~ x\n#b\n~~~"
    ensures CodeRanges(out) == [Range(0, 12)]
  {
    hide Lines, Blocks, CodeRanges, Offset;
    var s := ThreeLines("~~~ x", "#b", "~~~");
    assert s == out;
    var ls := ["~~~ x", "#b", "~~~"];
    OneBlockNow(ls);
    CodeIsFenced(out, ls, Block(0, 2));
    LastOffset(ls);
  }

  lemma LastOffset(ls: seq<string>)
    requires ls == ["~~~ x", "#b", "~~~"]
    ensures Offset(ls, 0) == 0 && Offset(ls, 2) == 9
  {
    assert Offset(ls, 1) == 6;
  }

  lemma LastNotAlone(b: string)
    requires b == "~~~ x\n#b\n~~~ #a"
    ensures Removal(b, Range(13, 15)) == Range(12, 15)
  {
    LineStartIsStart(b, 13);
    assert b[8] == '\n' && b[11] == '~';
    hide StandsAlone, LineStart, LineEnd;
    if StandsAlone(b, Range(13, 15)) {
      AloneOnLine(b, Range(13, 15));
      assert false;
    }
  }

  lemma LastGoes(b: string, p: nat)
    requires b == "~~~ x\n#b\n~~~ #a"
    ensures In(p, Removed(b, "a")) <==> 12 <= p < 15
  {
    var last := Range(13, 15);
    NoCodeYet(b);
    LastNotAlone(b);
    LastCounts(b);
    InRemoved(b, "a", p);
    forall m | Goes(b, "a", m) ensures m == last { OnlyLastGoes(b, m); }
    hide Removal, Goes, IsMatch, Removed, CodeRanges, In;
  }

  lemma LastCounts(b: string)
    requires b == "~~~ x\n#b\n~~~ #a" && CodeRanges(b) == []
    ensures Goes(b, "a", Range(13, 15))
  {
    hide CodeRanges;
    TagEndAt(b, 14, 15);
    assert IsMatch(b, Range(13, 15)) && Name(b, Range(13, 15)) == "a";
  }

  lemma OnlyLastGoes(b: string, m: Range)
    requires b == "~~~ x\n#b\n~~~ #a" && Goes(b, "a", m)
    ensures m == Range(13, 15)
  {
    hide CodeRanges;
    MatchSplits(b, m);
    assert b[m.start] == '#';
    assert m.start == 6 || m.start == 13;
    assert Name(b, m)[0] == b[m.start + 1];
    TagEndAt(b, 14, 15);
  }

  lemma LastLeaves(b: string, out: string)
    requires b == "~~~ x\n#b\n~~~ #a" && out == "~~~ x\n#b\n~~~"
    ensures Left(b, "a") == out
  {
    hide Removed, In;
    forall p: nat ensures In(p, Removed(b, "a")) <==> 12 <= p < 15 { LastGoes(b, p); }
    var rs := Removed(b, "a");
    KeepStretch(b, 0, 12, rs);
    KeepStretch(b, 12, 15, rs);
    assert Keep(b, 15, rs) == "";
    hide Keep;
    assert b[0..12] == out;
  }

  lemma OtherBefore(b: string)
    requires b == "~~~ x\n#b\n~~~ #a"
    ensures HasTag(b, "b") && '\r' !in b
  {
    NoCodeYet(b);
    hide CodeRanges;
    TagEndAt(b, 7, 8);
    var m := Range(6, 8);
    assert IsMatch(b, m) && IsTag(b, m, CodeRanges(b)) && Name(b, m) == "b";
  }

  lemma NoTagAfter(out: string)
    requires out == "~~~ x\n#b\n~~~"
    ensures !HasTag(out, "b") && '\r' !in out
  {
    AllCodeNow(out);
    hide CodeRanges;
    forall m | IsMatch(out, m) ensures !IsTag(out, m, CodeRanges(out)) {
      MatchSplits(out, m);
      assert Overlaps(m, CodeRanges(out)[0]);
    }
  }

  lemma NotExtracted(s: string, name: string)
    requires !HasTag(s, name) && '\r' !in s
    ensures name !in ExtractTags(s)
  {
    hide ExtractTags, Normalize, HasTag;
    NormalizeWithoutCr(s);
    ExtractedIff(s, name);
  }

  /** Cutting `#a` leaves nothing but a fence, which closes what was open: the note loses its tag `b` too. */
  lemma RemovalCanHideTag()
    ensures var body := "~~~ x\n#b\n~~~ #a";
      "b" in ExtractTags(body) && "b" !in ExtractTags(Left(body, "a")) && '\r' !in body
  {
    var body, out := "~~~ x\n#b\n~~~ #a", "~~~ x\n#b\n~~~";
    hide *;
    LastLeaves(body, out);
    OtherBefore(body);
    NoTagAfter(out);
    NoCrExtracted(body, "b");
    NotExtracted(out, "b");
  }
}

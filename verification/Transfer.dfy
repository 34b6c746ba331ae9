/**
 The note type in a leading `---` fence (transfer.rs): written by export, read back by import.
 */
module Transfer {
  import opened Text

  function TrimStartAll(s: string): (r: string)
    ensures |r| <= |s|
  {
    if s != "" && IsWhitespace(s[0]) then TrimStartAll(s[1..]) else s
  }

  /** Rust's `str::trim`. */
  function TrimAll(s: string): string {
    TrimEndAll(TrimStartAll(s))
  }

  lemma {:induction false} TrimStartAllBlanks(s: string)
    ensures TrimStartAll(s) == s[|s| - |TrimStartAll(s)|..]
    ensures forall i | 0 <= i < |s| - |TrimStartAll(s)| :: IsWhitespace(s[i])
    ensures TrimStartAll(s) == "" || !IsWhitespace(TrimStartAll(s)[0])
  {
    hide IsWhitespace;
    if s != "" && IsWhitespace(s[0]) {
      TrimStartAllBlanks(s[1..]);
      assert forall i :: 0 < i < |s| ==> s[i] == s[1..][i - 1];
    }
  }

  lemma TrimAllIs(s: string)
    ensures IsTrimAllOf(s, TrimAll(s))
  {
    hide IsWhitespace;
    var t := TrimStartAll(s);
    TrimStartAllBlanks(s);
    TrimEndAllBlanks(t);
    var i := |s| - |t|;
    var j := i + |TrimEndAll(t)|;
    forall k | j <= k < |s| ensures IsWhitespace(s[k]) { assert s[k] == t[|TrimEndAll(t)|..][k - j]; }
    assert TrimAll(s) == t[..|TrimEndAll(t)|] == s[i..j];
    hide TrimStartAll, TrimEndAll, TrimAll;
    if i < j { assert t[0] == s[i] && t[|TrimEndAll(t)| - 1] == s[j - 1]; }
  }

  lemma BlankTrims(s: string)
    ensures AllBlank(s) <==> TrimAll(s) == ""
  {
    hide IsWhitespace, TrimAll;
    TrimAllIs(s);
    var i, j :|
      && 0 <= i <= j <= |s| && TrimAll(s) == s[i..j]
      && (forall k | 0 <= k < i || j <= k < |s| :: IsWhitespace(s[k]))
      && (TrimAll(s) == "" || (!IsWhitespace(s[i]) && !IsWhitespace(s[j - 1])));
  }

  predicate IsDashes(line: string) {
    TrimEndAll(line) == "---"
  }

  function FindDashes(ls: seq<string>, k: nat): (r: Option<nat>)
    requires k <= |ls|
    ensures r.Some? ==> k <= r.value < |ls|
    decreases |ls| - k
  {
    if k == |ls| then None else if IsDashes(ls[k]) then Some(k) else FindDashes(ls, k + 1)
  }

  /** Some line before the closing dashes is a `type:` line, indented or not. */
  predicate DeclaresType(ls: seq<string>)
    requires |ls| >= 1
  {
    && IsDashes(ls[0])
    && var close := FindDashes(ls, 1);
    && close.Some?
    && exists k | 1 <= k < close.value :: "type:" <= TrimStartAll(ls[k])
  }

  function WithType(body: string, noteType: string): string {
    var ls := Lines(body);
    if !IsDashes(ls[0]) || FindDashes(ls, 1).None? then "---\ntype: " + noteType + "\n---\n\n" + body
    else if DeclaresType(ls) then body
    else Join([ls[0], "type: " + noteType] + ls[1..])
  }

  function TypeFrom(ls: seq<string>, k: nat): Option<string>
    requires k <= |ls|
    decreases |ls| - k
  {
    if k == |ls| || IsDashes(ls[k]) then None
    else if "type:" <= ls[k] then Some(TrimAll(ls[k][5..]))
    else TypeFrom(ls, k + 1)
  }

  function TypeIn(body: string): Option<string> {
    var ls := Lines(body);
    if IsDashes(ls[0]) then TypeFrom(ls, 1) else None
  }

  // ---- reading back what was written ----

  lemma TrimSpace(s: string)
    ensures TrimAll(" " + s) == TrimAll(s)
  {
    assert (" " + s)[1..] == s;
  }

  lemma TypeLineIsNoDashes(value: string)
    ensures !IsDashes("type: " + value)
  {
    TrimEndAllBlanks("type: " + value);
  }

  lemma LinesAfter(first: string, rest: string)
    requires OneLine(first)
    ensures Lines(first + "\n" + rest) == [first] + Lines(rest)
  {
    LinesOfOneLine(first);
    LinesConcat(first, "\n" + rest);
    assert ("\n" + rest)[1..] == rest;
    assert first + ("\n" + rest) == first + "\n" + rest && first + "" == first;
  }

  lemma FirstLine(x: string, y: string)
    ensures Lines(x + "\n" + y)[0] == Lines(x)[0]
  {
    LinesConcat(x, "\n" + y);
    assert Lines("\n" + y)[0] == "";
    assert x + "\n" + y == x + ("\n" + y) && Lines(x)[0] + "" == Lines(x)[0];
  }

  lemma FirstLineAfter(x: string, y: string)
    requires OneLine(x)
    ensures Lines(x + y)[0] == x + Lines(y)[0]
  {
    LinesOfOneLine(x);
    LinesConcat(x, y);
  }

  /** A `type:` line right under opening dashes is what is read, whatever follows. */
  lemma TypeUnderDashes(first: string, noteType: string, rest: string)
    requires OneLine(first) && IsDashes(first)
    ensures TypeIn(first + "\n" + ("type: " + noteType + "\n" + rest)) == Some(TrimAll(Lines(noteType)[0]))
  {
    var second := "type: " + noteType + "\n" + rest;
    LinesAfter(first, second);
    FirstLineAfter("type: ", noteType);
    FirstLine("type: " + noteType, rest);
    TypeLineIsNoDashes(Lines(noteType)[0]);
    TrimSpace(Lines(noteType)[0]);
    var value := Lines(noteType)[0];
    hide Lines, TrimAll, IsDashes;
    var ls := Lines(first + "\n" + second);
    assert ls[1] == "type: " + value;
    assert ls[1][5..] == " " + value;
  }

  lemma Dashes()
    ensures IsDashes("---")
  {
  }

  lemma TypeOfPrepended(body: string, noteType: string)
    ensures TypeIn("---\ntype: " + noteType + "\n---\n\n" + body) == Some(TrimAll(Lines(noteType)[0]))
  {
    Dashes();
    hide TypeIn, Lines, TrimAll, IsDashes;
    TypeUnderDashes("---", noteType, "---\n\n" + body);
    assert "---" + "\n" + ("type: " + noteType + "\n" + ("---\n\n" + body))
        == "---\ntype: " + noteType + "\n---\n\n" + body;
  }

  lemma TypeOfInserted(ls: seq<string>, noteType: string)
    requires |ls| > 1 && OneLine(ls[0]) && IsDashes(ls[0])
    ensures TypeIn(Join([ls[0], "type: " + noteType] + ls[1..])) == Some(TrimAll(Lines(noteType)[0]))
  {
    hide TypeIn, Lines, TrimAll, IsDashes;
    TypeUnderDashes(ls[0], noteType, Join(ls[1..]));
    var under := ["type: " + noteType] + ls[1..];
    assert under[1..] == ls[1..];
    assert ([ls[0]] + under)[1..] == under && [ls[0], "type: " + noteType] + ls[1..] == [ls[0]] + under;
  }

  /**
   Export then import keeps the type the fence already declares, or else yields the first line
   of the note's type, trimmed: a trimmed one-line type comes back as it was.
   */
  lemma TypeReadBack(body: string, noteType: string)
    ensures TypeIn(WithType(body, noteType))
         == if DeclaresType(Lines(body)) then TypeIn(body) else Some(TrimAll(Lines(noteType)[0]))
  {
    var ls := Lines(body);
    hide TypeIn, TrimAll, IsDashes, FindDashes, Join, Lines;
    TypeOfPrepended(body, noteType);
    if IsDashes(ls[0]) && FindDashes(ls, 1).Some? { TypeOfInserted(ls, noteType); }
  }

  /** The exact inverse the export promises: true of every body whose fence declares no type. */
  lemma TypeRoundTrip(body: string, noteType: string)
    requires OneLine(noteType) && !DeclaresType(Lines(body))
    ensures TypeIn(WithType(body, noteType)) == Some(noteType) <==> TrimAll(noteType) == noteType
  {
    TypeReadBack(body, noteType);
    LinesOfOneLine(noteType);
  }

  // ---- the note is still there ----

  /** Three dashes and nothing but whitespace after them. */
  ghost predicate DashedLine(line: string) {
    "---" <= line && AllBlank(line[3..])
  }

  /** The lines open with a fence that line `n` closes. */
  ghost predicate FenceTo(ls: seq<string>, n: nat) {
    1 <= n < |ls| && DashedLine(ls[0]) && DashedLine(ls[n]) && forall k | 1 <= k < n :: !DashedLine(ls[k])
  }

  /** A `type:` line, indented or not. */
  ghost predicate TypeLine(line: string) {
    exists i | 0 <= i <= |line| :: AllBlank(line[..i]) && "type:" <= line[i..]
  }

  ghost predicate FenceSaysType(ls: seq<string>) {
    exists n: nat, k: nat :: FenceTo(ls, n) && 1 <= k < n && TypeLine(ls[k])
  }

  lemma DashesIff(line: string)
    ensures IsDashes(line) <==> DashedLine(line)
  {
    TrimEndAllBlanks(line);
    hide IsWhitespace;
    var t := TrimEndAll(line);
    forall k | |t| <= k < |line| ensures IsWhitespace(line[k]) { assert line[k] == line[|t|..][k - |t|]; }
    if DashedLine(line) {
      assert line[..3] == "---" && line[2] == '-';
      NotBlank('-');
      forall k | 3 <= k < |line| ensures IsWhitespace(line[k]) { assert line[k] == line[3..][k - 3]; }
      assert |t| == 3;
    }
  }

  lemma NotBlank(c: char)
    requires c == '-' || c == 't'
    ensures !IsWhitespace(c)
  {
  }

  lemma TypeLineIff(line: string)
    ensures "type:" <= TrimStartAll(line) <==> TypeLine(line)
  {
    TrimStartAllBlanks(line);
    hide IsWhitespace;
    var at := |line| - |TrimStartAll(line)|;
    if "type:" <= TrimStartAll(line) {
      assert AllBlank(line[..at]);
    }
    if i :| 0 <= i <= |line| && AllBlank(line[..i]) && "type:" <= line[i..] {
      NotBlank('t');
      assert line[i] == line[i..][0] == 't';
      forall q | 0 <= q < i ensures IsWhitespace(line[q]) { assert line[q] == line[..i][q]; }
      assert i == at;
    }
  }

  lemma {:induction false} FindDashesIs(ls: seq<string>, k: nat)
    requires k <= |ls|
    ensures match FindDashes(ls, k)
      case Some(n) => DashedLine(ls[n]) && forall j | k <= j < n :: !DashedLine(ls[j])
      case None => forall j | k <= j < |ls| :: !DashedLine(ls[j])
    decreases |ls| - k
  {
    hide DashedLine, IsDashes;
    if k < |ls| {
      DashesIff(ls[k]);
      FindDashesIs(ls, k + 1);
    }
  }

  lemma FenceIff(ls: seq<string>)
    requires |ls| >= 1
    ensures IsDashes(ls[0]) && FindDashes(ls, 1).Some? <==> exists n: nat :: FenceTo(ls, n)
    ensures forall n: nat | FenceTo(ls, n) :: FindDashes(ls, 1) == Some(n)
  {
    hide DashedLine, IsDashes;
    DashesIff(ls[0]);
    FindDashesIs(ls, 1);
    if IsDashes(ls[0]) && FindDashes(ls, 1).Some? { assert FenceTo(ls, FindDashes(ls, 1).value); }
  }

  lemma DeclaresIff(ls: seq<string>)
    requires |ls| >= 1
    ensures DeclaresType(ls) <==> FenceSaysType(ls)
  {
    hide IsDashes, FindDashes, TypeLine, FenceTo, TrimStartAll;
    FenceIff(ls);
    forall k | 0 <= k < |ls| ensures "type:" <= TrimStartAll(ls[k]) <==> TypeLine(ls[k]) { TypeLineIff(ls[k]); }
  }

  /** What export adds to the lines of a note, and where. */
  ghost predicate Announced(ls: seq<string>, noteType: string, at: nat, added: seq<string>) {
    if FenceSaysType(ls) then at == 0 && added == []
    else if exists n: nat :: FenceTo(ls, n) then at == 1 && added == Lines("type: " + noteType)
    else at == 0 && added == ["---"] + Lines("type: " + noteType) + ["---", ""]
  }

  /** Export loses nothing: the note's lines with the announcement added in one place; without it, the note. */
  lemma ExportKeepsNote(body: string, noteType: string) returns (at: nat, added: seq<string>)
    ensures var ls, out := Lines(body), Lines(WithType(body, noteType));
      && at <= |ls| && Announced(ls, noteType, at, added)
      && out == ls[..at] + added + ls[at..]
      && Join(out[..at] + out[at + |added|..]) == body
  {
    hide Lines, Join, IsDashes, FindDashes, FenceTo, DeclaresType, TypeLine;
    var ls := Lines(body);
    FenceIff(ls);
    DeclaresIff(ls);
    JoinLines(body);
    if !IsDashes(ls[0]) || FindDashes(ls, 1).None? {
      at, added := 0, ["---"] + Lines("type: " + noteType) + ["---", ""];
      LinesPrepended(body, noteType);
    } else if DeclaresType(ls) {
      at, added := 0, [];
    } else {
      at, added := 1, Lines("type: " + noteType);
      LinesInserted(ls, noteType);
    }
    var out := Lines(WithType(body, noteType));
    assert out == ls[..at] + added + ls[at..];
    assert out[..at] + out[at + |added|..] == ls;
  }

  lemma LinesPrepended(body: string, noteType: string)
    ensures Lines("---\ntype: " + noteType + "\n---\n\n" + body)
         == ["---"] + Lines("type: " + noteType) + ["---", ""] + Lines(body)
  {
    DashesAreOneLine();
    hide Lines;
    var value := "type: " + noteType;
    LinesAfter("", body);
    LinesAfter("---", "" + "\n" + body);
    LinesThen(value, "---" + "\n" + ("" + "\n" + body));
    LinesAfter("---", value + "\n" + ("---" + "\n" + ("" + "\n" + body)));
    PrependedText(body, noteType);
    var ls, tl := Lines(body), Lines(value);
    assert ["---"] + (tl + (["---"] + ([""] + ls))) == ["---"] + tl + ["---", ""] + ls;
  }

  lemma DashesAreOneLine()
    ensures OneLine("---") && OneLine("")
  {
  }

  lemma PrependedText(body: string, noteType: string)
    ensures "---" + "\n" + ("type: " + noteType + "\n" + ("---" + "\n" + ("" + "\n" + body)))
         == "---\ntype: " + noteType + "\n---\n\n" + body
  {
    assert "---" + "\n" + ("" + "\n" + body) == "---\n\n" + body;
  }

  lemma LinesInserted(ls: seq<string>, noteType: string)
    requires |ls| > 1 && forall k | 0 <= k < |ls| :: OneLine(ls[k])
    ensures Lines(Join([ls[0], "type: " + noteType] + ls[1..])) == ls[..1] + Lines("type: " + noteType) + ls[1..]
  {
    hide Lines, OneLine;
    var value := "type: " + noteType;
    var under := [value] + ls[1..];
    assert under[1..] == ls[1..] && ([ls[0]] + under)[1..] == under && [ls[0], value] + ls[1..] == [ls[0]] + under;
    LinesJoin(ls[1..]);
    LinesThen(value, Join(ls[1..]));
    LinesAfter(ls[0], Join(under));
    assert ls[..1] == [ls[0]];
    assert [ls[0]] + (Lines(value) + ls[1..]) == [ls[0]] + Lines(value) + ls[1..];
  }

  /** The first unindented `type:` line of the fence, before dashes end it, gives the type that is read. */
  ghost predicate IsTypeIn(ls: seq<string>, noteType: Option<string>) {
    if |ls| == 0 || !DashedLine(ls[0]) then noteType == None
    else match noteType
      case Some(t) => exists k: nat :: FirstType(ls, k) && IsTrimAllOf(ls[k][5..], t)
      case None => forall k: nat :: !FirstType(ls, k)
  }

  ghost predicate FirstType(ls: seq<string>, k: nat) {
    && 1 <= k < |ls| && "type:" <= ls[k]
    && forall j | 1 <= j < k :: !("type:" <= ls[j]) && !DashedLine(ls[j])
  }

  lemma {:induction false} TypeFromIs(ls: seq<string>, k: nat)
    requires 1 <= k <= |ls| && forall j | 1 <= j < k :: !("type:" <= ls[j]) && !DashedLine(ls[j])
    ensures match TypeFrom(ls, k)
      case Some(t) => exists n: nat :: FirstType(ls, n) && IsTrimAllOf(ls[n][5..], t)
      case None => forall n: nat :: !FirstType(ls, n)
    decreases |ls| - k
  {
    hide IsTrimAllOf, TrimAll, DashedLine, IsDashes;
    if k < |ls| {
      DashesIff(ls[k]);
      if IsDashes(ls[k]) {
        DashedIsNoType(ls[k]);
      } else if "type:" <= ls[k] {
        TrimAllIs(ls[k][5..]);
        assert FirstType(ls, k);
      } else {
        TypeFromIs(ls, k + 1);
      }
    }
  }

  lemma DashedIsNoType(line: string)
    requires DashedLine(line)
    ensures !("type:" <= line)
  {
    assert line[..3][0] == '-';
  }

  lemma TypeInIs(body: string)
    ensures IsTypeIn(Lines(body), TypeIn(body))
  {
    hide Lines, DashedLine, IsDashes, FirstType;
    DashesIff(Lines(body)[0]);
    if IsDashes(Lines(body)[0]) { TypeFromIs(Lines(body), 1); }
  }

  /** An indented `type:` line stops the export from writing one, yet the import does not read it. */
  lemma IndentedTypeIsLost(noteType: string)
    ensures var body := "---\n type: a\n---"; TypeIn(WithType(body, noteType)) == None
  {
    hide *;
    var ls := IndentedLines();
    IndentedFence(ls);
    IndentedLeft("---\n type: a\n---", noteType, ls);
  }

  lemma IndentedLines() returns (ls: seq<string>)
    ensures ls == ["---", " type: a", "---"] && Lines("---\n type: a\n---") == ls
  {
    hide Lines;
    ls := ["---", " type: a", "---"];
    LinesJoin(ls);
    ThreeJoined(ls[0], ls[1], ls[2]);
    assert "---" + "\n" + " type: a" + "\n" + "---" == "---\n type: a\n---";
  }

  lemma ThreeJoined(a: string, b: string, c: string)
    ensures Join([a, b, c]) == a + "\n" + b + "\n" + c
  {
    assert [a, b, c][1..] == [b, c] && [b, c][1..] == [c];
    assert Join([b, c]) == b + "\n" + c;
    assert a + "\n" + (b + "\n" + c) == a + "\n" + b + "\n" + c;
  }

  lemma IndentedLeft(body: string, noteType: string, ls: seq<string>)
    requires Lines(body) == ls && DeclaresType(ls) && |ls| > 1 && TypeFrom(ls, 1) == None
    ensures TypeIn(WithType(body, noteType)) == None
  {
    hide Lines, TypeFrom, FindDashes, TrimStartAll, Join;
  }

  lemma IndentedFence(ls: seq<string>)
    requires ls == ["---", " type: a", "---"]
    ensures DeclaresType(ls) && TypeFrom(ls, 1) == None
  {
    TrimEndAllBlanks(" type: a");
    assert FindDashes(ls, 2) == Some(2);
    assert FindDashes(ls, 1) == Some(2);
    assert (" type: a")[1..] == "type: a";
    assert "type:" <= TrimStartAll(ls[1]);
    assert TypeFrom(ls, 2) == None;
  }
}

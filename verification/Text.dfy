/**
 Strings as the note code sees them: lines, blanks and line endings. A string is a
 sequence of Unicode scalars; where the Rust code counts bytes, the model counts scalars.
 */
module Text {

  datatype Option<+T> = None | Some(value: T)

  /** Rust's `char::is_whitespace`: the Unicode White_Space property. */
  predicate IsWhitespace(c: char) {
    || '\t' <= c <= '\r' || c == ' ' || c == '\U{85}' || c == '\U{A0}' || c == '\U{1680}'
    || '\U{2000}' <= c <= '\U{200A}' || c == '\U{2028}' || c == '\U{2029}'
    || c == '\U{202F}' || c == '\U{205F}' || c == '\U{3000}'
  }

  /** Whitespace without line terminators, vertical tab and form feed. */
  predicate IsHorizontal(c: char) {
    || c == '\t' || c == ' ' || c == '\U{A0}' || c == '\U{1680}' || '\U{2000}' <= c <= '\U{200A}'
    || c == '\U{202F}' || c == '\U{205F}' || c == '\U{3000}'
  }

  predicate AllBlank(s: string) {
    forall i | 0 <= i < |s| :: IsWhitespace(s[i])
  }

  function TrimStart(s: string): (r: string)
    ensures |r| <= |s|
  {
    if s != "" && IsHorizontal(s[0]) then TrimStart(s[1..]) else s
  }

  function TrimEnd(s: string): (r: string)
    ensures |r| <= |s|
  {
    if s != "" && IsHorizontal(s[|s| - 1]) then TrimEnd(s[..|s| - 1]) else s
  }

  function Trim(s: string): string {
    TrimEnd(TrimStart(s))
  }

  /** `TrimStart` drops exactly the leading run of blanks. */
  lemma {:induction false} TrimStartAt(s: string, lead: nat)
    requires lead <= |s| && forall i | 0 <= i < lead :: IsHorizontal(s[i])
    requires lead == |s| || !IsHorizontal(s[lead])
    ensures TrimStart(s) == s[lead..]
  {
    if lead > 0 { TrimStartAt(s[1..], lead - 1); }
  }

  lemma {:induction false} TrimStartBlanks(s: string)
    ensures TrimStart(s) == s[|s| - |TrimStart(s)|..]
    ensures forall i | 0 <= i < |s| - |TrimStart(s)| :: IsHorizontal(s[i])
    ensures TrimStart(s) == "" || !IsHorizontal(TrimStart(s)[0])
  {
    if s != "" && IsHorizontal(s[0]) {
      TrimStartBlanks(s[1..]);
      assert forall i :: 0 < i < |s| ==> s[i] == s[1..][i - 1];
    }
  }

  lemma {:induction false} TrimEndBlanks(s: string)
    ensures TrimEnd(s) == s[..|TrimEnd(s)|]
    ensures forall i | |TrimEnd(s)| <= i < |s| :: IsHorizontal(s[i])
    ensures TrimEnd(s) == "" || !IsHorizontal(TrimEnd(s)[|TrimEnd(s)| - 1])
  {
    if s != "" && IsHorizontal(s[|s| - 1]) {
      TrimEndBlanks(s[..|s| - 1]);
    }
  }

  lemma TrimStartTwice(s: string)
    ensures TrimStart(TrimStart(s)) == TrimStart(s)
  {
    TrimStartBlanks(s);
    TrimStartAt(TrimStart(s), 0);
  }

  lemma TrimEndKeepsFront(s: string)
    requires TrimStart(s) == s
    ensures TrimStart(TrimEnd(s)) == TrimEnd(s)
  {
    TrimStartBlanks(s);
    TrimEndBlanks(s);
    TrimStartAt(TrimEnd(s), 0);
  }

  /** `t` is `s` without the blanks around it. */
  ghost predicate IsTrimOf(s: string, t: string) {
    exists i, j ::
      && 0 <= i <= j <= |s| && t == s[i..j]
      && (forall k | 0 <= k < i || j <= k < |s| :: IsHorizontal(s[k]))
      && (t == "" || (!IsHorizontal(s[i]) && !IsHorizontal(s[j - 1])))
  }

  lemma TrimOnce(s: string, t: string, u: string)
    requires IsTrimOf(s, t) && IsTrimOf(s, u)
    ensures t == u
  {
    hide IsHorizontal;
    var i, j :|
      && 0 <= i <= j <= |s| && t == s[i..j]
      && (forall k | 0 <= k < i || j <= k < |s| :: IsHorizontal(s[k]))
      && (t == "" || (!IsHorizontal(s[i]) && !IsHorizontal(s[j - 1])));
    var m, n :|
      && 0 <= m <= n <= |s| && u == s[m..n]
      && (forall k | 0 <= k < m || n <= k < |s| :: IsHorizontal(s[k]))
      && (u == "" || (!IsHorizontal(s[m]) && !IsHorizontal(s[n - 1])));
    if i < j && m < n { assert i == m && j == n; }
  }

  lemma TrimIs(s: string)
    ensures IsTrimOf(s, Trim(s))
  {
    hide IsHorizontal;
    var t := TrimStart(s);
    TrimStartBlanks(s);
    TrimEndBlanks(t);
    var i := |s| - |t|;
    var j := i + |TrimEnd(t)|;
    forall k | j <= k < |s| ensures IsHorizontal(s[k]) { assert s[k] == t[k - i]; }
    assert Trim(s) == t[..|TrimEnd(t)|] == s[i..j];
    hide TrimStart, TrimEnd, Trim;
    if i < j { assert t[0] == s[i] && t[|TrimEnd(t)| - 1] == s[j - 1]; }
  }

  /** Rust's `str::trim_end`: every trailing whitespace scalar goes, newlines included. */
  function TrimEndAll(s: string): (r: string)
    ensures |r| <= |s|
  {
    if s != "" && IsWhitespace(s[|s| - 1]) then TrimEndAll(s[..|s| - 1]) else s
  }

  lemma {:induction false} TrimEndAllBlanks(s: string)
    ensures TrimEndAll(s) == s[..|TrimEndAll(s)|]
    ensures AllBlank(s[|TrimEndAll(s)|..])
    ensures TrimEndAll(s) == "" || !IsWhitespace(TrimEndAll(s)[|TrimEndAll(s)| - 1])
  {
    if s != "" && IsWhitespace(s[|s| - 1]) {
      TrimEndAllBlanks(s[..|s| - 1]);
      var r := TrimEndAll(s);
      assert forall i | |r| <= i < |s| - 1 :: s[i] == s[..|s| - 1][|r|..][i - |r|];
    }
  }

  /** `t` is `s` without the whitespace around it. */
  ghost predicate IsTrimAllOf(s: string, t: string) {
    exists i, j ::
      && 0 <= i <= j <= |s| && t == s[i..j]
      && (forall k | 0 <= k < i || j <= k < |s| :: IsWhitespace(s[k]))
      && (t == "" || (!IsWhitespace(s[i]) && !IsWhitespace(s[j - 1])))
  }

  function StripCr(line: string): string {
    if line != "" && line[|line| - 1] == '\r' then line[..|line| - 1] else line
  }

  // ---- lines ----

  ghost predicate OneLine(s: string) {
    '\n' !in s
  }

  /** `body.split('\n')`: always at least one line, terminators removed. */
  function Lines(s: string): (ls: seq<string>)
    ensures |ls| >= 1
    ensures forall i | 0 <= i < |ls| :: OneLine(ls[i])
  {
    if s == "" then [""]
    else
      Prepend(s[0], Lines(s[1..]))
  }

  function Prepend(c: char, ls: seq<string>): (r: seq<string>)
    requires |ls| >= 1
    ensures |r| >= 1
  {
    if c == '\n' then [""] + ls else [[c] + ls[0]] + ls[1..]
  }

  /** `lines.join("\n")`. */
  function Join(ls: seq<string>): string
    requires |ls| >= 1
  {
    if |ls| == 1 then ls[0] else ls[0] + "\n" + Join(ls[1..])
  }

  lemma {:induction false} JoinLines(s: string)
    ensures Join(Lines(s)) == s
  {
    if s != "" {
      JoinLines(s[1..]);
      var rest := Lines(s[1..]);
      assert s == [s[0]] + s[1..];
      if s[0] == '\n' {
        assert Lines(s)[1..] == rest;
      } else {
        assert Lines(s)[1..] == rest[1..];
      }
    }
  }

  lemma {:induction false} LinesOfOneLine(s: string)
    requires OneLine(s)
    ensures Lines(s) == [s]
  {
    if s != "" {
      LinesOfOneLine(s[1..]);
      assert s == [s[0]] + s[1..] && s[0] in s;
    }
  }

  /** Splitting a concatenation: the last line of `x` runs on into the first line of `y`. */
  lemma {:induction false} LinesConcat(x: string, y: string)
    ensures Lines(x + y) == Glue(Lines(x), Lines(y))
  {
    if x == "" {
      assert x + y == y && "" + Lines(y)[0] == Lines(y)[0];
    } else {
      LinesConcat(x[1..], y);
      assert (x + y)[1..] == x[1..] + y;
      GluePrepend(x[0], Lines(x[1..]), Lines(y));
    }
  }

  lemma GluePrepend(c: char, a: seq<string>, b: seq<string>)
    requires |a| >= 1 && |b| >= 1
    ensures Glue(Prepend(c, a), b) == Prepend(c, Glue(a, b))
  {
    if |a| == 1 {
      assert [c] + (a[0] + b[0]) == ([c] + a[0]) + b[0];
    }
  }

  /** A newline between two texts sets their lines one after the other. */
  lemma LinesThen(x: string, y: string)
    ensures Lines(x + "\n" + y) == Lines(x) + Lines(y)
  {
    hide Glue;
    NewlineThen(y);
    LinesConcat(x, "\n" + y);
    hide Lines;
    GlueEmpty(Lines(x), Lines(y));
    assert x + ("\n" + y) == x + "\n" + y;
  }

  lemma NewlineThen(y: string)
    ensures Lines("\n" + y) == [""] + Lines(y)
  {
    assert ("\n" + y)[1..] == y;
  }

  lemma GlueEmpty(a: seq<string>, b: seq<string>)
    requires |a| >= 1
    ensures Glue(a, [""] + b) == a + b
  {
    assert a[|a| - 1] + "" == a[|a| - 1];
  }

  lemma LineAfter(text: string, line: string)
    requires OneLine(line)
    ensures Lines(text + "\n" + line) == Lines(text) + [line]
  {
    hide Lines;
    LinesThen(text, line);
    LinesOfOneLine(line);
  }

  function Glue(a: seq<string>, b: seq<string>): seq<string>
    requires |a| >= 1 && |b| >= 1
  {
    a[..|a| - 1] + [a[|a| - 1] + b[0]] + b[1..]
  }

  lemma {:induction false} LinesJoin(ls: seq<string>)
    requires |ls| >= 1 && forall i | 0 <= i < |ls| :: OneLine(ls[i])
    ensures Lines(Join(ls)) == ls
  {
    LinesOfOneLine(ls[0]);
    if |ls| > 1 {
      LinesJoin(ls[1..]);
      LinesConcat(ls[0], "\n" + Join(ls[1..]));
      assert ("\n" + Join(ls[1..]))[1..] == Join(ls[1..]);
      assert ls[0] + ("\n" + Join(ls[1..])) == Join(ls);
      assert Lines("\n" + Join(ls[1..])) == [""] + ls[1..];
      assert ls[0] + "" == ls[0];
    }
  }

  lemma {:induction false} JoinConcat(a: seq<string>, b: seq<string>)
    requires |a| >= 1 && |b| >= 1
    ensures Join(a + b) == Join(a) + "\n" + Join(b)
  {
    assert (a + b)[1..] == a[1..] + b;
    if |a| > 1 { JoinConcat(a[1..], b); }
  }

  /** Every scalar of a line is a scalar of the text. */
  lemma {:induction false} LineScalars(s: string)
    ensures forall k, c | 0 <= k < |Lines(s)| && c in Lines(s)[k] :: c in s
  {
    if s != "" {
      LineScalars(s[1..]);
      var rest := Lines(s[1..]);
      assert forall c | c in s[1..] :: c in s;
      assert s[0] in s;
      hide Lines;
      forall k, c | 0 <= k < |Prepend(s[0], rest)| && c in Prepend(s[0], rest)[k] ensures c in s {
        if s[0] == '\n' { assert k > 0 && c in rest[k - 1]; }
        else if k == 0 { assert c == s[0] || c in rest[0]; }
        else { assert c in rest[k]; }
      }
    }
  }
}

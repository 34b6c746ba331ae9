/**
 What the checkbox editors do to the text of a body (content/edits.rs): which line changes, how, and
 that every other line stays, endings included.
 */
module TodoText {
  import opened Text
  import opened Todos

  // ---- the addressed line ----

  /** Line `n` is the checkbox line numbered `index`, after `lead` blanks. */
  ghost predicate IsItem(ls: seq<string>, n: nat, index: nat, lead: nat) {
    n < |ls| && BoxAt(StripCr(ls[n]), lead) && |ItemsFrom(ls[..n], 0)| == index
  }

  /** A line is a task item exactly if it has that shape. */
  lemma ParsesIff(line: string)
    ensures ParseCheckbox(line).Some? <==> exists lead: nat :: BoxAt(StripCr(line), lead)
  {
    if ParseCheckbox(line).Some? { ParsedShape(line); }
    if lead: nat :| BoxAt(StripCr(line), lead) { ShapeParses(line, lead); }
  }

  lemma {:induction false} ItemAt(ls: seq<string>, index: nat, rewrite: Rewrite) returns (n: nat)
    requires index < |ItemsFrom(ls, 0)|
    ensures n < |ls| && ParseCheckbox(ls[n]).Some? && |ItemsFrom(ls[..n], 0)| == index
    ensures RewriteNth(ls, index, rewrite) == ls[n := RewriteLine(rewrite, ls[n], ParseCheckbox(ls[n]).value.pos)]
  {
    hide ParseCheckbox, RewriteLine;
    var rest := ls[1..];
    ItemCountIgnoresStart(rest, 1, 0);
    if ParseCheckbox(ls[0]).Some? && index == 0 {
      n := 0;
      assert ls[..0] == [];
    } else {
      var k := if ParseCheckbox(ls[0]).Some? then index - 1 else index;
      var m := ItemAt(rest, k, rewrite);
      n := m + 1;
      assert ls[..n][1..] == rest[..m] && ls[..n][0] == ls[0];
      ItemCountIgnoresStart(rest[..m], 1, 0);
      assert RewriteNth(rest, k, rewrite) == rest[m := RewriteLine(rewrite, rest[m], ParseCheckbox(rest[m]).value.pos)];
    }
  }

  lemma RewrittenLines(body: string, index: nat, rewrite: Rewrite) returns (n: nat, lead: nat)
    requires Clean(rewrite) && index < |Items(body)|
    ensures var ls, r := Lines(body), Rewritten(body, index, rewrite);
      && IsItem(ls, n, index, lead) && r.Body?
      && Lines(r.body) == ls[n := RewriteLine(rewrite, ls[n], lead + 3)]
  {
    hide ParseCheckbox, ItemsFrom, Lines, RewriteNth, RewriteLine, Rewritten, BoxAt, StripCr;
    RewrittenItems(body, index, rewrite);
    n := ItemAt(Lines(body), index, rewrite);
    ParsedShape(Lines(body)[n]);
    lead := ParseCheckbox(Lines(body)[n]).value.pos - 3;
  }

  /** Checking an item writes one scalar, between its brackets; the rest of the body stays. */
  lemma CheckedText(body: string, index: nat, checked: bool) returns (n: nat, lead: nat)
    requires index < |Items(body)|
    ensures var ls, r := Lines(body), SetTodoChecked(body, index, checked);
      && IsItem(ls, n, index, lead) && lead + 3 < |ls[n]| && r.Body?
      && Lines(r.body) == ls[n := ls[n][lead + 3 := if checked then 'x' else ' ']]
  {
    hide ParseCheckbox, ItemsFrom, Lines, RewriteNth, Rewritten;
    n, lead := RewrittenLines(body, index, SetState(checked));
  }

  /** Line `k` is `line` after checking: written between the brackets if it is one of the items, else as it was. */
  ghost predicate LineChecked(ls: seq<string>, k: nat, indices: seq<nat>, checked: bool, line: string)
    requires k < |ls|
  {
    || (exists index: nat, lead: nat ::
          && IsItem(ls, k, index, lead) && index in indices && lead + 3 < |ls[k]|
          && line == ls[k][lead + 3 := if checked then 'x' else ' '])
    || ((forall index: nat, lead: nat :: IsItem(ls, k, index, lead) ==> index !in indices) && line == ls[k])
  }

  lemma {:induction false} MarkLinesAt(ls: seq<string>, indices: set<nat>, checked: bool, next: nat, k: nat)
    requires k < |ls|
    ensures var box := ParseCheckbox(ls[k]);
      MarkLines(ls, indices, checked, next)[k]
      == if box.Some? && next + |ItemsFrom(ls[..k], 0)| in indices then Mark(ls[k], box.value.pos, checked) else ls[k]
  {
    hide ParseCheckbox, Mark;
    if k == 0 {
      assert ls[..0] == [];
    } else {
      var after := if ParseCheckbox(ls[0]).Some? then next + 1 else next;
      MarkLinesAt(ls[1..], indices, checked, after, k - 1);
      assert ls[..k][1..] == ls[1..][..k - 1] && ls[..k][0] == ls[0];
      ItemCountIgnoresStart(ls[1..][..k - 1], 1, 0);
    }
  }

  /** Checking many items writes between their brackets and nowhere else. */
  lemma CheckedSetText(body: string, indices: seq<nat>, checked: bool)
    ensures var ls, r := Lines(body), SetTodosChecked(body, indices, checked);
      r.Body? ==>
        && |Lines(r.body)| == |ls|
        && forall k | 0 <= k < |ls| :: LineChecked(ls, k, indices, checked, Lines(r.body)[k])
  {
    hide ParseCheckbox, MarkLines, Lines, SetTodosChecked, ItemsFrom, BoxAt, StripCr, Join;
    CheckedSet(body, indices, checked);
    var ls, r := Lines(body), SetTodosChecked(body, indices, checked);
    if r.Body? {
      MarkLinesKeepsLines(ls, ToSet(indices), checked, 0);
      LinesJoin(MarkLines(ls, ToSet(indices), checked, 0));
      forall k | 0 <= k < |ls| ensures LineChecked(ls, k, indices, checked, Lines(r.body)[k]) {
        MarkLinesAt(ls, ToSet(indices), checked, 0, k);
        LineMarked(ls, k, indices, checked);
      }
    }
  }

  lemma LineMarked(ls: seq<string>, k: nat, indices: seq<nat>, checked: bool)
    requires k < |ls|
    ensures var box, index := ParseCheckbox(ls[k]), |ItemsFrom(ls[..k], 0)|;
      LineChecked(ls, k, indices, checked,
                  if box.Some? && index in ToSet(indices) then Mark(ls[k], box.value.pos, checked) else ls[k])
  {
    hide ParseCheckbox, ItemsFrom, BoxAt;
    ParsesIff(ls[k]);
    if ParseCheckbox(ls[k]).Some? {
      ParsedShape(ls[k]);
      assert IsItem(ls, k, |ItemsFrom(ls[..k], 0)|, ParseCheckbox(ls[k]).value.pos - 3);
    }
  }

  /** Renaming an item rewrites what stands behind its brackets; indentation, state and line ending stay. */
  lemma RenamedText(body: string, index: nat, text: string) returns (n: nat, lead: nat)
    requires index < |Items(body)|
    ensures var ls, r := Lines(body), SetTodoText(body, index, text);
      && IsItem(ls, n, index, lead) && lead + 5 <= |ls[n]| && r.Body?
      && var ending := if ls[n][|ls[n]| - 1] == '\r' then "\r" else "";
      Lines(r.body) == ls[n := ls[n][..lead + 5] + " " + CleanText(text) + ending]
  {
    hide ParseCheckbox, ItemsFrom, Lines, RewriteNth, Rewritten, CleanText;
    CleanTextIsClean(text);
    n, lead := RewrittenLines(body, index, SetText(CleanText(text)));
    var line := Lines(body)[n];
    assert StripCr(line)[..lead + 5] == line[..lead + 5];
  }

  /** The text as it is stored: its line terminators made blanks, and no blanks around it. */
  ghost predicate IsCleaned(text: string, t: string) {
    exists u: string ::
      && |u| == |text| && IsTrimOf(u, t)
      && forall i | 0 <= i < |u| :: u[i] == if text[i] == '\r' || text[i] == '\n' then ' ' else text[i]
  }

  lemma {:induction false} NoTerminatorsAt(s: string)
    ensures forall i | 0 <= i < |s| :: NoTerminators(s)[i] == if s[i] == '\r' || s[i] == '\n' then ' ' else s[i]
  {
    if s != "" {
      NoTerminatorsAt(s[1..]);
      assert forall i :: 1 <= i < |s| ==> NoTerminators(s)[i] == NoTerminators(s[1..])[i - 1];
    }
  }

  lemma CleanTextIs(text: string)
    ensures IsCleaned(text, CleanText(text))
  {
    NoTerminatorsAt(text);
    TrimIs(NoTerminators(text));
    hide NoTerminators, IsTrimOf, Trim;
  }

  // ---- the new item ----

  /** One line differs: behind the box of the item numbered `index` stands the cleaned text, then the old ending. */
  ghost predicate ItemRenamed(ls: seq<string>, index: nat, text: string, lt: seq<string>) {
    exists n: nat, lead: nat, t ::
      && IsItem(ls, n, index, lead) && lead + 5 <= |ls[n]| && IsCleaned(text, t)
      && lt == ls[n := ls[n][..lead + 5] + " " + t + if ls[n][|ls[n]| - 1] == '\r' then "\r" else ""]
  }

  lemma RenamedLines(body: string, index: nat, text: string)
    requires index < |Items(body)|
    ensures var r := SetTodoText(body, index, text); r.Body? && ItemRenamed(Lines(body), index, text, Lines(r.body))
  {
    hide Items, SetTodoText, CleanText, IsCleaned, IsItem, Lines;
    CleanTextIs(text);
    var n, lead := RenamedText(body, index, text);
  }

  /** The text of a new item: what stands behind a checkbox given with it, or all of it, trimmed. */
  ghost predicate IsItemText(text: string, t: string) {
    || (exists lead: nat :: BoxAt(StripCr(text), lead) && t == TrimStart(StripCr(text)[lead + 5..]))
    || ((forall lead: nat :: !BoxAt(StripCr(text), lead)) && IsTrimOf(text, t))
  }

  lemma ItemTextIs(text: string)
    ensures IsItemText(text, ItemText(text))
  {
    hide ParseCheckbox, BoxAt, StripCr, TrimStart, Trim, IsTrimOf;
    ParsesIff(text);
    if ParseCheckbox(text).Some? {
      ParsedShape(text);
    } else {
      TrimIs(text);
    }
  }

  ghost predicate IsBox(line: string) {
    exists lead: nat :: BoxAt(StripCr(line), lead)
  }

  /** Line `n` is the last task item. */
  ghost predicate IsLastItem(ls: seq<string>, n: nat) {
    n < |ls| && IsBox(ls[n]) && forall k | n < k < |ls| :: !IsBox(ls[k])
  }

  /** `kept` is the lines without the empty ones at the end, of which one stays if there is no other. */
  ghost predicate WithoutEmptyEnd(ls: seq<string>, kept: seq<string>) {
    && 1 <= |kept| <= |ls| && kept == ls[..|kept|]
    && (forall k | |kept| <= k < |ls| :: ls[k] == "")
    && (|kept| == 1 || kept[|kept| - 1] != "")
  }

  /** The new line stands behind the last task item, or else at the end of what the body has. */
  ghost predicate ItemAdded(ls: seq<string>, item: string, lt: seq<string>) {
    || (exists n: nat :: IsLastItem(ls, n) && lt == ls[..n + 1] + [item] + ls[n + 1..])
    || ((forall n: nat :: !IsLastItem(ls, n))
        && if ls == [""] then lt == [item] else exists kept :: WithoutEmptyEnd(ls, kept) && lt == kept + [item])
  }

  lemma EmptyBody(body: string)
    ensures Lines(body) == [""] <==> body == ""
  {
    JoinLines(body);
    if Lines(body) == [""] { assert Join(Lines(body)) == ""; }
  }

  lemma {:induction false} NewlinesDropped(body: string)
    requires body != ""
    ensures WithoutEmptyEnd(Lines(body), Lines(TrimNewlines(body)))
  {
    hide Lines, WithoutEmptyEnd;
    if body[|body| - 1] == '\n' {
      var front := body[..|body| - 1];
      assert body == front + "\n";
      LinesEndNewline(front);
      if front == "" { EmptyBody(front); OneLineKept(); } else { NewlinesDropped(front); }
      EmptyLineMore(Lines(front), Lines(TrimNewlines(front)));
    } else {
      LastLineNotEmpty(body);
      AllKept(Lines(body));
    }
  }

  lemma OneLineKept()
    ensures WithoutEmptyEnd([""], [""])
  {
  }

  lemma AllKept(ls: seq<string>)
    requires |ls| >= 1 && ls[|ls| - 1] != ""
    ensures WithoutEmptyEnd(ls, ls)
  {
  }

  lemma LinesEndNewline(front: string)
    ensures Lines(front + "\n") == Lines(front) + [""]
  {
    hide Lines;
    LineAfter(front, "");
    assert front + "\n" + "" == front + "\n";
  }

  lemma EmptyLineMore(ls: seq<string>, kept: seq<string>)
    requires WithoutEmptyEnd(ls, kept)
    ensures WithoutEmptyEnd(ls + [""], kept)
  {
    assert (ls + [""])[..|kept|] == ls[..|kept|];
  }

  lemma {:induction false} LastLineNotEmpty(s: string)
    requires s != "" && s[|s| - 1] != '\n'
    ensures Lines(s)[|Lines(s)| - 1] != ""
    ensures TrimNewlines(s) == s
  {
    if |s| > 1 {
      LastLineNotEmpty(s[1..]);
    } else {
      assert s[1..] == "";
    }
  }

  lemma LastIs(ls: seq<string>)
    ensures match LastCheckbox(ls)
      case Some(n) => IsLastItem(ls, n)
      case None => forall n: nat :: !IsLastItem(ls, n)
  {
    hide ParseCheckbox, LastCheckbox, BoxAt, StripCr;
    LastCheckboxIsLast(ls);
    forall k | 0 <= k < |ls| ensures ParseCheckbox(ls[k]).Some? <==> IsBox(ls[k]) { ParsesIff(ls[k]); }
  }

  lemma KeptAre(body: string)
    ensures Lines(body) == [""] ==> KeptLines(body) == []
    ensures Lines(body) != [""] ==> WithoutEmptyEnd(Lines(body), KeptLines(body))
  {
    hide Lines, WithoutEmptyEnd, TrimNewlines;
    EmptyBody(body);
    if body == "" {
      assert KeptLines(body) == [];
    } else {
      NewlinesDropped(body);
    }
  }

  /** The body with one more item, line by line: an unchecked box and the text. */
  lemma AppendedText(body: string, text: string)
    requires OneLine(text)
    ensures exists t :: IsItemText(text, t) && ItemAdded(Lines(body), "- [ ] " + t, Lines(AppendTodo(body, text)))
  {
    hide ParseCheckbox, ItemText, Appended, Lines, TrimStart, StripCr, LastCheckbox, KeptLines, OneLine, IsItemText;
    hide IsLastItem, WithoutEmptyEnd;
    var t := ItemText(text);
    ItemTextIs(text);
    ItemTextIsOneLine(text);
    ItemLine(t);
    AppendedLine(body, "- [ ] " + t);
    LastIs(Lines(body));
    KeptAre(body);
    assert ItemAdded(Lines(body), "- [ ] " + t, Lines(AppendTodo(body, text)));
  }
}

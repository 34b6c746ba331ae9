/**
 Task-list items in a note body (content/mod.rs, content/edits.rs): the scanner that
 numbers checkbox lines, and the editors that address them by number.
 */
module Todos {
  import opened Text

  datatype Checkbox = Checkbox(pos: nat, checked: bool, text: string)
  datatype TodoItem = TodoItem(index: nat, text: string, checked: bool)
  datatype TodoError = IndexOutOfRange(index: nat, count: nat)
  datatype Edited = Body(body: string) | Rejected(error: TodoError)

  /** One line as a task item: position of the state scalar, its state, the item text. */
  function ParseCheckbox(line: string): (r: Option<Checkbox>)
    ensures r.Some? ==> r.value.pos + 1 < |StripCr(line)|
  {
    var content := StripCr(line);
    var trimmed := TrimStart(content);
    if |trimmed| < 5 || !(trimmed[0] == '-' && trimmed[1] == ' ' && trimmed[2] == '[' && trimmed[4] == ']') then None
    else if trimmed[3] != ' ' && trimmed[3] != 'x' && trimmed[3] != 'X' then None
    else Some(Checkbox(|content| - |trimmed| + 3, trimmed[3] != ' ', TrimStart(trimmed[5..])))
  }

  function ItemsFrom(ls: seq<string>, next: nat): seq<TodoItem> {
    if ls == [] then []
    else match ParseCheckbox(ls[0])
      case Some(b) => [TodoItem(next, b.text, b.checked)] + ItemsFrom(ls[1..], next + 1)
      case None => ItemsFrom(ls[1..], next)
  }

  function Items(body: string): seq<TodoItem> {
    ItemsFrom(Lines(body), 0)
  }

  predicate IsOpen(line: string) {
    ParseCheckbox(line).Some? && !ParseCheckbox(line).value.checked
  }

  predicate AnyOpenLine(ls: seq<string>) {
    exists i | 0 <= i < |ls| :: IsOpen(ls[i])
  }

  predicate AnyOpenItem(items: seq<TodoItem>) {
    exists k | 0 <= k < |items| :: !items[k].checked
  }

  predicate HasUncheckedTodos(body: string) {
    AnyOpenLine(Lines(body))
  }

  /** The Todo filter's column and the item list agree: the flag is set iff some item is open. */
  lemma {:induction false} FlagIffOpenItem(ls: seq<string>, next: nat)
    ensures AnyOpenLine(ls) <==> AnyOpenItem(ItemsFrom(ls, next))
  {
    hide ParseCheckbox;
    if ls != [] {
      var box := ParseCheckbox(ls[0]);
      var after := if box.Some? then next + 1 else next;
      FlagIffOpenItem(ls[1..], after);
      OpenLineCons(ls);
      if box.Some? { OpenItemCons(TodoItem(next, box.value.text, box.value.checked), ItemsFrom(ls[1..], after)); }
    }
  }

  lemma OpenLineCons(ls: seq<string>)
    requires ls != []
    ensures AnyOpenLine(ls) <==> IsOpen(ls[0]) || AnyOpenLine(ls[1..])
  {
    hide IsOpen;
    assert forall i | 0 <= i < |ls| - 1 :: ls[1..][i] == ls[i + 1];
    if i :| 0 < i < |ls| && IsOpen(ls[i]) { assert IsOpen(ls[1..][i - 1]); }
    if i :| 0 <= i < |ls| - 1 && IsOpen(ls[1..][i]) { assert IsOpen(ls[i + 1]); }
  }

  lemma OpenItemCons(item: TodoItem, rest: seq<TodoItem>)
    ensures AnyOpenItem([item] + rest) <==> !item.checked || AnyOpenItem(rest)
  {
    var items := [item] + rest;
    if k :| 0 <= k < |rest| && !rest[k].checked { assert !items[k + 1].checked; }
    if k :| 0 < k < |items| && !items[k].checked { assert !rest[k - 1].checked; }
    if !item.checked { assert !items[0].checked; }
  }

  /** What a caller does to the addressed line (a closure in the source). */
  datatype Rewrite = SetState(checked: bool) | SetText(text: string)

  function RewriteLine(rewrite: Rewrite, line: string, pos: nat): string {
    match rewrite
    case SetState(checked) => Mark(line, pos, checked)
    case SetText(text) => Rename(line, pos, text)
  }

  function RewriteItem(rewrite: Rewrite, item: TodoItem): TodoItem {
    match rewrite
    case SetState(checked) => item.(checked := checked)
    case SetText(text) => item.(text := text)
  }

  function Mark(line: string, pos: nat, checked: bool): string {
    if pos < |line| then line[pos := if checked then 'x' else ' '] else line
  }

  function Rename(line: string, pos: nat, text: string): string {
    var content := StripCr(line);
    var cr := if |content| < |line| then "\r" else "";
    if pos + 2 <= |content| then content[..pos + 2] + " " + text + cr else line
  }

  // ---- the loops of the source ----

  method ExtractTodoItems(body: string) returns (items: seq<TodoItem>)
    ensures items == Items(body)
  {
    hide ParseCheckbox;
    items := [];
    var ls := Lines(body);
    for n := 0 to |ls|
      invariant items + ItemsFrom(ls[n..], |items|) == Items(body)
    {
      assert ls[n..][1..] == ls[n + 1..];
      match ParseCheckbox(ls[n])
      case Some(b) => items := items + [TodoItem(|items|, b.text, b.checked)];
      case None =>
    }
  }

  /** `ls` with the `index`-th checkbox line rewritten. */
  function RewriteNth(ls: seq<string>, index: nat, rewrite: Rewrite): (r: seq<string>)
    ensures |r| == |ls|
  {
    if ls == [] then []
    else match ParseCheckbox(ls[0])
      case Some(b) =>
        if index == 0 then [RewriteLine(rewrite, ls[0], b.pos)] + ls[1..]
        else [ls[0]] + RewriteNth(ls[1..], index - 1, rewrite)
      case None => [ls[0]] + RewriteNth(ls[1..], index, rewrite)
  }

  function Rewritten(body: string, index: nat, rewrite: Rewrite): Edited {
    var count := |Items(body)|;
    if index < count then Body(Join(RewriteNth(Lines(body), index, rewrite)))
    else Rejected(IndexOutOfRange(index, count))
  }

  method RewriteTodoLine(body: string, index: nat, rewrite: Rewrite) returns (r: Edited)
    ensures r == Rewritten(body, index, rewrite)
  {
    hide ParseCheckbox, RewriteNth, Rank, Lines, RewriteLine, Join, Items, ItemsFrom;
    var seen, found, out := 0, false, [];
    var ls := Lines(body);
    ghost var rewritten := RewriteNth(ls, index, rewrite);
    RankEnds(body);
    for n := 0 to |ls|
      invariant found <==> index < seen
      invariant seen == Rank(ls, n)
      invariant out == rewritten[..n]
    {
      RewrittenAt(ls, n, index, rewrite);
      TakeOneMore(rewritten, n);
      var line := ls[n];
      match ParseCheckbox(line) {
        case Some(b) =>
          if seen == index {
            line := RewriteLine(rewrite, line, b.pos);
            found := true;
          }
          seen := seen + 1;
        case None =>
      }
      out := out + [line];
    }
    assert rewritten[..|ls|] == rewritten;
    r := if found then Body(Join(out)) else Rejected(IndexOutOfRange(index, seen));
  }

  lemma TakeOneMore<T>(s: seq<T>, n: nat)
    requires n < |s|
    ensures s[..n + 1] == s[..n] + [s[n]]
  {
  }

  /** How many checkbox lines come before line `n`. */
  ghost function Rank(ls: seq<string>, n: nat): nat
    requires n <= |ls|
  {
    |ItemsFrom(ls[..n], 0)|
  }

  lemma RankEnds(body: string)
    ensures var ls := Lines(body); Rank(ls, 0) == 0 && Rank(ls, |ls|) == |Items(body)|
  {
    assert Lines(body)[..|Lines(body)|] == Lines(body);
  }

  /** Line `n` is rewritten iff it is a checkbox and its rank is `index`. */
  lemma {:induction false} RewrittenAt(ls: seq<string>, n: nat, index: nat, rewrite: Rewrite)
    requires n < |ls|
    ensures var box, rank := ParseCheckbox(ls[n]), Rank(ls, n);
      && Rank(ls, n + 1) == (if box.Some? then rank + 1 else rank)
      && RewriteNth(ls, index, rewrite)[n]
         == if box.Some? && rank == index then RewriteLine(rewrite, ls[n], box.value.pos) else ls[n]
  {
    hide ParseCheckbox, RewriteLine, Lines;
    assert ls[..n + 1][1..] == ls[1..][..n];
    if n > 0 {
      assert ls[..n][1..] == ls[1..][..n - 1];
      var first := ParseCheckbox(ls[0]).Some?;
      ItemCountIgnoresStart(ls[1..][..n - 1], 1, 0);
      ItemCountIgnoresStart(ls[1..][..n], 1, 0);
      if !(first && index == 0) {
        RewrittenAt(ls[1..], n - 1, if first then index - 1 else index, rewrite);
      } else {
        RewrittenAt(ls[1..], n - 1, 0, rewrite);
      }
    }
  }

  lemma {:induction false} ItemCountIgnoresStart(ls: seq<string>, m: nat, n: nat)
    ensures |ItemsFrom(ls, m)| == |ItemsFrom(ls, n)|
  {
    hide ParseCheckbox;
    if ls != [] {
      ItemCountIgnoresStart(ls[1..], m + 1, n + 1);
      ItemCountIgnoresStart(ls[1..], m, n);
    }
  }

  // ---- the two rewrites ----

  function NoTerminators(s: string): (r: string)
    ensures |r| == |s| && '\r' !in r && '\n' !in r
  {
    if s == "" then "" else [if s[0] == '\r' || s[0] == '\n' then ' ' else s[0]] + NoTerminators(s[1..])
  }

  function CleanText(text: string): string {
    Trim(NoTerminators(text))
  }

  function SetTodoChecked(body: string, index: nat, checked: bool): Edited {
    Rewritten(body, index, SetState(checked))
  }

  function SetTodoText(body: string, index: nat, text: string): Edited {
    Rewritten(body, index, SetText(CleanText(text)))
  }

  /** The shape of a task line after `lead` blanks: dash, space, bracket, state, bracket. */
  ghost predicate BoxAt(content: string, lead: nat) {
    && lead + 5 <= |content|
    && (forall i | 0 <= i < lead :: IsHorizontal(content[i]))
    && content[lead] == '-' && content[lead + 1] == ' ' && content[lead + 2] == '[' && content[lead + 4] == ']'
    && (content[lead + 3] == ' ' || content[lead + 3] == 'x' || content[lead + 3] == 'X')
  }

  lemma ParsedShape(line: string)
    requires ParseCheckbox(line).Some?
    ensures var b := ParseCheckbox(line).value;
            b.pos >= 3 && BoxAt(StripCr(line), b.pos - 3)
            && b.checked == (StripCr(line)[b.pos] != ' ') && b.text == TrimStart(StripCr(line)[b.pos + 2..])
  {
    var content := StripCr(line);
    var lead := |content| - |TrimStart(content)|;
    TrimStartBlanks(content);
    assert TrimStart(content)[5..] == content[lead + 5..];
  }

  lemma ShapeParses(line: string, lead: nat)
    requires BoxAt(StripCr(line), lead)
    ensures ParseCheckbox(line)
         == Some(Checkbox(lead + 3, StripCr(line)[lead + 3] != ' ', TrimStart(StripCr(line)[lead + 5..])))
  {
    var content := StripCr(line);
    TrimStartAt(content, lead);
    assert TrimStart(content)[5..] == content[lead + 5..];
  }

  lemma MarkedLine(line: string, checked: bool)
    requires ParseCheckbox(line).Some?
    ensures var b := ParseCheckbox(line).value;
            ParseCheckbox(Mark(line, b.pos, checked)) == Some(b.(checked := checked))
    ensures OneLine(line) ==> OneLine(Mark(line, ParseCheckbox(line).value.pos, checked))
  {
    ParsedShape(line);
    hide ParseCheckbox, TrimStart;
    var pos := ParseCheckbox(line).value.pos;
    var content, marked := StripCr(line), Mark(line, pos, checked);
    assert marked[|marked| - 1] == line[|line| - 1];
    assert StripCr(marked) == content[pos := if checked then 'x' else ' '];
    ShapeParses(marked, pos - 3);
    assert StripCr(marked)[pos + 2..] == content[pos + 2..];
  }

  lemma RenamedLine(line: string, text: string)
    requires ParseCheckbox(line).Some? && '\r' !in text && OneLine(text) && TrimStart(text) == text
    ensures var b := ParseCheckbox(line).value;
            ParseCheckbox(Rename(line, b.pos, text)) == Some(b.(text := text))
  {
    ParsedShape(line);
    hide ParseCheckbox, TrimStart;
    var pos := ParseCheckbox(line).value.pos;
    var content := StripCr(line);
    var front, cr := content[..pos + 2], if |content| < |line| then "\r" else "";
    BoxAtPrefix(content, front, pos - 3);
    hide BoxAt, StripCr;
    BoxWithText(front, text, cr);
  }

  lemma RenameIsOneLine(line: string, pos: nat, text: string)
    requires OneLine(text)
    ensures OneLine(line) ==> OneLine(Rename(line, pos, text))
  {
  }

  /** Text after a checkbox front is read back, a final carriage return apart. */
  lemma BoxWithText(front: string, text: string, cr: string)
    requires |front| >= 5 && BoxAt(front, |front| - 5) && TrimStart(text) == text
    requires cr == "\r" || (cr == "" && (text == "" || text[|text| - 1] != '\r'))
    ensures ParseCheckbox(front + " " + text + cr)
         == Some(Checkbox(|front| - 2, front[|front| - 2] != ' ', text))
  {
    var body, lead := front + " " + text, |front| - 5;
    StripCrAppended(front, text, cr);
    BlankThenText(front, text);
    BoxAtExtended(front, text);
    hide *;
    assert lead + 5 == |front| && lead + 3 == |front| - 2;
    ShapeParses(body + cr, lead);
  }

  lemma BoxAtExtended(front: string, text: string)
    requires |front| >= 5 && BoxAt(front, |front| - 5)
    ensures var body := front + " " + text;
      BoxAt(body, |front| - 5) && body[|front| - 2] == front[|front| - 2]
  {
  }

  lemma StripCrAppended(front: string, text: string, cr: string)
    requires cr == "\r" || (cr == "" && (text == "" || text[|text| - 1] != '\r'))
    ensures StripCr(front + " " + text + cr) == front + " " + text
  {
    var body := front + " " + text;
    assert body[|body| - 1] == if text == "" then ' ' else text[|text| - 1];
  }

  lemma BoxAtPrefix(a: string, b: string, lead: nat)
    requires BoxAt(a, lead) && lead + 5 <= |b| && a[..lead + 5] == b[..lead + 5]
    ensures BoxAt(b, lead) && b[lead + 3] == a[lead + 3]
  {
    forall i | 0 <= i < lead + 5 ensures a[i] == b[i] { assert a[..lead + 5][i] == b[..lead + 5][i]; }
  }

  lemma BlankThenText(front: string, text: string)
    requires TrimStart(text) == text
    ensures TrimStart((front + " " + text)[|front|..]) == text
  {
    TrimStartBlanks(text);
    var tail := (front + " " + text)[|front|..];
    assert tail == " " + text && tail[1..] == text;
    TrimStartAt(tail, 1);
  }

  // ---- addresses are stable ----

  ghost predicate Clean(rewrite: Rewrite) {
    rewrite.SetText? ==> '\r' !in rewrite.text && OneLine(rewrite.text) && TrimStart(rewrite.text) == rewrite.text
  }

  lemma RewrittenLine(rewrite: Rewrite, line: string, k: nat)
    requires Clean(rewrite) && ParseCheckbox(line).Some?
    ensures var b := ParseCheckbox(line).value;
            var changed := ParseCheckbox(RewriteLine(rewrite, line, b.pos));
            changed.Some? && TodoItem(k, changed.value.text, changed.value.checked)
                             == RewriteItem(rewrite, TodoItem(k, b.text, b.checked))
    ensures OneLine(line) ==> OneLine(RewriteLine(rewrite, line, ParseCheckbox(line).value.pos))
  {
    match rewrite
    case SetState(checked) => MarkedLine(line, checked);
    case SetText(text) =>
      RenamedLine(line, text);
      hide ParseCheckbox;
      RenameIsOneLine(line, ParseCheckbox(line).value.pos, text);
  }

  /** Rewriting one checkbox line into another changes that item and no other. */
  lemma {:induction false} ItemsAfterRewrite(ls: seq<string>, index: nat, next: nat, rewrite: Rewrite)
    requires Clean(rewrite) && index < |ItemsFrom(ls, next)|
    ensures var items := ItemsFrom(ls, next);
            ItemsFrom(RewriteNth(ls, index, rewrite), next) == items[index := RewriteItem(rewrite, items[index])]
  {
    hide ParseCheckbox;
    var r := RewriteNth(ls, index, rewrite);
    match ParseCheckbox(ls[0])
    case Some(b) =>
      RewrittenLine(rewrite, ls[0], next);
      if index == 0 {
        assert r[1..] == ls[1..];
      } else {
        ItemsAfterRewrite(ls[1..], index - 1, next + 1, rewrite);
        assert r[1..] == RewriteNth(ls[1..], index - 1, rewrite);
      }
    case None =>
      ItemsAfterRewrite(ls[1..], index, next, rewrite);
      assert r[1..] == RewriteNth(ls[1..], index, rewrite);
  }

  lemma {:induction false} RewriteKeepsLines(ls: seq<string>, index: nat, rewrite: Rewrite)
    requires Clean(rewrite) && forall i | 0 <= i < |ls| :: OneLine(ls[i])
    ensures forall i | 0 <= i < |ls| :: OneLine(RewriteNth(ls, index, rewrite)[i])
  {
    hide ParseCheckbox;
    if ls != [] {
      var k := if ParseCheckbox(ls[0]).None? then index else if index == 0 then 0 else index - 1;
      RewriteKeepsLines(ls[1..], k, rewrite);
      if ParseCheckbox(ls[0]).Some? { RewrittenLine(rewrite, ls[0], 0); }
    }
  }

  lemma RewrittenItems(body: string, index: nat, rewrite: Rewrite)
    requires Clean(rewrite) && index < |Items(body)|
    ensures var r := Rewritten(body, index, rewrite);
            r.Body? && Lines(r.body) == RewriteNth(Lines(body), index, rewrite)
            && Items(r.body) == Items(body)[index := RewriteItem(rewrite, Items(body)[index])]
  {
    hide ParseCheckbox, ItemsFrom, Lines;
    RewriteKeepsLines(Lines(body), index, rewrite);
    LinesJoin(RewriteNth(Lines(body), index, rewrite));
    ItemsAfterRewrite(Lines(body), index, 0, rewrite);
  }

  /** Checking one item: only that item's state changes; it fails iff the index is out of range. */
  lemma CheckedItems(body: string, index: nat, checked: bool)
    ensures var r := SetTodoChecked(body, index, checked);
      && (r.Body? <==> index < |Items(body)|)
      && (r.Body? ==> Items(r.body) == Items(body)[index := Items(body)[index].(checked := checked)]
                      && Lines(r.body) == MarkLines(Lines(body), {index}, checked, 0))
      && (r.Rejected? ==> r.error == IndexOutOfRange(index, |Items(body)|))
  {
    hide ParseCheckbox, ItemsFrom, Lines, RewriteNth, Join;
    if index < |Items(body)| {
      RewrittenItems(body, index, SetState(checked));
      MarkOne(Lines(body), index, checked, 0);
    }
  }

  /** Renaming one item: its text becomes the cleaned text, nothing else changes. */
  lemma RenamedItems(body: string, index: nat, text: string)
    ensures var r := SetTodoText(body, index, text);
      && (r.Body? <==> index < |Items(body)|)
      && (r.Body? ==> Items(r.body) == Items(body)[index := Items(body)[index].(text := CleanText(text))])
      && (r.Rejected? ==> r.error == IndexOutOfRange(index, |Items(body)|))
  {
    hide ParseCheckbox, ItemsFrom, Lines, RewriteNth, Join;
    if index < |Items(body)| {
      CleanTextIsClean(text);
      RewrittenItems(body, index, SetText(CleanText(text)));
    }
  }

  lemma CleanTextIsClean(text: string)
    ensures var c := CleanText(text); '\r' !in c && OneLine(c) && TrimStart(c) == c
  {
    TrimmedIsSubset(NoTerminators(text));
  }

  lemma TrimmedIsSubset(s: string)
    ensures TrimStart(Trim(s)) == Trim(s)
    ensures forall c | c in Trim(s) :: c in s
  {
    var left := TrimStart(s);
    TrimStartBlanks(s);
    TrimStartTwice(s);
    TrimEndKeepsFront(left);
    TrimEndBlanks(left);
    assert forall c | c in Trim(s) :: c in left;
    assert forall c | c in left :: c in s;
  }

  // ---- checking several at once (store/todos.rs) ----

  function SetTodosChecked(body: string, indices: seq<nat>, checked: bool): Edited
    decreases |indices|
  {
    if indices == [] then Body(body)
    else match SetTodoChecked(body, indices[0], checked)
      case Body(next) => SetTodosChecked(next, indices[1..], checked)
      case Rejected(e) => Rejected(e)
  }

  function MarkItems(items: seq<TodoItem>, indices: set<nat>, checked: bool): seq<TodoItem> {
    seq(|items|, k requires 0 <= k < |items| => if k in indices then items[k].(checked := checked) else items[k])
  }

  /** `ls` with the state scalar of every addressed checkbox line overwritten. */
  function MarkLines(ls: seq<string>, indices: set<nat>, checked: bool, next: nat): (r: seq<string>)
    ensures |r| == |ls|
  {
    if ls == [] then []
    else match ParseCheckbox(ls[0])
      case Some(b) => [if next in indices then Mark(ls[0], b.pos, checked) else ls[0]]
                      + MarkLines(ls[1..], indices, checked, next + 1)
      case None => [ls[0]] + MarkLines(ls[1..], indices, checked, next)
  }

  lemma {:induction false} MarkOne(ls: seq<string>, k: nat, checked: bool, next: nat)
    ensures RewriteNth(ls, k, SetState(checked)) == MarkLines(ls, {next + k}, checked, next)
  {
    hide ParseCheckbox;
    if ls != [] {
      assert next in {next + k} <==> k == 0;
      match ParseCheckbox(ls[0])
      case Some(b) =>
        if k == 0 { MarkNone(ls[1..], {next}, checked, next + 1); } else { MarkOne(ls[1..], k - 1, checked, next + 1); }
      case None => MarkOne(ls[1..], k, checked, next);
    }
  }

  lemma {:induction false} MarkNone(ls: seq<string>, indices: set<nat>, checked: bool, next: nat)
    requires forall k | k in indices :: k < next
    ensures MarkLines(ls, indices, checked, next) == ls
  {
    hide ParseCheckbox;
    if ls != [] { MarkNone(ls[1..], indices, checked, if ParseCheckbox(ls[0]).Some? then next + 1 else next); }
  }

  lemma {:induction false} MarkTwice(ls: seq<string>, a: set<nat>, b: set<nat>, checked: bool, next: nat)
    ensures MarkLines(MarkLines(ls, a, checked, next), b, checked, next) == MarkLines(ls, a + b, checked, next)
  {
    hide ParseCheckbox;
    if ls != [] {
      var after := if ParseCheckbox(ls[0]).Some? then next + 1 else next;
      MarkTwice(ls[1..], a, b, checked, after);
      var once := MarkLines(ls, a, checked, next);
      assert once[1..] == MarkLines(ls[1..], a, checked, after);
      if ParseCheckbox(ls[0]).Some? {
        MarkedLine(ls[0], checked);
        var pos := ParseCheckbox(ls[0]).value.pos;
        assert Mark(Mark(ls[0], pos, checked), pos, checked) == Mark(ls[0], pos, checked);
        assert ParseCheckbox(once[0]).Some? && ParseCheckbox(once[0]).value.pos == pos;
      }
    }
  }

  function ToSet(indices: seq<nat>): set<nat> {
    set k | k in indices
  }

  lemma ToSetCons(indices: seq<nat>)
    requires indices != []
    ensures ToSet(indices) == {indices[0]} + ToSet(indices[1..])
  {
    assert indices == [indices[0]] + indices[1..];
  }

  /**
   Checking any list of indices, in any order and with repeats, fails iff some index is out of
   range and otherwise overwrites exactly the addressed lines' state scalars; so only the set
   of indices matters, and the other items keep their text, state and address.
   */
  lemma {:induction false} CheckedSet(body: string, indices: seq<nat>, checked: bool)
    ensures var r := SetTodosChecked(body, indices, checked);
      && (r.Body? <==> forall k | k in ToSet(indices) :: k < |Items(body)|)
      && (r.Body? ==> r.body == Join(MarkLines(Lines(body), ToSet(indices), checked, 0))
                      && Items(r.body) == MarkItems(Items(body), ToSet(indices), checked))
    decreases |indices|
  {
    hide ParseCheckbox, SetTodoChecked, MarkLines;
    if indices == [] {
      MarkNone(Lines(body), {}, checked, 0);
      JoinLines(body);
      assert ToSet(indices) == {};
      assert MarkItems(Items(body), {}, checked) == Items(body);
    } else {
      var k, others := indices[0], ToSet(indices[1..]);
      CheckedItems(body, k, checked);
      ToSetCons(indices);
      hide ToSet, Items, Lines;
      if k < |Items(body)| {
        CheckedSet(SetTodoChecked(body, k, checked).body, indices[1..], checked);
        MarkTwice(Lines(body), {k}, others, checked, 0);
      }
    }
  }

  lemma {:induction false} MarkLinesKeepsLines(ls: seq<string>, indices: set<nat>, checked: bool, next: nat)
    requires forall i | 0 <= i < |ls| :: OneLine(ls[i])
    ensures forall i | 0 <= i < |ls| :: OneLine(MarkLines(ls, indices, checked, next)[i])
  {
    hide ParseCheckbox;
    if ls != [] {
      MarkLinesKeepsLines(ls[1..], indices, checked, if ParseCheckbox(ls[0]).Some? then next + 1 else next);
      if ParseCheckbox(ls[0]).Some? { MarkedLine(ls[0], checked); }
    }
  }

  method CheckTodos(body: string, indices: seq<nat>, checked: bool) returns (r: Edited)
    ensures r == SetTodosChecked(body, indices, checked)
  {
    var newBody := body;
    for n := 0 to |indices|
      invariant SetTodosChecked(newBody, indices[n..], checked) == SetTodosChecked(body, indices, checked)
    {
      assert indices[n..][1..] == indices[n + 1..];
      var step := RewriteTodoLine(newBody, indices[n], SetState(checked));
      if step.Rejected? { return step; }
      newBody := step.body;
    }
    r := Body(newBody);
  }

  // ---- appending ----

  /** `lines.iter().rposition(..)`. */
  function LastCheckbox(ls: seq<string>): (r: Option<nat>)
    ensures r.Some? ==> r.value < |ls|
  {
    if ls == [] then None
    else if ParseCheckbox(ls[|ls| - 1]).Some? then Some(|ls| - 1)
    else LastCheckbox(ls[..|ls| - 1])
  }

  lemma {:induction false} LastCheckboxIsLast(ls: seq<string>)
    ensures LastCheckbox(ls).None? ==> forall i | 0 <= i < |ls| :: ParseCheckbox(ls[i]).None?
    ensures LastCheckbox(ls).Some? ==> ParseCheckbox(ls[LastCheckbox(ls).value]).Some?
    ensures LastCheckbox(ls).Some? ==> forall i | LastCheckbox(ls).value < i < |ls| :: ParseCheckbox(ls[i]).None?
  {
    hide ParseCheckbox;
    if ls != [] && ParseCheckbox(ls[|ls| - 1]).None? { LastCheckboxIsLast(ls[..|ls| - 1]); }
  }

  function TrimNewlines(s: string): string
  {
    if s != "" && s[|s| - 1] == '\n' then TrimNewlines(s[..|s| - 1]) else s
  }

  function ItemText(text: string): string {
    match ParseCheckbox(text)
    case Some(b) => b.text
    case None => Trim(text)
  }

  function AppendTodo(body: string, text: string): string {
    Appended(body, "- [ ] " + ItemText(text))
  }

  function Appended(body: string, item: string): string {
    var ls := Lines(body);
    match LastCheckbox(ls)
    case Some(i) => Join(ls[..i + 1] + [item] + ls[i + 1..])
    case None => if body == "" then item else TrimNewlines(body) + "\n" + item
  }

  lemma ItemLine(text: string)
    requires OneLine(text) && TrimStart(text) == text
    ensures OneLine("- [ ] " + text)
    ensures ParseCheckbox("- [ ] " + text) == Some(Checkbox(3, false, StripCr(text)))
  {
    hide ParseCheckbox, TrimStart, StripCr, OneLine;
    var t := StripCr(text);
    var cr := if |t| == |text| then "" else "\r";
    StripCrKeepsFront(text);
    StripCrShape(text);
    OpenBoxWithText(t, cr);
    FrontIsOneLine(text);
  }

  lemma StripCrShape(text: string)
    ensures var t := StripCr(text);
      var cr := if |t| == |text| then "" else "\r";
      text == t + cr && (cr == "" ==> t == "" || t[|t| - 1] != '\r')
  {
  }

  lemma FrontIsOneLine(text: string)
    requires OneLine(text)
    ensures OneLine("- [ ] " + text)
  {
  }

  lemma StripCrKeepsFront(text: string)
    requires TrimStart(text) == text
    ensures TrimStart(StripCr(text)) == StripCr(text)
  {
    TrimStartBlanks(text);
    TrimStartAt(StripCr(text), 0);
  }

  lemma OpenBoxWithText(text: string, cr: string)
    requires TrimStart(text) == text
    requires cr == "\r" || (cr == "" && (text == "" || text[|text| - 1] != '\r'))
    ensures ParseCheckbox("- [ ] " + (text + cr)) == Some(Checkbox(3, false, text))
  {
    hide ParseCheckbox, TrimStart, StripCr;
    var front := "- [ ]";
    assert BoxAt(front, 0);
    assert "- [ ] " == front + " ";
    hide BoxAt;
    BoxWithText(front, text, cr);
    assert front + " " + text + cr == front + " " + (text + cr);
  }

  lemma ItemTextIsOneLine(text: string)
    requires OneLine(text)
    ensures OneLine(ItemText(text)) && TrimStart(ItemText(text)) == ItemText(text)
  {
    match ParseCheckbox(text)
    case Some(b) =>
      ParsedShape(text);
      var content := StripCr(text);
      TrimStartBlanks(content[b.pos + 2..]);
      TrimStartTwice(content[b.pos + 2..]);
      assert forall c | c in b.text :: c in content;
    case None => TrimmedIsSubset(text);
  }

  lemma {:induction false} ItemsConcat(a: seq<string>, b: seq<string>, next: nat)
    ensures ItemsFrom(a + b, next) == ItemsFrom(a, next) + ItemsFrom(b, next + |ItemsFrom(a, next)|)
  {
    hide ParseCheckbox;
    if a == [] {
      assert a + b == b;
    } else {
      assert (a + b)[1..] == a[1..] + b;
      ItemsConcat(a[1..], b, if ParseCheckbox(a[0]).Some? then next + 1 else next);
    }
  }

  lemma {:induction false} NoItems(ls: seq<string>, next: nat)
    requires forall i | 0 <= i < |ls| :: ParseCheckbox(ls[i]).None?
    ensures ItemsFrom(ls, next) == []
  {
    hide ParseCheckbox;
    if ls != [] { NoItems(ls[1..], next); }
  }

  /** Appending a one-line text adds exactly one open item, at the next free address. */
  lemma AppendedItem(body: string, text: string)
    requires OneLine(text)
    ensures Items(AppendTodo(body, text))
         == Items(body) + [TodoItem(|Items(body)|, StripCr(ItemText(text)), false)]
  {
    hide ParseCheckbox, ItemText, Appended, Lines, ItemsFrom, TrimStart, StripCr, LastCheckbox, KeptLines, OneLine;
    ItemTextIsOneLine(text);
    ItemLine(ItemText(text));
    ItemIsAppended(body, "- [ ] " + ItemText(text));
  }

  lemma ItemIsAppended(body: string, item: string)
    requires OneLine(item) && ParseCheckbox(item).Some?
    ensures var b := ParseCheckbox(item).value;
      Items(Appended(body, item)) == Items(body) + [TodoItem(|Items(body)|, b.text, b.checked)]
  {
    hide ParseCheckbox, Appended, Lines, ItemsFrom, LastCheckbox, KeptLines, OneLine;
    AppendedLine(body, item);
    var ls := Lines(body);
    LastCheckboxIsLast(ls);
    if i :| LastCheckbox(ls) == Some(i) {
      var head, tail := ls[..i + 1], ls[i + 1..];
      assert ls == head + tail;
      InsertedLine(head, item, tail);
    } else {
      ItemAtEnd(ls, item, KeptLines(body));
    }
  }

  lemma ItemAtEnd(ls: seq<string>, item: string, kept: seq<string>)
    requires ParseCheckbox(item).Some? && kept <= ls
    requires forall i | 0 <= i < |ls| :: ParseCheckbox(ls[i]).None?
    ensures var b := ParseCheckbox(item).value;
            ItemsFrom(ls, 0) == [] && ItemsFrom(kept + [item], 0) == [TodoItem(0, b.text, b.checked)]
  {
    hide ParseCheckbox, ItemsFrom;
    NoItems(ls, 0);
    forall i | 0 <= i < |kept| ensures ParseCheckbox(kept[i]).None? { assert kept[i] == ls[i]; }
    NoItems(kept, 0);
    ItemsConcat(kept, [item], 0);
    OneItem(item, 0);
  }

  function KeptLines(body: string): seq<string> {
    if body == "" then [] else Lines(TrimNewlines(body))
  }

  /** Where the new line goes: after the last checkbox line, else at the end of the kept lines. */
  lemma AppendedLine(body: string, item: string)
    requires OneLine(item)
    ensures match LastCheckbox(Lines(body))
      case Some(i) => Lines(Appended(body, item)) == Lines(body)[..i + 1] + [item] + Lines(body)[i + 1..]
      case None => Lines(Appended(body, item)) == KeptLines(body) + [item] && KeptLines(body) <= Lines(body)
  {
    hide ParseCheckbox, LastCheckbox;
    var ls := Lines(body);
    match LastCheckbox(ls)
    case Some(i) => LinesJoin(ls[..i + 1] + [item] + ls[i + 1..]);
    case None =>
      LinesOfOneLine(item);
      if body != "" {
        TrimNewlinesLines(body);
        hide TrimNewlines, Lines, Join;
        LineAfter(TrimNewlines(body), item);
      }
  }

  lemma InsertedLine(head: seq<string>, item: string, tail: seq<string>)
    requires ParseCheckbox(item).Some? && forall i | 0 <= i < |tail| :: ParseCheckbox(tail[i]).None?
    ensures var b, items := ParseCheckbox(item).value, ItemsFrom(head + tail, 0);
            ItemsFrom(head + [item] + tail, 0) == items + [TodoItem(|items|, b.text, b.checked)]
  {
    hide ParseCheckbox;
    var n := |ItemsFrom(head, 0)|;
    NoItems(tail, n);
    NoItems(tail, n + 1);
    ItemsConcat(head, tail, 0);
    ItemsConcat(head + [item], tail, 0);
    ItemsConcat(head, [item], 0);
    OneItem(item, n);
    hide ItemsFrom;
    assert |ItemsFrom(head + [item], 0)| == n + 1;
  }

  lemma OneItem(item: string, next: nat)
    requires ParseCheckbox(item).Some?
    ensures var b := ParseCheckbox(item).value;
            ItemsFrom([item], next) == [TodoItem(next, b.text, b.checked)]
  {
    hide ParseCheckbox;
    assert [item][1..] == [];
  }

  /** Dropping trailing newlines drops only empty last lines. */
  lemma {:induction false} TrimNewlinesLines(body: string)
    ensures Lines(TrimNewlines(body)) <= Lines(body)
  {
    if body != "" && body[|body| - 1] == '\n' {
      var front := body[..|body| - 1];
      TrimNewlinesLines(front);
      assert body == front + "\n";
      LinesConcat(front, "\n");
      assert Lines("\n") == ["", ""];
      assert Lines(front)[|Lines(front)| - 1] + "" == Lines(front)[|Lines(front)| - 1];
    }
  }
}

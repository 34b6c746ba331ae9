/**
 The single splice a whole-body write is stored as, and line-range replacement
 (content/edits.rs).
 */
module Splice {
  import opened Text

  datatype BodySplice = BodySplice(pos: nat, del: nat, insert: string)

  ghost predicate Fits(was: string, s: BodySplice) {
    s.pos + s.del <= |was|
  }

  function Apply(was: string, s: BodySplice): string
    requires Fits(was, s)
  {
    was[..s.pos] + s.insert + was[s.pos + s.del..]
  }

  /** No splice that does the same job deletes or inserts fewer scalars. */
  ghost predicate Minimal(was: string, s: BodySplice)
    requires Fits(was, s)
  {
    forall t | Fits(was, t) && Apply(was, t) == Apply(was, s) ::
      s.del <= t.del && |s.insert| <= |t.insert|
  }

  ghost predicate SameFront(was: string, now: string, k: nat) {
    k <= |was| && k <= |now| && was[..k] == now[..k]
  }

  ghost predicate SameBack(was: string, now: string, k: nat) {
    k <= |was| && k <= |now| && was[|was| - k..] == now[|now| - k..]
  }

  lemma OneMoreInFront(was: string, now: string, k: nat)
    requires SameFront(was, now, k) && k < |was| && k < |now| && was[k] == now[k]
    ensures SameFront(was, now, k + 1)
  {
    assert was[..k + 1] == was[..k] + [was[k]] && now[..k + 1] == now[..k] + [now[k]];
  }

  lemma OneMoreBehind(was: string, now: string, k: nat)
    requires SameBack(was, now, k) && k < |was| && k < |now| && was[|was| - 1 - k] == now[|now| - 1 - k]
    ensures SameBack(was, now, k + 1)
  {
    var o, n := |was| - 1 - k, |now| - 1 - k;
    assert was[o..] == [was[o]] + was[o + 1..] && now[n..] == [now[n]] + now[n + 1..];
  }

  lemma NothingSame(was: string, now: string)
    ensures SameFront(was, now, 0) && SameBack(was, now, 0)
  {
  }

  /** The splice between what is the same in front and what is the same behind. */
  lemma MiddleSplice(was: string, now: string, pre: nat, suf: nat)
    requires SameFront(was, now, pre) && SameBack(was, now, suf) && pre + suf <= |was| && pre + suf <= |now|
    requires pre == |was| || pre == |now| || was[pre] != now[pre]
    requires pre + suf == |was| || pre + suf == |now| || was[|was| - 1 - suf] != now[|now| - 1 - suf]
    ensures var s := BodySplice(pre, |was| - pre - suf, now[pre..|now| - suf]);
      Fits(was, s) && Apply(was, s) == now && Minimal(was, s)
  {
    SpliceApplies(was, now, pre, suf);
    LongestIsMinimal(was, now, pre, suf);
    hide Minimal;
  }

  method MakeSplice(was: string, now: string) returns (r: Option<BodySplice>)
    ensures r.None? <==> was == now
    ensures r.Some? ==> Fits(was, r.value) && Apply(was, r.value) == now && Minimal(was, r.value)
  {
    hide Apply, Minimal, SameFront, SameBack;
    if was == now { return None; }
    NothingSame(was, now);
    var o, n := |was|, |now|;
    var maxPre := if o < n then o else n;
    var pre := 0;
    while pre < maxPre && was[pre] == now[pre]
      invariant pre <= maxPre && SameFront(was, now, pre)
    {
      OneMoreInFront(was, now, pre);
      pre := pre + 1;
    }
    var maxSuf := maxPre - pre;
    var suf := 0;
    while suf < maxSuf && was[o - 1 - suf] == now[n - 1 - suf]
      invariant suf <= maxSuf && SameBack(was, now, suf)
    {
      OneMoreBehind(was, now, suf);
      suf := suf + 1;
    }
    MiddleSplice(was, now, pre, suf);
    r := Some(BodySplice(pre, o - pre - suf, now[pre..n - suf]));
  }

  lemma SpliceApplies(o: string, n: string, pre: nat, suf: nat)
    requires pre + suf <= |o| && pre + suf <= |n| && o[..pre] == n[..pre] && o[|o| - suf..] == n[|n| - suf..]
    ensures Apply(o, BodySplice(pre, |o| - pre - suf, n[pre..|n| - suf])) == n
  {
    assert n == n[..pre] + n[pre..|n| - suf] + n[|n| - suf..];
  }

  /** A splice keeps a common prefix and a common suffix, and none can keep more than the trimmed ones. */
  lemma LongestIsMinimal(o: string, n: string, pre: nat, suf: nat)
    requires pre + suf <= |o| && pre + suf <= |n| && o[..pre] == n[..pre] && o[|o| - suf..] == n[|n| - suf..]
    requires pre == |o| || pre == |n| || o[pre] != n[pre]
    requires pre + suf == |o| || pre + suf == |n| || o[|o| - 1 - suf] != n[|n| - 1 - suf]
    ensures Minimal(o, BodySplice(pre, |o| - pre - suf, n[pre..|n| - suf]))
  {
    SpliceApplies(o, n, pre, suf);
    var s := BodySplice(pre, |o| - pre - suf, n[pre..|n| - suf]);
    forall t | Fits(o, t) && Apply(o, t) == Apply(o, s)
      ensures s.del <= t.del && |s.insert| <= |t.insert|
    {
      KeepsAtMost(o, n, pre, suf, t);
    }
  }

  lemma KeepsAtMost(o: string, n: string, pre: nat, suf: nat, t: BodySplice)
    requires pre + suf <= |o| && pre + suf <= |n| && o[..pre] == n[..pre] && o[|o| - suf..] == n[|n| - suf..]
    requires pre == |o| || pre == |n| || o[pre] != n[pre]
    requires pre + suf == |o| || pre + suf == |n| || o[|o| - 1 - suf] != n[|n| - 1 - suf]
    requires Fits(o, t) && Apply(o, t) == n
    ensures |o| - t.del <= pre + suf && |n| - |t.insert| == |o| - t.del
  {
    var kept := |o| - t.pos - t.del;
    assert |n| == t.pos + |t.insert| + kept;
    assert n[..t.pos] == o[..t.pos];
    assert n[|n| - kept..] == o[|o| - kept..];
    hide Apply;
    if t.pos > pre { SameFromStart(o, n, t.pos, pre); }
    if kept > suf { SameFromEnd(o, n, kept, suf); }
  }

  lemma SameFromStart(o: string, n: string, k: nat, i: nat)
    requires i < k <= |o| && k <= |n| && n[..k] == o[..k]
    ensures n[i] == o[i]
  {
    assert n[..k][i] == o[..k][i];
  }

  lemma SameFromEnd(o: string, n: string, k: nat, i: nat)
    requires i < k <= |o| && k <= |n| && n[|n| - k..] == o[|o| - k..]
    ensures n[|n| - 1 - i] == o[|o| - 1 - i]
  {
    assert n[|n| - k..][k - 1 - i] == o[|o| - k..][k - 1 - i];
  }

  // ---- replacing a range of lines ----

  datatype LineError = OutOfRange(start: nat, end: nat, count: nat) | Inverted(start: nat, end: nat)
  datatype Lined = Body(body: string) | Refused(error: LineError)

  function ReplaceLines(body: string, start: nat, end: nat, replacement: string): Lined {
    var ls := Lines(body);
    if start == 0 || end == 0 || start > end then Refused(Inverted(start, end))
    else if end > |ls| then Refused(OutOfRange(start, end, |ls|))
    else
      var out := ls[..start - 1] + (if replacement == "" then [] else Lines(replacement)) + ls[end..];
      Body(if out == [] then "" else Join(out))
  }

  /** The lines outside the range survive unchanged, in order, around the replacement's own lines. */
  lemma ReplacedLines(body: string, start: nat, end: nat, replacement: string)
    ensures var r, ls := ReplaceLines(body, start, end, replacement), Lines(body);
      && (r.Body? <==> 1 <= start <= end <= |ls|)
      && (r.Body? && (replacement != "" || end - start + 1 < |ls|) ==>
          Lines(r.body) == ls[..start - 1] + (if replacement == "" then [] else Lines(replacement)) + ls[end..])
      && (r.Body? && replacement == "" && end - start + 1 == |ls| ==> r.body == "")
  {
    var ls := Lines(body);
    hide Lines;
    if 1 <= start <= end <= |ls| {
      var middle := if replacement == "" then [] else Lines(replacement);
      var out := ls[..start - 1] + middle + ls[end..];
      if out != [] {
        assert forall i | 0 <= i < |out| :: OneLine(out[i]);
        LinesJoin(out);
      }
    }
  }
}

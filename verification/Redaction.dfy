/** Masking of known secrets in text (app/crypto.py, class Redactor). */
module Redaction {
  import opened Text

  const REDACTED := "***REDACTED***"
  const MIN_REDACTABLE_LENGTH := 4

  /** What the constructor keeps: the long enough values, each once, longest first. */
  ghost predicate IsValueList(values: seq<string>) {
    && (forall i :: 0 <= i < |values| ==> |values[i]| >= MIN_REDACTABLE_LENGTH)
    && (forall i, j :: 0 <= i < j < |values| ==> values[i] != values[j])
    && (forall i, j :: 0 <= i < j < |values| ==> |values[i]| >= |values[j]|)
  }

  /** The replacements of `redact`, one value after the other. */
  function RedactAll(values: seq<string>, text: string): string
    requires forall v :: v in values ==> |v| > 0
  {
    if values == [] then text
    else
      assert values[0] in values;
      RedactAll(values[1..], Replace(text, values[0], REDACTED))
  }

  lemma RedactAllLast(values: seq<string>, v: string, text: string)
    requires forall w :: w in values + [v] ==> |w| > 0
    ensures forall w :: w in values ==> w in values + [v]
    ensures RedactAll(values + [v], text) == Replace(RedactAll(values, text), v, REDACTED)
  {
    assert v in values + [v];
    assert forall w :: w in values ==> w in values + [v];
    if values != [] {
      assert (values + [v])[1..] == values[1..] + [v];
      assert forall w :: w in values[1..] + [v] ==> w in values + [v];
      RedactAllLast(values[1..], v, Replace(text, values[0], REDACTED));
    }
  }

  class Redactor {
    var values: seq<string>

    ghost predicate Valid()
      reads this
    {
      IsValueList(values)
    }

    constructor (secrets: seq<string>)
      ensures Valid()
      ensures forall v :: v in values <==> v in secrets && |v| >= MIN_REDACTABLE_LENGTH
    {
      var sorted: seq<string> := [];
      for i := 0 to |secrets|
        invariant IsValueList(sorted)
        invariant forall v :: v in sorted <==> v in secrets[..i] && |v| >= MIN_REDACTABLE_LENGTH
      {
        assert forall v :: v in secrets[..i + 1] <==> v in secrets[..i] || v == secrets[i];
        if |secrets[i]| >= MIN_REDACTABLE_LENGTH && secrets[i] !in sorted {
          sorted := InsertByLength(sorted, secrets[i]);
        }
      }
      assert secrets[..|secrets|] == secrets;
      values := sorted;
    }

    method Redact(text: string) returns (redacted: string)
      requires Valid()
      ensures forall v :: v in values ==> |v| > 0
      ensures redacted == RedactAll(values, text)
    {
      redacted := text;
      for i := 0 to |values|
        invariant forall v :: v in values[..i] ==> |v| > 0
        invariant redacted == RedactAll(values[..i], text)
      {
        assert values[..i + 1] == values[..i] + [values[i]];
        RedactAllLast(values[..i], values[i], text);
        redacted := Replace(redacted, values[i], REDACTED);
      }
      assert values[..|values|] == values;
    }
  }

  lemma InsertKeepsValueList(sorted: seq<string>, i: nat, v: string)
    requires IsValueList(sorted) && i <= |sorted|
    requires |v| >= MIN_REDACTABLE_LENGTH && v !in sorted
    requires forall k :: 0 <= k < i ==> |sorted[k]| >= |v|
    requires forall k :: i <= k < |sorted| ==> |sorted[k]| < |v|
    ensures IsValueList(sorted[..i] + [v] + sorted[i..])
  {
    var r := sorted[..i] + [v] + sorted[i..];
    var from := seq(|r|, k => if k < i then k else k - 1);
    assert forall k :: 0 <= k < |r| && k != i ==> 0 <= from[k] < |sorted| && r[k] == sorted[from[k]];
    forall j, k | 0 <= j < k < |r|
      ensures r[j] != r[k] && |r[j]| >= |r[k]|
    {
      if j == i {
        assert r[k] == sorted[from[k]];
      } else if k == i {
        assert r[j] == sorted[from[j]];
      } else {
        assert r[j] == sorted[from[j]] && r[k] == sorted[from[k]] && from[j] < from[k];
      }
    }
  }

  /** Put a new value behind every value at least as long, keeping the list longest first. */
  method InsertByLength(sorted: seq<string>, v: string) returns (r: seq<string>)
    requires IsValueList(sorted)
    requires |v| >= MIN_REDACTABLE_LENGTH && v !in sorted
    ensures IsValueList(r)
    ensures forall w :: w in r <==> w in sorted || w == v
  {
    var i := 0;
    while i < |sorted| && |sorted[i]| >= |v|
      invariant 0 <= i <= |sorted|
      invariant forall k :: 0 <= k < i ==> |sorted[k]| >= |v|
    {
      i := i + 1;
    }
    InsertKeepsValueList(sorted, i, v);
    r := sorted[..i] + [v] + sorted[i..];
    assert sorted == sorted[..i] + sorted[i..];
  }

  // ------------------------------------------------------------------ when masking is complete

  /** `v`, laid over the mask at offset `d`, agrees with it wherever the two overlap. */
  predicate AgreesAt(v: string, mask: string, d: int) {
    forall k :: 0 <= k < |v| && 0 <= d + k < |mask| ==> v[k] == mask[d + k]
  }

  /** Some overlapping placement of `v` on the mask agrees with it: `v` lies inside the mask,
      contains it, or has an end in common with it. */
  predicate Overlaps(v: string, mask: string) {
    exists d :: -|v| < d < |mask| && AgreesAt(v, mask, d)
  }

  /** Text next to an inserted mask cannot complete a value that does not overlap the mask. */
  lemma MaskCompletesNothing(a: string, mask: string, b: string, v: string)
    requires |v| > 0 && |mask| > 0
    ensures Contains(a + mask + b, v) ==> Contains(a, v) || Contains(b, v) || Overlaps(v, mask)
  {
    var s := a + mask + b;
    if Contains(s, v) {
      var i :| 0 <= i <= |s| - |v| && OccursAt(s, v, i);
      assert forall k :: 0 <= k < |v| ==> v[k] == s[i..i + |v|][k] == s[i + k];
      if i + |v| <= |a| {
        assert a[i..i + |v|] == v;
        assert OccursAt(a, v, i);
      } else if i >= |a| + |mask| {
        var j := i - |a| - |mask|;
        assert b[j..j + |v|] == v;
        assert OccursAt(b, v, j);
      } else {
        assert AgreesAt(v, mask, i - |a|);
      }
    }
  }

  lemma OccursInPart(s: string, from: nat, to: nat, v: string)
    requires from <= to <= |s|
    ensures Contains(s[from..to], v) ==> Contains(s, v)
  {
    if Contains(s[from..to], v) {
      var i :| 0 <= i <= to - from - |v| && OccursAt(s[from..to], v, i);
      SliceOfSlice(s, from, to, i, i + |v|);
      assert OccursAt(s, v, from + i);
    }
  }

  lemma ReplaceUnfold(s: string, target: string, mask: string)
    requires |target| > 0
    ensures Replace(s, target, mask)
            == if |s| < |target| then s
               else if s[..|target|] == target then mask + Replace(s[|target|..], target, mask)
               else [s[0]] + Replace(s[1..], target, mask)
  {
  }

  /** One step of a replacement that has already passed over `p`. */
  lemma ReplaceCases(p: string, s: string, target: string, mask: string)
    requires |target| > 0
    ensures |s| < |target| ==> Replace(s, target, mask) == s
    ensures |s| >= |target| && s[..|target|] == target ==>
              p + Replace(s, target, mask) == p + mask + Replace(s[|target|..], target, mask)
    ensures |s| >= |target| && s[..|target|] != target ==>
              && p + Replace(s, target, mask) == (p + [s[0]]) + Replace(s[1..], target, mask)
              && p + s == (p + [s[0]]) + s[1..]
  {
    hide Replace;
    ReplaceUnfold(s, target, mask);
  }

  /** A later replacement never recreates a value that was already gone. `p` is text left of `s`
      that the replacement has passed over. */
  lemma {:induction false} ReplaceKeepsAbsent(p: string, s: string, target: string, mask: string, u: string)
    requires |target| > 0 && |u| > 0 && |mask| > 0 && !Overlaps(u, mask)
    ensures Contains(p + Replace(s, target, mask), u) ==> Contains(p + s, u)
    decreases |s|
  {
    hide Contains, Overlaps, Replace;
    ReplaceCases(p, s, target, mask);
    if |s| < |target| {
    } else if s[..|target|] == target {
      var rest := s[|target|..];
      var done := Replace(rest, target, mask);
      MaskCompletesNothing(p, mask, done, u);
      PartsOf(p, s, |target|, u);
      ReplaceKeepsAbsent([], rest, target, mask, u);
      assert [] + done == done && [] + rest == rest;
    } else {
      ReplaceKeepsAbsent(p + [s[0]], s[1..], target, mask, u);
    }
  }

  lemma PartsOf(p: string, s: string, n: nat, u: string)
    requires n <= |s|
    ensures Contains(p, u) || Contains(s[n..], u) ==> Contains(p + s, u)
  {
    hide Contains;
    OccursInPart(p + s, 0, |p|, u);
    OccursInPart(p + s, |p| + n, |p + s|, u);
    assert (p + s)[0..|p|] == p && (p + s)[|p| + n..|p + s|] == s[n..];
  }

  /** `v` starts in the first `n` characters of `s`. */
  predicate StartsBefore(s: string, v: string, n: int) {
    exists i :: 0 <= i < n && OccursAt(s, v, i)
  }

  lemma StartsInPrefix(p: string, s: string, v: string)
    requires |v| > 0
    ensures Contains(p, v) ==> StartsBefore(p + s, v, |p|)
    ensures |s| < |v| && Contains(p + s, v) ==> StartsBefore(p + s, v, |p|)
  {
    if Contains(p, v) {
      var i :| 0 <= i <= |p| - |v| && OccursAt(p, v, i);
      assert p[i..i + |v|] == (p + s)[i..i + |v|];
      assert OccursAt(p + s, v, i);
    }
    if |s| < |v| && Contains(p + s, v) {
      var i :| 0 <= i <= |p + s| - |v| && OccursAt(p + s, v, i);
      assert i < |p|;
    }
  }

  /** A start that is not at `p`'s end is before it. */
  lemma StartsNotAt(p: string, s: string, v: string)
    requires |v| <= |s| && s[..|v|] != v
    ensures StartsBefore(p + s, v, |p| + 1) ==> StartsBefore(p + s, v, |p|)
  {
    assert (p + s)[|p|..|p| + |v|] == s[..|v|];
  }

  /** Replacing a value removes every occurrence of it, when the value does not overlap the mask. */
  lemma {:induction false} ReplaceRemoves(p: string, s: string, v: string, mask: string)
    requires |v| > 0 && |mask| > 0 && !Overlaps(v, mask)
    ensures Contains(p + Replace(s, v, mask), v) ==> StartsBefore(p + s, v, |p|)
    decreases |s|
  {
    hide Contains, Overlaps, Replace;
    ReplaceCases(p, s, v, mask);
    StartsInPrefix(p, s, v);
    if |s| < |v| {
    } else if s[..|v|] == v {
      var rest := s[|v|..];
      var done := Replace(rest, v, mask);
      MaskCompletesNothing(p, mask, done, v);
      ReplaceRemoves([], rest, v, mask);
      assert [] + done == done && [] + rest == rest;
    } else {
      ReplaceRemoves(p + [s[0]], s[1..], v, mask);
      StartsNotAt(p, s, v);
    }
  }

  lemma {:induction false} RedactKeepsAbsent(values: seq<string>, text: string, u: string)
    requires forall v :: v in values ==> |v| > 0
    requires |u| > 0 && !Overlaps(u, REDACTED)
    ensures Contains(RedactAll(values, text), u) ==> Contains(text, u)
  {
    if values != [] {
      assert values[0] in values;
      var next := Replace(text, values[0], REDACTED);
      RedactKeepsAbsent(values[1..], next, u);
      ReplaceKeepsAbsent([], text, values[0], REDACTED, u);
      assert [] + next == next && [] + text == text;
    }
  }

  /** A value that does not overlap the mask is gone from every redacted text, whatever else is redacted. */
  lemma {:induction false} RedactRemoves(values: seq<string>, text: string, v: string)
    requires forall w :: w in values ==> |w| > 0
    requires v in values && !Overlaps(v, REDACTED)
    ensures !Contains(RedactAll(values, text), v)
  {
    assert values[0] in values;
    var next := Replace(text, values[0], REDACTED);
    if values[0] == v {
      ReplaceRemoves([], text, v, REDACTED);
      assert [] + next == next;
      RedactKeepsAbsent(values[1..], next, v);
    } else {
      RedactRemoves(values[1..], next, v);
    }
  }

  lemma {:induction false} ReplaceAbsent(s: string, target: string)
    requires |target| > 0 && !Contains(s, target)
    ensures Replace(s, target, REDACTED) == s
  {
    if |s| >= |target| {
      assert !OccursAt(s, target, 0);
      assert s[1..|s|] == s[1..];
      OccursInPart(s, 1, |s|, target);
      ReplaceAbsent(s[1..], target);
      assert [s[0]] + s[1..] == s;
    }
  }

  /** Redaction of a text without any of the values is the identity. */
  lemma {:induction false} RedactSecretFree(values: seq<string>, text: string)
    requires forall v :: v in values ==> |v| > 0 && !Contains(text, v)
    ensures RedactAll(values, text) == text
  {
    if values != [] {
      assert values[0] in values;
      ReplaceAbsent(text, values[0]);
      RedactSecretFree(values[1..], text);
    }
  }

  // ------------------------------------------------------------------ and when it is not

  lemma SkipOne(s: string, v: string, mask: string, n: int)
    requires 0 < |v| <= |s| && n > 0 && !StartsBefore(s, v, n)
    ensures Replace(s, v, mask) == [s[0]] + Replace(s[1..], v, mask)
    ensures !StartsBefore(s[1..], v, n - 1)
  {
    hide Replace;
    assert !OccursAt(s, v, 0);
    ReplaceUnfold(s, v, mask);
    forall i | 0 <= i < n - 1
      ensures OccursAt(s[1..], v, i) ==> OccursAt(s, v, i + 1)
    {
      if OccursAt(s[1..], v, i) { SliceOfSlice(s, 1, |s|, i, i + |v|); }
    }
  }

  /** Replacing steps over a stretch in which the value does not start. */
  lemma {:induction false} ReplaceSkips(a: string, s: string, v: string, mask: string)
    requires 0 < |v| <= |s| && !StartsBefore(a + s, v, |a|)
    ensures Replace(a + s, v, mask) == a + Replace(s, v, mask)
  {
    hide Replace, StartsBefore;
    if a == [] {
      assert a + s == s;
    } else {
      SkipOne(a + s, v, mask, |a|);
      assert (a + s)[1..] == a[1..] + s;
      ReplaceSkips(a[1..], s, v, mask);
      assert a + Replace(s, v, mask) == [a[0]] + (a[1..] + Replace(s, v, mask));
    }
  }

  /** The parts of `v` that stick out of the mask to its left and right when laid over it at `d`. */
  function LeftOf(v: string, d: int): string
    requires -|v| < d
  {
    if d < 0 then v[..-d] else ""
  }

  function RightOf(v: string, mask: string, d: int): string
    requires d < |mask|
  {
    if d + |v| > |mask| && |mask| - d <= |v| then v[|mask| - d..] else ""
  }

  /** Inside `v` preceded by its own beginning, `v` starts early only if it repeats its first character. */
  lemma NoEarlyStart(v: string, m: nat, b: string)
    requires m < |v|
    ensures StartsBefore(v[..m] + (v + b), v, m) ==> v[0] == v[m]
  {
    var text := v[..m] + (v + b);
    if StartsBefore(text, v, m) {
      var i :| 0 <= i < m && OccursAt(text, v, i);
      assert forall k :: 0 <= k < |v| ==> v[k] == text[i..i + |v|][k] == text[i + k];
      assert v[0] == text[i] == v[i];
      assert v[m] == text[i + m] == v[i];
    }
  }

  lemma MaskedTextStillHolds(v: string, mask: string, d: int)
    requires |v| > 0 && -|v| < d < |mask| && AgreesAt(v, mask, d)
    ensures Contains(LeftOf(v, d) + (mask + RightOf(v, mask, d)), v)
  {
    var out := LeftOf(v, d) + (mask + RightOf(v, mask, d));
    var at := if d < 0 then 0 else d;
    forall k | 0 <= k < |v|
      ensures out[at + k] == v[k]
    {
      if 0 <= d + k < |mask| {
        assert v[k] == mask[d + k];
      }
    }
    assert out[at..at + |v|] == v;
    assert OccursAt(out, v, at);
  }

  lemma ReplaceHead(v: string, b: string, mask: string)
    requires |b| < |v|
    ensures Replace(v + b, v, mask) == mask + b
  {
    assert (v + b)[..|v|] == v && (v + b)[|v|..] == b;
  }

  lemma LeakLeaks(v: string, mask: string, d: int)
    requires |v| > 0 && |mask| > 0 && -|v| < d < |mask| && AgreesAt(v, mask, d)
    requires d < 0 ==> v[0] != mask[0]
    ensures Contains(Replace(LeftOf(v, d) + (v + RightOf(v, mask, d)), v, mask), v)
  {
    var a, b := LeftOf(v, d), RightOf(v, mask, d);
    assert |b| < |v|;
    if d < 0 {
      assert v[-d] == mask[0];
      NoEarlyStart(v, -d, b);
    }
    ReplaceSkips(a, v + b, v, mask);
    ReplaceHead(v, b, mask);
    MaskedTextStillHolds(v, mask, d);
  }

  /** A value that overlaps the mask has a text it survives in, even when it is the only secret. */
  lemma OverlapLeaks(v: string) returns (text: string)
    requires |v| > 0 && Overlaps(v, REDACTED)
    ensures Contains(Replace(text, v, REDACTED), v)
  {
    var d :| -|v| < d < |REDACTED| && AgreesAt(v, REDACTED, d);
    if d < 0 && v[0] == REDACTED[0] {
      // The mask ends with the character it starts with, so this value also overlaps its end.
      d := |REDACTED| - 1;
      assert AgreesAt(v, REDACTED, d);
    }
    text := LeftOf(v, d) + (v + RightOf(v, REDACTED, d));
    LeakLeaks(v, REDACTED, d);
  }

  /** Never found in any redacted text, whatever the other secrets and whatever their order. */
  ghost predicate AlwaysMasked(v: string) {
    forall values: seq<string>, text: string ::
      IsValueList(values) && v in values ==> !Contains(RedactAll(values, text), v)
  }

  /** Exactly when redaction is complete for a secret: it must not overlap the mask. */
  lemma MaskedExactly(v: string)
    requires |v| >= MIN_REDACTABLE_LENGTH
    ensures AlwaysMasked(v) <==> !Overlaps(v, REDACTED)
  {
    if Overlaps(v, REDACTED) {
      var text := OverlapLeaks(v);
      assert IsValueList([v]) && v in [v];
      var out := Replace(text, v, REDACTED);
      assert [v][1..] == [];
      assert RedactAll([v], text) == out;
    } else {
      forall values: seq<string>, text: string | IsValueList(values) && v in values
        ensures !Contains(RedactAll(values, text), v)
      {
        RedactRemoves(values, text, v);
      }
    }
  }

  /** The common case: a value that overlaps the mask has a star in it or is a part of the mask. */
  lemma OverlapNeedsStar(v: string)
    requires |v| > 0 && Overlaps(v, REDACTED)
    ensures '*' in v || Contains(REDACTED, v)
  {
    var d :| -|v| < d < |REDACTED| && AgreesAt(v, REDACTED, d);
    if d < 0 {
      assert v[-d] == REDACTED[0];
    } else if d + |v| > |REDACTED| {
      assert v[|REDACTED| - 1 - d] == REDACTED[|REDACTED| - 1];
    } else {
      assert REDACTED[d..d + |v|] == v;
      assert OccursAt(REDACTED, v, d);
    }
  }

  /** With no overlapping secret, redaction hides all of them and doing it twice changes nothing. */
  lemma RedactComplete(values: seq<string>, text: string)
    requires IsValueList(values)
    requires forall v :: v in values ==> !Overlaps(v, REDACTED)
    ensures forall v :: v in values ==> !Contains(RedactAll(values, text), v)
    ensures RedactAll(values, RedactAll(values, text)) == RedactAll(values, text)
  {
    forall v | v in values
      ensures !Contains(RedactAll(values, text), v)
    {
      RedactRemoves(values, text, v);
    }
    RedactSecretFree(values, RedactAll(values, text));
  }

  /** A secret with a star can be left readable by the code: the text repeats the part behind the star. */
  lemma StarredSecretLeaks()
    ensures RedactAll(["*abc"], "*abcabc") == "***REDACTED***abc"
    ensures Contains("***REDACTED***abc", "*abc")
  {
    var s := "*abcabc";
    assert s[..4] == "*abc" && s[4..] == "abc";
    assert Replace(s, "*abc", REDACTED) == REDACTED + "abc";
    assert ["*abc"][1..] == [];
    assert OccursAt("***REDACTED***abc", "*abc", 13);
  }
}

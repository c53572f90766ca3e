/** Job names as single path elements (`slugify` in app/jobs/archive.py). */
module Slugs {
  import opened Text

  predicate IsLetterOrDigit(c: char) {
    'a' <= c <= 'z' || 'A' <= c <= 'Z' || '0' <= c <= '9'
  }

  /** The class `[A-Za-z0-9._-]`. */
  predicate IsSafe(c: char) {
    IsLetterOrDigit(c) || c == '.' || c == '_' || c == '-'
  }

  datatype Kind = Unsafe | Dot | Dash

  predicate Is(kind: Kind, c: char) {
    match kind
    case Unsafe => !IsSafe(c)
    case Dot => c == '.'
    case Dash => c == '-'
  }

  /** The length of the run of such characters `s` starts with. */
  function RunLength(s: string, kind: Kind): (n: nat)
    ensures n <= |s|
    ensures forall i :: 0 <= i < n ==> Is(kind, s[i])
    ensures n < |s| ==> !Is(kind, s[n])
  {
    if s != "" && Is(kind, s[0]) then 1 + RunLength(s[1..], kind) else 0
  }

  /** `re.sub("x{min,}", "-", s)`: every run of at least `min` such characters becomes one dash. */
  function CollapseRuns(s: string, kind: Kind, min: nat): string
    requires min > 0
    decreases |s|
  {
    if s == "" then ""
    else
      var n := RunLength(s, kind);
      if n == 0 then [s[0]] + CollapseRuns(s[1..], kind, min)
      else (if n >= min then "-" else s[..n]) + CollapseRuns(s[n..], kind, min)
  }

  function LowerChar(c: char): char {
    if 'A' <= c <= 'Z' then c - 'A' + 'a' else c
  }

  function Lower(s: string): (r: string)
    ensures |r| == |s| && forall i :: 0 <= i < |s| ==> r[i] == LowerChar(s[i])
  {
    if s == "" then "" else [LowerChar(s[0])] + Lower(s[1..])
  }

  function Cleaned(name: string): string {
    var a := CollapseRuns(Strip(name, SPACES), Unsafe, 1);
    var b := CollapseRuns(a, Dot, 2);
    Strip(CollapseRuns(b, Dash, 2), {'-', '.'})
  }

  function Slugify(name: string): string {
    var cleaned := Lower(Cleaned(name));
    if cleaned == "" then "job" else cleaned
  }

  // ------------------------------------------------------------------ what a slug is

  predicate NoPair(s: string, c: char) {
    forall i :: 0 <= i < |s| - 1 ==> s[i] != c || s[i + 1] != c
  }

  predicate AllSafe(s: string) {
    forall i :: 0 <= i < |s| ==> IsSafe(s[i])
  }

  /** A nonempty path element of lower-case letters, digits, dots, underscores and dashes, without a run of
      dots or dashes and with neither at an end. */
  predicate IsSlug(s: string) {
    && s != "" && AllSafe(s) && (forall i :: 0 <= i < |s| ==> !('A' <= s[i] <= 'Z'))
    && NoPair(s, '.') && NoPair(s, '-')
    && s[0] !in {'-', '.'} && s[|s| - 1] !in {'-', '.'}
  }

  /** What a collapse does to the first character. */
  lemma CollapseHead(s: string, kind: Kind, min: nat)
    requires min > 0 && s != ""
    ensures var r := CollapseRuns(s, kind, min);
            r != "" && (r[0] == s[0] || (Is(kind, s[0]) && r[0] == '-'))
  {
  }

  lemma {:induction false} CollapseSafe(s: string, kind: Kind, min: nat)
    requires min > 0 && (if kind == Unsafe then min == 1 else AllSafe(s))
    ensures AllSafe(CollapseRuns(s, kind, min))
    decreases |s|
  {
    if s != "" {
      var n := RunLength(s, kind);
      CollapseSafe(if n == 0 then s[1..] else s[n..], kind, min);
    }
  }

  /** Collapsing runs of two or more leaves no pair. */
  lemma {:induction false} CollapseNoPair(s: string, kind: Kind)
    requires kind != Unsafe
    ensures NoPair(CollapseRuns(s, kind, 2), if kind == Dot then '.' else '-')
    decreases |s|
  {
    if s != "" {
      var n := RunLength(s, kind);
      var rest := if n == 0 then s[1..] else s[n..];
      CollapseNoPair(rest, kind);
      if rest != "" { CollapseHead(rest, kind, 2); }
    }
  }

  lemma NoPairJoin(a: string, b: string, c: char)
    requires NoPair(a, c) && NoPair(b, c)
    requires a == "" || b == "" || a[|a| - 1] != c || b[0] != c
    ensures NoPair(a + b, c)
  {
  }

  /** Collapsing dashes puts no two dots next to each other. */
  lemma {:induction false} DashesKeepDotsApart(s: string)
    requires NoPair(s, '.')
    ensures NoPair(CollapseRuns(s, Dash, 2), '.')
    decreases |s|
  {
    if s != "" {
      var n := RunLength(s, Dash);
      var rest := if n == 0 then s[1..] else s[n..];
      assert forall i :: 0 <= i < |rest| - 1 ==> rest[i] == s[i + if n == 0 then 1 else n];
      DashesKeepDotsApart(rest);
      if rest != "" { CollapseHead(rest, Dash, 2); }
      var head := if n == 0 then [s[0]] else if n >= 2 then "-" else s[..n];
      assert n > 0 ==> head[|head| - 1] == '-';
      NoPairJoin(head, CollapseRuns(rest, Dash, 2), '.');
    }
  }

  /** Stripping keeps what holds of characters and neighbours. */
  lemma StripKeeps(s: string, cs: set<char>)
    requires AllSafe(s) && NoPair(s, '.') && NoPair(s, '-')
    ensures var r := Strip(s, cs); AllSafe(r) && NoPair(r, '.') && NoPair(r, '-')
  {
    hide Strip;
    var k := StripIsPart(s, cs);
    var r := Strip(s, cs);
    assert forall i :: 0 <= i < |r| ==> r[i] == s[k + i];
  }

  lemma LowerIsSlug(t: string)
    requires t != "" && AllSafe(t) && NoPair(t, '.') && NoPair(t, '-')
    requires t[0] !in {'-', '.'} && t[|t| - 1] !in {'-', '.'}
    ensures IsSlug(Lower(t))
  {
    hide Lower;
  }

  /** Every job name becomes a slug. */
  lemma SlugifyYieldsSlug(name: string)
    ensures IsSlug(Slugify(name))
  {
    hide CollapseRuns, Strip, Lower, AllSafe, NoPair, IsSlug;
    var stripped := Strip(name, SPACES);
    var a := CollapseRuns(stripped, Unsafe, 1);
    var b := CollapseRuns(a, Dot, 2);
    var c := CollapseRuns(b, Dash, 2);
    CollapseSafe(stripped, Unsafe, 1);
    CollapseSafe(a, Dot, 2);
    CollapseSafe(b, Dash, 2);
    CollapseNoPair(a, Dot);
    DashesKeepDotsApart(b);
    CollapseNoPair(b, Dash);
    StripKeeps(c, {'-', '.'});
    var t := Strip(c, {'-', '.'});
    assert Cleaned(name) == t;
    if t != "" {
      LowerIsSlug(t);
    } else {
      assert Slugify(name) == "job" by { assert Lower("") == ""; }
      JobIsSlug();
    }
  }

  lemma JobIsSlug()
    ensures IsSlug("job")
  {
  }

  lemma {:induction false} CollapseNothing(s: string, kind: Kind, min: nat)
    requires min > 0
    requires kind == Unsafe ==> AllSafe(s)
    requires kind == Dot ==> min == 2 && NoPair(s, '.')
    requires kind == Dash ==> min == 2 && NoPair(s, '-')
    ensures CollapseRuns(s, kind, min) == s
    decreases |s|
  {
    if s != "" {
      var n := RunLength(s, kind);
      assert n >= 2 ==> Is(kind, s[0]) && Is(kind, s[1]);
      CollapseNothing(if n == 0 then s[1..] else s[n..], kind, min);
      assert s == [s[0]] + s[1..] && s == s[..n] + s[n..];
    }
  }

  lemma LowerNothing(s: string)
    requires forall i :: 0 <= i < |s| ==> !('A' <= s[i] <= 'Z')
    ensures Lower(s) == s
  {
    hide Lower;
  }

  /** A slug is its own slug, so slugs are exactly the names that come out unchanged. */
  lemma SlugsAreFixed(s: string)
    ensures IsSlug(s) <==> Slugify(s) == s
  {
    hide CollapseRuns, Strip, Lower;
    SlugifyYieldsSlug(s);
    if IsSlug(s) {
      StripNothing(s, SPACES);
      CollapseNothing(s, Unsafe, 1);
      CollapseNothing(s, Dot, 2);
      CollapseNothing(s, Dash, 2);
      StripNothing(s, {'-', '.'});
      LowerNothing(s);
    }
  }

  /** A slug is one path element, and none that walks up. */
  lemma SlugIsOneElement(name: string)
    ensures var s := Slugify(name); '/' !in s && ':' !in s && '\n' !in s && s != "" && s != "." && s != ".."
  {
    hide Slugify, NoPair;
    SlugifyYieldsSlug(name);
    var s := Slugify(name);
    assert forall i :: 0 <= i < |s| ==> IsSafe(s[i]);
  }

  // ------------------------------------------------------------------ what a slug keeps of a name

  predicate IsWord(c: char) { IsLetterOrDigit(c) || c == '_' }

  /** The unbroken stretches of letters, digits and underscores, in order. */
  function Words(s: string): (ws: seq<string>)
    ensures s != "" && IsWord(s[0]) ==> ws != []
  {
    if s == "" then []
    else
      var rest := Words(s[1..]);
      if !IsWord(s[0]) then rest
      else if |s| > 1 && IsWord(s[1]) then [[s[0]] + rest[0]] + rest[1..]
      else [[s[0]]] + rest
  }

  function LowerWords(ws: seq<string>): (r: seq<string>)
    ensures |r| == |ws| && forall i :: 0 <= i < |ws| ==> r[i] == Lower(ws[i])
  {
    seq(|ws|, i requires 0 <= i < |ws| => Lower(ws[i]))
  }

  lemma {:induction false} WordsAfter(gap: string, t: string)
    requires forall i :: 0 <= i < |gap| ==> !IsWord(gap[i])
    ensures Words(gap + t) == Words(t)
  {
    if gap == "" {
      assert gap + t == t;
    } else {
      assert (gap + t)[1..] == gap[1..] + t;
      WordsAfter(gap[1..], t);
    }
  }

  lemma {:induction false} WordsBefore(t: string, gap: string)
    requires forall i :: 0 <= i < |gap| ==> !IsWord(gap[i])
    ensures Words(t + gap) == Words(t)
  {
    if t == "" {
      WordsAfter(gap, "");
      assert t + gap == gap + "";
    } else {
      var all := t + gap;
      assert all[1..] == t[1..] + gap && all[0] == t[0];
      WordsBefore(t[1..], gap);
      assert |t| == 1 && gap != "" ==> all[1] == gap[0];
      assert |t| > 1 ==> all[1] == t[1];
    }
  }

  /** Stripping what belongs to no word keeps the words. */
  lemma StripKeepsWords(s: string, cs: set<char>)
    requires forall c :: c in cs ==> !IsWord(c)
    ensures Words(Strip(s, cs)) == Words(s)
  {
    hide LeftStrip, RightStrip, Words;
    var a := LeftStrip(s, cs);
    LeftStripHead(s, cs);
    var head := s[..|s| - |a|];
    assert s == head + a;
    WordsAfter(head, a);
    var b := RightStrip(a, cs);
    RightStripTail(a, cs);
    var end := a[|b|..];
    assert a == b + end;
    forall i | 0 <= i < |end|
      ensures !IsWord(end[i])
    {
      assert end[i] == a[|b| + i];
    }
    WordsBefore(b, end);
  }

  /** So does collapsing them. */
  lemma {:induction false} CollapseKeepsWords(s: string, kind: Kind, min: nat)
    requires min > 0
    ensures Words(CollapseRuns(s, kind, min)) == Words(s)
    decreases |s|
  {
    hide Words, CollapseRuns;
    CollapseStep(s, kind, min);
    if s != "" {
      var n := RunLength(s, kind);
      if n == 0 {
        CollapseKeepsWords(s[1..], kind, min);
        SameFirst(s[0], s[1..], kind, min);
        assert s == [s[0]] + s[1..];
      } else {
        CollapseKeepsWords(s[n..], kind, min);
        RunIsGap(s[..n], kind);
        WordsAfter("-", CollapseRuns(s[n..], kind, min));
        WordsAfter(s[..n], CollapseRuns(s[n..], kind, min));
        WordsAfter(s[..n], s[n..]);
        assert s == s[..n] + s[n..];
      }
    }
  }

  lemma CollapseStep(s: string, kind: Kind, min: nat)
    requires min > 0
    ensures var r, n := CollapseRuns(s, kind, min), RunLength(s, kind);
            if s == "" then r == ""
            else if n == 0 then r == [s[0]] + CollapseRuns(s[1..], kind, min)
            else r == (if n >= min then "-" else s[..n]) + CollapseRuns(s[n..], kind, min)
  {
  }

  lemma RunIsGap(gap: string, kind: Kind)
    requires forall i :: 0 <= i < |gap| ==> Is(kind, gap[i])
    ensures forall i :: 0 <= i < |gap| ==> !IsWord(gap[i])
  {
  }

  lemma SameFirst(c: char, a: string, kind: Kind, min: nat)
    requires min > 0 && Words(CollapseRuns(a, kind, min)) == Words(a)
    ensures Words([c] + CollapseRuns(a, kind, min)) == Words([c] + a)
  {
    hide Words, CollapseRuns;
    CollapseStep(a, kind, min);
    if a != "" {
      CollapseHead(a, kind, min);
      assert Is(kind, a[0]) ==> !IsWord(a[0]);
    }
    SameFirstStep(c, a, CollapseRuns(a, kind, min));
  }

  lemma SameFirstStep(c: char, a: string, b: string)
    requires Words(a) == Words(b) && (a == "" <==> b == "")
    requires a != "" ==> (IsWord(a[0]) <==> IsWord(b[0]))
    ensures Words([c] + a) == Words([c] + b)
  {
    assert ([c] + a)[1..] == a && ([c] + b)[1..] == b;
  }

  lemma {:induction false} LowerKeepsWords(s: string)
    ensures Words(Lower(s)) == LowerWords(Words(s))
  {
    if s != "" {
      LowerKeepsWords(s[1..]);
      var rest := Words(s[1..]);
      assert Lower(s)[1..] == Lower(s[1..]);
      if IsWord(s[0]) && |s| > 1 && IsWord(s[1]) {
        assert ([s[0]] + rest[0])[1..] == rest[0];
        assert Lower([s[0]] + rest[0]) == [LowerChar(s[0])] + Lower(rest[0]);
      } else if IsWord(s[0]) {
        assert Lower([s[0]]) == [LowerChar(s[0])];
      }
    }
  }

  lemma {:induction false} NoWordsLeft(s: string)
    requires Words(s) == []
    ensures forall i :: 0 <= i < |s| ==> !IsWord(s[i])
  {
    if s != "" { NoWordsLeft(s[1..]); }
  }

  /** A slug has the words of the name, in lower case and in order, none joined and none split; a name without any
      becomes `job`. */
  lemma SlugKeepsWords(name: string)
    ensures Words(name) != [] ==> Words(Slugify(name)) == LowerWords(Words(name))
    ensures Words(name) == [] ==> Slugify(name) == "job"
  {
    hide CollapseRuns, Strip, Lower, Words, LowerWords, AllSafe, NoPair;
    var stripped := Strip(name, SPACES);
    var a := CollapseRuns(stripped, Unsafe, 1);
    var b := CollapseRuns(a, Dot, 2);
    var c := CollapseRuns(b, Dash, 2);
    var t := Strip(c, {'-', '.'});
    StripKeepsWords(name, SPACES);
    CollapseKeepsWords(stripped, Unsafe, 1);
    CollapseKeepsWords(a, Dot, 2);
    CollapseKeepsWords(b, Dash, 2);
    StripKeepsWords(c, {'-', '.'});
    assert Cleaned(name) == t && Words(t) == Words(name);
    LowerKeepsWords(t);
    if Words(name) == [] {
      SafeWithoutWords(t, stripped, a, b, c);
    } else {
      assert t != "" by { NothingHasNoWords(); }
    }
  }

  lemma NothingHasNoWords()
    ensures Words("") == []
  {
  }

  /** Without words only dots and dashes are left, and those are stripped. */
  lemma SafeWithoutWords(t: string, stripped: string, a: string, b: string, c: string)
    requires a == CollapseRuns(stripped, Unsafe, 1) && b == CollapseRuns(a, Dot, 2) && c == CollapseRuns(b, Dash, 2)
    requires t == Strip(c, {'-', '.'}) && Words(t) == []
    ensures t == ""
  {
    hide CollapseRuns, Strip, Words, NoPair;
    CollapseSafe(stripped, Unsafe, 1);
    CollapseSafe(a, Dot, 2);
    CollapseSafe(b, Dash, 2);
    StripKeepsSafe(c, {'-', '.'});
    NoWordsLeft(t);
  }

  lemma StripKeepsSafe(s: string, cs: set<char>)
    requires AllSafe(s)
    ensures AllSafe(Strip(s, cs))
  {
    hide Strip;
    var k := StripIsPart(s, cs);
    var r := Strip(s, cs);
    assert forall i :: 0 <= i < |r| ==> r[i] == s[k + i];
  }
}

/** Python string operations the modelled code leans on, over `string` as a sequence of characters. */
module Text {

  /** `sub` starts at index `i` of `s`. */
  predicate OccursAt(s: string, sub: string, i: int) {
    0 <= i <= |s| - |sub| && s[i..i + |sub|] == sub
  }

  /** `sub in s`. */
  predicate Contains(s: string, sub: string) {
    exists i :: 0 <= i <= |s| - |sub| && OccursAt(s, sub, i)
  }

  lemma SliceOfSlice<T>(s: seq<T>, a: nat, b: nat, c: nat, d: nat)
    requires a <= b <= |s| && c <= d <= b - a
    ensures s[a..b][c..d] == s[a + c..a + d]
  {
    forall k | 0 <= k < d - c
      ensures s[a..b][c..d][k] == s[a + c..a + d][k]
    {
      assert s[a..b][c + k] == s[a + c + k];
    }
  }

  predicate StartsWith(s: string, prefix: string) {
    |prefix| <= |s| && s[..|prefix|] == prefix
  }

  /** `s.replace(old, new)` for a non-empty `target`: leftmost, non-overlapping. */
  function Replace(s: string, target: string, with: string): string
    requires |target| > 0
  {
    if |s| < |target| then s
    else if s[..|target|] == target then with + Replace(s[|target|..], target, with)
    else [s[0]] + Replace(s[1..], target, with)
  }

  /** Replacing a single character works character by character. */
  lemma ReplaceStep(s: string, c: char, with: string)
    ensures Replace(s, [c], with)
            == if s == "" then "" else (if s[0] == c then with else [s[0]]) + Replace(s[1..], [c], with)
  {
    assert s != "" ==> s[..1] == [s[0]];
  }

  lemma {:induction false} ReplaceChar(a: string, b: string, c: char, with: string)
    ensures Replace(a + b, [c], with) == Replace(a, [c], with) + Replace(b, [c], with)
  {
    hide Replace;
    ReplaceStep(a, c, with);
    if a == "" {
      assert a + b == b;
    } else {
      ReplaceStep(a + b, c, with);
      ReplaceChar(a[1..], b, c, with);
      assert (a + b)[1..] == a[1..] + b;
    }
  }

  /** The index of the first such character, or the length. */
  function Find(s: string, c: char): (k: nat)
    ensures k <= |s|
    ensures c !in s[..k]
    ensures k < |s| ==> s[k] == c
    ensures k == |s| ==> c !in s
  {
    if s == "" then 0
    else if s[0] == c then 0
    else
      var k := Find(s[1..], c);
      assert s[..k + 1] == [s[0]] + s[1..][..k];
      assert s == [s[0]] + s[1..];
      k + 1
  }

  lemma {:induction false} FindAfter(a: string, c: char, b: string)
    requires c !in a
    ensures Find(a + [c] + b, c) == |a|
  {
    if a != "" {
      assert (a + [c] + b)[1..] == a[1..] + [c] + b;
      FindAfter(a[1..], c, b);
    }
  }

  /** The first occurrence lies in a prefix that contains the character. */
  lemma {:induction false} FindInPrefix(a: string, b: string, c: char)
    requires c in a
    ensures Find(a + b, c) == Find(a, c) < |a|
  {
    if a[0] != c {
      assert (a + b)[1..] == a[1..] + b;
      assert a == [a[0]] + a[1..];
      FindInPrefix(a[1..], b, c);
    }
  }

  /** The number a string of digits stands for. */
  function Number(s: string): int {
    if s == "" then 0 else 10 * Number(s[..|s| - 1]) + (s[|s| - 1] as int - '0' as int)
  }

  /** `str(n)`. */
  function Decimal(n: nat): (s: string)
    ensures s != "" && (forall i :: 0 <= i < |s| ==> '0' <= s[i] <= '9') && (n > 0 ==> s[0] != '0')
    ensures Number(s) == n
  {
    var digit := (n % 10) as char + '0';
    if n < 10 then [digit] else Decimal(n / 10) + [digit]
  }

  // ------------------------------------------------------------------ stripping

  /** The ASCII characters `str.strip()` removes. */
  const SPACES: set<char> := {' ', '\t', '\n', '\r', '\U{0B}', '\U{0C}', '\U{1C}', '\U{1D}', '\U{1E}', '\U{1F}'}

  const SLASH: set<char> := {'/'}

  function LeftStrip(s: string, cs: set<char>): (r: string)
    ensures r == [] || r[0] !in cs
    ensures |r| <= |s| && s[|s| - |r|..] == r
  {
    if s != [] && s[0] in cs then LeftStrip(s[1..], cs) else s
  }

  function RightStrip(s: string, cs: set<char>): (r: string)
    ensures r == [] || r[|r| - 1] !in cs
    ensures r <= s
  {
    if s != [] && s[|s| - 1] in cs then RightStrip(s[..|s| - 1], cs) else s
  }

  /** `s.strip(chars)`. */
  function Strip(s: string, cs: set<char>): (r: string)
    ensures r == [] || (r[0] !in cs && r[|r| - 1] !in cs)
  {
    RightStrip(LeftStrip(s, cs), cs)
  }

  /** A stripped string is a stretch of the original. */
  lemma StripIsPart(s: string, cs: set<char>) returns (k: nat)
    ensures var r := Strip(s, cs); k + |r| <= |s| && r == s[k..k + |r|]
  {
    hide LeftStrip, RightStrip;
    var a := LeftStrip(s, cs);
    k := |s| - |a|;
    assert s[k..] == a;
    assert Strip(s, cs) <= a;
  }

  /** What `RightStrip` removes consists of the given characters only. */
  lemma {:induction false} RightStripTail(s: string, cs: set<char>)
    ensures forall i :: |RightStrip(s, cs)| <= i < |s| ==> s[i] in cs
  {
    if s != [] && s[|s| - 1] in cs {
      RightStripTail(s[..|s| - 1], cs);
    }
  }

  lemma {:induction false} LeftStripHead(s: string, cs: set<char>)
    ensures forall i :: 0 <= i < |s| - |LeftStrip(s, cs)| ==> s[i] in cs
  {
    if s != [] && s[0] in cs {
      LeftStripHead(s[1..], cs);
    }
  }

  lemma {:induction false} RightStripJoin(a: string, tail: string, cs: set<char>)
    requires a == "" || a[|a| - 1] !in cs
    requires forall i :: 0 <= i < |tail| ==> tail[i] in cs
    ensures RightStrip(a + tail, cs) == a
  {
    if tail != "" {
      assert (a + tail)[..|a + tail| - 1] == a + tail[..|tail| - 1];
      RightStripJoin(a, tail[..|tail| - 1], cs);
    } else {
      assert a + tail == a;
    }
  }

  lemma {:induction false} LeftStripJoin(head: string, a: string, cs: set<char>)
    requires a == "" || a[0] !in cs
    requires forall i :: 0 <= i < |head| ==> head[i] in cs
    ensures LeftStrip(head + a, cs) == a
  {
    if head != "" {
      assert (head + a)[1..] == head[1..] + a;
      LeftStripJoin(head[1..], a, cs);
    } else {
      assert head + a == a;
    }
  }

  lemma StripNothing(s: string, cs: set<char>)
    requires s == "" || (s[0] !in cs && s[|s| - 1] !in cs)
    ensures Strip(s, cs) == s
  {
  }

  /** Nothing is left exactly of a string that has only characters to be stripped. */
  lemma StripBlank(s: string, cs: set<char>)
    ensures Strip(s, cs) == "" <==> forall c :: c in s ==> c in cs
  {
    hide LeftStrip, RightStrip;
    var k := StripIsPart(s, cs);
    var left := LeftStrip(s, cs);
    LeftStripHead(s, cs);
    RightStripTail(left, cs);
    assert Strip(s, cs) != "" ==> s[k] == Strip(s, cs)[0];
    assert forall i :: |s| - |left| <= i < |s| ==> s[i] == left[i - (|s| - |left|)];
  }

  // ------------------------------------------------------------------ sorting

  /** `a <= b` for Python strings: lexicographic by code point. */
  predicate AtMost(a: string, b: string) {
    a == [] || (b != [] && (a[0] < b[0] || (a[0] == b[0] && AtMost(a[1..], b[1..]))))
  }

  lemma {:induction false} AtMostTotal(a: string, b: string)
    ensures AtMost(a, b) || AtMost(b, a)
    ensures AtMost(a, b) && AtMost(b, a) ==> a == b
  {
    if a != [] && b != [] && a[0] == b[0] {
      AtMostTotal(a[1..], b[1..]);
      assert a == [a[0]] + a[1..] && b == [b[0]] + b[1..];
    }
  }

  lemma {:induction false} AtMostTransitive(a: string, b: string, c: string)
    requires AtMost(a, b) && AtMost(b, c)
    ensures AtMost(a, c)
  {
    if a != [] && a[0] == b[0] == c[0] {
      AtMostTransitive(a[1..], b[1..], c[1..]);
    }
  }

  /** In strictly ascending order, hence without repetitions. */
  predicate Ascending(s: seq<string>) {
    forall i, j :: 0 <= i < j < |s| ==> AtMost(s[i], s[j]) && s[i] != s[j]
  }

  lemma InsertAscending(s: seq<string>, i: nat, x: string)
    requires Ascending(s) && i <= |s| && x !in s
    requires forall k :: 0 <= k < i ==> AtMost(s[k], x)
    requires i < |s| ==> AtMost(x, s[i])
    ensures Ascending(s[..i] + [x] + s[i..])
  {
    var r := s[..i] + [x] + s[i..];
    forall j, k | 0 <= j < k < |r|
      ensures AtMost(r[j], r[k]) && r[j] != r[k]
    {
      if j == i && k > i + 1 {
        AtMostTransitive(x, s[i], s[k - 1]);
      } else if j < i && k > i {
        assert AtMost(s[j], s[k - 1]);
      }
    }
  }

  /** `s` lists exactly `items`, in ascending order. */
  ghost predicate Enumerates(s: seq<string>, items: set<string>) {
    Ascending(s) && |s| == |items| && forall x :: x in s <==> x in items
  }

  /** Two ascending listings of the same set are equal. */
  lemma {:induction false} AscendingUnique(a: seq<string>, b: seq<string>, items: set<string>)
    requires Enumerates(a, items) && Enumerates(b, items)
    ensures a == b
    decreases |a|
  {
    if a != [] {
      LeastFirst(a, b, items);
      TailEnumerates(a, items);
      TailEnumerates(b, items);
      AscendingUnique(a[1..], b[1..], items - {a[0]});
      assert a == [a[0]] + a[1..] && b == [b[0]] + b[1..];
    }
  }

  lemma LeastFirst(a: seq<string>, b: seq<string>, items: set<string>)
    requires Enumerates(a, items) && Enumerates(b, items) && a != []
    ensures b != [] && a[0] == b[0]
  {
    assert a[0] in b && b[0] in a;
    var i :| 0 <= i < |b| && b[i] == a[0];
    var j :| 0 <= j < |a| && a[j] == b[0];
    AtMostTotal(a[0], b[0]);
  }

  lemma TailEnumerates(a: seq<string>, items: set<string>)
    requires Enumerates(a, items) && a != []
    ensures Enumerates(a[1..], items - {a[0]})
  {
    assert a[0] in items;
    assert forall x :: x in a <==> x == a[0] || x in a[1..];
  }

  /** `sorted(items)` of a set of strings. */
  method Sorted(items: set<string>) returns (r: seq<string>)
    ensures Enumerates(r, items)
  {
    r := [];
    var left := items;
    while exists x :: x in left
      invariant Ascending(r) && left <= items
      invariant forall x :: x in r <==> x in items - left
      invariant |r| + |left| == |items|
      decreases left
    {
      var x :| x in left;
      var i := 0;
      while i < |r| && AtMost(r[i], x)
        invariant 0 <= i <= |r|
        invariant forall k :: 0 <= k < i ==> AtMost(r[k], x)
      {
        i := i + 1;
      }
      if i < |r| { AtMostTotal(r[i], x); }
      InsertAscending(r, i, x);
      assert r == r[..i] + r[i..];
      assert forall y :: y in r[..i] + [x] + r[i..] <==> y in r || y == x;
      r := r[..i] + [x] + r[i..];
      left := left - {x};
    }
    assert left == {};
  }
}

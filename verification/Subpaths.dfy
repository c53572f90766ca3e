/** Joining a job or browse subpath onto a base path (`join_subpath` in app/engines/rcloneconf.py). */
module Subpaths {
  import opened Wrappers
  import opened Text

  // ------------------------------------------------------------------ components

  /** `s.split("/")`. */
  function Split(s: string): (parts: seq<string>)
    ensures parts != []
    decreases |s|
  {
    var k := Find(s, '/');
    if k == |s| then [s] else [s[..k]] + Split(s[k + 1..])
  }

  /** `"/".join(parts)`. */
  function Join(parts: seq<string>): string {
    if parts == [] then ""
    else if |parts| == 1 then parts[0]
    else parts[0] + "/" + Join(parts[1..])
  }

  predicate SlashFree(parts: seq<string>) {
    forall i :: 0 <= i < |parts| ==> '/' !in parts[i]
  }

  lemma {:induction false} JoinSplit(s: string)
    ensures Join(Split(s)) == s && SlashFree(Split(s))
    decreases |s|
  {
    hide Find;
    var k := Find(s, '/');
    if k < |s| {
      JoinSplit(s[k + 1..]);
      assert Split(s)[1..] == Split(s[k + 1..]);
      assert s == s[..k] + "/" + s[k + 1..];
    }
  }

  lemma {:induction false} SplitJoin(parts: seq<string>)
    requires parts != [] && SlashFree(parts)
    ensures Split(Join(parts)) == parts
  {
    hide Find;
    if |parts| == 1 {
      assert parts == [parts[0]];
    } else {
      SplitJoin(parts[1..]);
      var rest := Join(parts[1..]);
      FindAfter(parts[0], '/', rest);
      assert Join(parts)[..|parts[0]|] == parts[0] && Join(parts)[|parts[0]| + 1..] == rest;
    }
  }

  lemma {:induction false} JoinConcat(a: seq<string>, b: seq<string>)
    requires a != [] && b != []
    ensures Join(a + b) == Join(a) + "/" + Join(b)
  {
    if |a| == 1 {
      assert (a + b)[1..] == b;
    } else {
      assert (a + b)[1..] == a[1..] + b;
      JoinConcat(a[1..], b);
    }
  }

  /** A slash between two paths separates their components. */
  lemma SplitConcat(a: string, b: string)
    ensures Split(a + "/" + b) == Split(a) + Split(b)
  {
    hide Split, Join;
    JoinSplit(a);
    JoinSplit(b);
    JoinConcat(Split(a), Split(b));
    SplitJoin(Split(a) + Split(b));
  }

  /** A path lies at or below another, as strings, exactly when its components begin with the other's. */
  lemma InsideIsPrefix(a: string, d: string)
    ensures (a == d || StartsWith(a, d + "/")) <==> Split(d) <= Split(a)
  {
    hide Split, Join;
    JoinSplit(a);
    JoinSplit(d);
    if StartsWith(a, d + "/") {
      assert a == d + "/" + a[|d| + 1..];
      SplitConcat(d, a[|d| + 1..]);
    }
    if Split(d) <= Split(a) {
      var rest := Split(a)[|Split(d)|..];
      assert Split(a) == Split(d) + rest;
      if rest == [] {
        assert Split(a) == Split(d);
      } else {
        JoinConcat(Split(d), rest);
        assert a == d + "/" + Join(rest);
      }
    }
  }

  // ------------------------------------------------------------------ the join

  datatype PathError = OutsideBase

  /** The components that lead somewhere: neither empty nor `.`. */
  function Kept(parts: seq<string>): (r: seq<string>)
    ensures forall p :: p in r ==> p in parts && p != "" && p != "."
  {
    if parts == [] then []
    else (if parts[0] == "" || parts[0] == "." then [] else [parts[0]]) + Kept(parts[1..])
  }

  function Slashed(subpath: string): string { Replace(subpath, "\\", "/") }

  /** The components of a subpath, whichever slash it is written with. */
  function Components(subpath: string): seq<string> { Split(Slashed(subpath)) }

  function Extend(base: string, kept: seq<string>): string {
    if kept == [] then base
    else if base == "" then Join(kept)
    else RightStrip(base, SLASH) + "/" + Join(kept)
  }

  /** What joining means: refused when a component walks up, otherwise the base extended by what leads somewhere. */
  function Joined(base: string, subpath: string): Result<string, PathError> {
    if ".." in Components(subpath) then Err(OutsideBase) else Ok(Extend(base, Kept(Components(subpath))))
  }

  lemma {:induction false} KeptConcat(a: seq<string>, b: seq<string>)
    ensures Kept(a + b) == Kept(a) + Kept(b)
  {
    if a == [] {
      assert a + b == b;
    } else {
      assert (a + b)[1..] == a[1..] + b;
      KeptConcat(a[1..], b);
    }
  }

  lemma KeptOne(part: string)
    ensures Kept([part]) == if part == "" || part == "." then [] else [part]
  {
    assert [part][1..] == [];
  }

  /** Slashes at the ends add empty components only. */
  lemma {:induction false} LeadingSlashes(x: string)
    ensures Kept(Split(LeftStrip(x, SLASH))) == Kept(Split(x))
    ensures ".." in Split(LeftStrip(x, SLASH)) <==> ".." in Split(x)
    decreases |x|
  {
    hide Split, Kept;
    if x != "" && x[0] == '/' {
      LeadingSlashes(x[1..]);
      assert x == "" + "/" + x[1..];
      SplitConcat("", x[1..]);
      KeptConcat(Split(""), Split(x[1..]));
      EmptyPath();
    }
  }

  lemma {:induction false} TrailingSlashes(x: string)
    ensures Kept(Split(RightStrip(x, SLASH))) == Kept(Split(x))
    ensures ".." in Split(RightStrip(x, SLASH)) <==> ".." in Split(x)
    decreases |x|
  {
    hide Split, Kept;
    if x != "" && x[|x| - 1] == '/' {
      var y := x[..|x| - 1];
      TrailingSlashes(y);
      assert x == y + "/" + "";
      SplitConcat(y, "");
      KeptConcat(Split(y), Split(""));
      EmptyPath();
    }
  }

  lemma EmptyPath()
    ensures Split("") == [""] && Kept(Split("")) == [] && Kept([]) == []
  {
  }

  lemma StripKeepsComponents(x: string)
    ensures Kept(Split(Strip(x, SLASH))) == Kept(Split(x))
    ensures ".." in Split(Strip(x, SLASH)) <==> ".." in Split(x)
  {
    hide Split, Kept, LeftStrip, RightStrip;
    LeadingSlashes(x);
    TrailingSlashes(LeftStrip(x, SLASH));
  }

  /** `join_subpath`; a subpath of None is the empty one. */
  method JoinSubpath(base: string, subpath: string) returns (r: Result<string, PathError>)
    ensures r == Joined(base, subpath)
  {
    hide Split, Join, Strip, RightStrip, Kept;
    StripKeepsComponents(Slashed(subpath));
    EmptyPath();
    if subpath == "" {
      assert Slashed(subpath) == "";
      return Ok(base);
    }
    var candidate := Strip(Replace(subpath, "\\", "/"), SLASH);
    if candidate == "" {
      return Ok(base);
    }
    var parts: seq<string> := [];
    var components := Split(candidate);
    assert components == components[..|components|];
    for i := 0 to |components|
      invariant parts == Kept(components[..i])
      invariant ".." !in components[..i]
    {
      var part := components[i];
      assert components[..i + 1] == components[..i] + [part];
      KeptConcat(components[..i], [part]);
      KeptOne(part);
      if part == "" || part == "." {
        continue;
      }
      if part == ".." {
        return Err(OutsideBase);
      }
      parts := parts + [part];
    }
    if parts == [] {
      return Ok(base);
    }
    var suffix := Join(parts);
    if base == "" {
      return Ok(suffix);
    }
    r := Ok(RightStrip(base, SLASH) + "/" + suffix);
  }

  // ------------------------------------------------------------------ what it promises

  lemma KeptSlashFree(parts: seq<string>)
    requires SlashFree(parts)
    ensures SlashFree(Kept(parts))
  {
    forall i | 0 <= i < |Kept(parts)|
      ensures '/' !in Kept(parts)[i]
    {
      assert Kept(parts)[i] in parts;
    }
  }

  lemma {:induction false} KeptTwice(parts: seq<string>)
    ensures Kept(Kept(parts)) == Kept(parts)
  {
    if parts != [] {
      KeptTwice(parts[1..]);
      KeptConcat(if parts[0] == "" || parts[0] == "." then [] else [parts[0]], Kept(parts[1..]));
    }
  }

  /** A path of kept components ends in one of their characters, so stripping slashes leaves it. */
  lemma {:induction false} JoinedEnd(kept: seq<string>)
    requires kept != [] && SlashFree(kept) && "" !in kept
    ensures Join(kept) != "" && Join(kept)[|Join(kept)| - 1] != '/'
  {
    if |kept| > 1 { JoinedEnd(kept[1..]); }
  }

  /** A joined path has the components of the base followed by those of the subpath, so it never leaves the base. */
  lemma JoinExtends(base: string, subpath: string)
    ensures Joined(base, subpath).Ok? ==>
              Kept(Split(Joined(base, subpath).value)) == Kept(Split(base)) + Kept(Components(subpath))
  {
    hide Split, Join, RightStrip, Kept, Slashed;
    var kept := Kept(Components(subpath));
    EmptyPath();
    if kept != [] {
      JoinSplit(Slashed(subpath));
      KeptSlashFree(Components(subpath));
      SplitJoin(kept);
      KeptTwice(Components(subpath));
      var head := RightStrip(base, SLASH);
      SplitConcat(head, Join(kept));
      KeptConcat(Split(head), kept);
      TrailingSlashes(base);
    }
  }

  lemma ExtendTwice(base: string, a: seq<string>, b: seq<string>)
    requires SlashFree(a) && "" !in a
    ensures Extend(Extend(base, a), b) == Extend(base, a + b)
  {
    hide Join;
    if a == [] {
      assert a + b == b;
    } else if b == [] {
      assert a + b == a;
    } else {
      JoinConcat(a, b);
      JoinedEnd(a);
    }
  }

  lemma SlashedConcat(s: string, t: string)
    ensures Components(s + "/" + t) == Components(s) + Components(t)
  {
    hide Split;
    ReplaceChar(s, "/" + t, '\\', "/");
    ReplaceChar("/", t, '\\', "/");
    assert s + "/" + t == s + ("/" + t);
    assert Replace("/", "\\", "/") == "/";
    SplitConcat(Slashed(s), Slashed(t));
    assert Slashed(s) + ("/" + Slashed(t)) == Slashed(s) + "/" + Slashed(t);
  }

  /** Joining in two steps is joining once, refusals included. */
  lemma JoinComposes(base: string, s: string, t: string)
    ensures Joined(base, s + "/" + t) == match Joined(base, s) case Err(e) => Err(e) case Ok(path) => Joined(path, t)
  {
    hide Split, Join, RightStrip, Kept, Slashed, Extend;
    SlashedConcat(s, t);
    var a, b := Components(s), Components(t);
    JoinSplit(Slashed(s));
    KeptSlashFree(a);
    KeptConcat(a, b);
    ExtendTwice(base, Kept(a), Kept(b));
  }
}

/** Where removed files are archived: path algebra on `remote:path` specs
    (app/jobs/archive.py, and its consumers in app/jobs/restore.py and app/jobs/retention.py). */
module ArchivePaths {
  import opened Wrappers
  import opened Text
  import opened Slugs
  import opened Subpaths

  const ARCHIVE_SUFFIX := ".hivesync-archive"
  const CHILD_ARCHIVE_NAME := ".hivesync-archive"

  /** The two halves of `remote:path`; `remote` is empty for a plain path. */
  datatype Spec = Spec(remote: string, path: string)

  /** The text `(.*)$` captures: all of it, up to one trailing newline. None when a newline is in the way. */
  function RestOfLine(s: string): Option<string> {
    if '\n' !in s then Some(s)
    else if s[|s| - 1] == '\n' && '\n' !in s[..|s| - 1] then Some(s[..|s| - 1])
    else None
  }

  /** The pattern `^([A-Za-z0-9_.\-]{2,}):(.*)$`. */
  function SplitRemote(spec: string): Spec {
    var k := Find(spec, ':');
    if 2 <= k < |spec| && AllSafe(spec[..k]) && RestOfLine(spec[k + 1..]).Some?
    then Spec(spec[..k], RestOfLine(spec[k + 1..]).value)
    else Spec("", spec)
  }

  function StripRemote(spec: string): string { SplitRemote(spec).path }

  function Prefix(remote: string): string {
    if remote != "" then remote + ":" else ""
  }

  function Trim(path: string): string { Strip(path, SLASH) }

  predicate IsAbsolute(path: string) { StartsWith(path, "/") }

  // ------------------------------------------------------------------ the module's functions

  /** The default archive for a path: a child of a root, otherwise a sibling. */
  function DefaultPath(path: string): string {
    var trimmed := Trim(path);
    if trimmed == "" then if IsAbsolute(path) then "/" + CHILD_ARCHIVE_NAME else CHILD_ARCHIVE_NAME
    else if !IsAbsolute(path) && '/' !in trimmed then trimmed + "/" + CHILD_ARCHIVE_NAME
    else if IsAbsolute(path) then "/" + (trimmed + ARCHIVE_SUFFIX)
    else trimmed + ARCHIVE_SUFFIX
  }

  function DefaultBase(destination: string): string {
    var Spec(remote, path) := SplitRemote(destination);
    Prefix(remote) + DefaultPath(path)
  }

  function Qualify(archiveBase: string, destination: string): string {
    var remote := SplitRemote(destination).remote;
    if remote != "" && SplitRemote(archiveBase).remote == "" then remote + ":" + archiveBase else archiveBase
  }

  predicate IsInside(archiveBase: string, destination: string) {
    var a, d := SplitRemote(archiveBase), SplitRemote(destination);
    var archiveNorm, destNorm := Trim(a.path), Trim(d.path);
    && a.remote == d.remote
    && if destNorm == "" then archiveNorm != "" else archiveNorm == destNorm || StartsWith(archiveNorm, destNorm + "/")
  }

  datatype ArchiveError = SameAsDestination | OtherConnection | OtherShare

  /** The part of the archive path below the destination, without slashes around it. */
  function RelativeTo(archiveNorm: string, destNorm: string): string {
    Trim(if destNorm != "" && archiveNorm == destNorm then ""
         else if destNorm != "" && StartsWith(archiveNorm, destNorm + "/") then archiveNorm[|destNorm| + 1..]
         else archiveNorm)
  }

  function ExcludeFor(archiveBase: string, destination: string): Result<Option<string>, ArchiveError> {
    if !IsInside(archiveBase, destination) then Ok(None)
    else
      var relative := RelativeTo(Trim(StripRemote(archiveBase)), Trim(StripRemote(destination)));
      if relative == "" then Err(SameAsDestination) else Ok(Some("/" + relative + "/**"))
  }

  /** The first element of a path, which names the share or bucket. */
  function Share(path: string): string {
    Trim(path)[..Find(Trim(path), '/')]
  }

  /** Why an archive cannot work, if it cannot. */
  function Validate(destination: string, archiveBase: string): Option<ArchiveError> {
    var a, d := SplitRemote(archiveBase), SplitRemote(destination);
    if a.remote != d.remote then Some(OtherConnection)
    else if a.remote != "" && Share(a.path) != Share(d.path) then Some(OtherShare)
    else if ExcludeFor(archiveBase, destination).Err? then Some(ExcludeFor(archiveBase, destination).error)
    else None
  }

  datatype Layout = TimestampedDir | Suffix

  datatype Job = Job(name: string, archiveBase: string, layout: Layout)

  datatype ArchivePlan = ArchivePlan(base: string, backupDir: string, exclude: Option<string>, suffix: Option<string>,
                                     insideDestination: bool)

  function BaseFor(job: Job, destination: string): string {
    var chosen := Strip(job.archiveBase, SPACES);
    if chosen != "" then Qualify(chosen, destination) else DefaultBase(destination)
  }

  /** `stamp` is the formatted time of the run. */
  function PlanFor(job: Job, destination: string, stamp: string): Result<ArchivePlan, ArchiveError> {
    var base := BaseFor(job, destination);
    match Validate(destination, base)
    case Some(error) => Err(error)
    case None =>
      var exclude := ExcludeFor(base, destination);
      if exclude.Err? then Err(exclude.error)
      else if job.layout == Suffix then
        Ok(ArchivePlan(base, base, exclude.value, Some("." + stamp), exclude.value.Some?))
      else
        Ok(ArchivePlan(base, RightStrip(base, SLASH) + "/" + Slugify(job.name) + "/" + stamp, exclude.value, None,
                       exclude.value.Some?))
  }

  // ------------------------------------------------------------------ splitting and joining specs

  /** A spec that does split comes apart at its colon. */
  lemma SplitSound(spec: string)
    ensures var s := SplitRemote(spec);
            && (s.remote != "" ==> |s.remote| >= 2 && AllSafe(s.remote) && '\n' !in s.path
                                   && (spec == s.remote + ":" + s.path || spec == s.remote + ":" + s.path + "\n"))
            && (s.remote == "" ==> s.path == spec)
  {
    var k := Find(spec, ':');
    if SplitRemote(spec).remote != "" {
      var rest := spec[k + 1..];
      assert spec == spec[..k] + ":" + rest;
      if '\n' in rest {
        assert rest == rest[..|rest| - 1] + "\n";
        assert spec == spec[..k] + ":" + rest[..|rest| - 1] + "\n";
      }
    }
  }

  /** Whether a spec splits is decided at its first colon. */
  lemma SplitAtColon(head: string, rest: string)
    requires ':' !in head
    ensures SplitRemote(head + ":" + rest)
            == if |head| >= 2 && AllSafe(head) && RestOfLine(rest).Some? then Spec(head, RestOfLine(rest).value)
               else Spec("", head + ":" + rest)
  {
    hide RestOfLine, AllSafe;
    var s := head + ":" + rest;
    FindAfter(head, ':', rest);
    assert s[..|head|] == head && s[|head| + 1..] == rest;
  }

  lemma SafeHasNoColon(remote: string)
    requires AllSafe(remote)
    ensures ':' !in remote
  {
    assert forall i :: 0 <= i < |remote| ==> IsSafe(remote[i]);
  }

  /** Reattaching an alias and splitting it off again are inverse. */
  lemma SplitJoined(remote: string, path: string)
    requires |remote| >= 2 && AllSafe(remote) && '\n' !in path
    ensures SplitRemote(remote + ":" + path) == Spec(remote, path)
  {
    SafeHasNoColon(remote);
    SplitAtColon(remote, path);
  }

  /** What splits: two or more safe characters before the first colon, and behind it no newline but one at the end,
      which is dropped. */
  lemma SplitExactly(remote: string, path: string)
    requires ':' !in remote
    ensures SplitRemote(remote + ":" + path).remote != ""
            <==> |remote| >= 2 && AllSafe(remote)
                 && ('\n' !in path || (path[|path| - 1] == '\n' && '\n' !in path[..|path| - 1]))
    ensures |remote| >= 2 && AllSafe(remote) && '\n' !in path ==>
              SplitRemote(remote + ":" + path + "\n") == Spec(remote, path)
  {
    hide SplitRemote, AllSafe;
    SplitAtColon(remote, path);
    SplitAtColon(remote, path + "\n");
    assert remote + ":" + (path + "\n") == remote + ":" + path + "\n";
    assert (path + "\n")[..|path|] == path;
  }

  lemma SplitRejoins(spec: string)
    requires spec == "" || spec[|spec| - 1] != '\n'
    ensures SplitRemote(spec).remote != "" ==> spec == SplitRemote(spec).remote + ":" + SplitRemote(spec).path
  {
    hide SplitRemote;
    SplitSound(spec);
  }

  // ------------------------------------------------------------------ the default archive

  /** The default's path without its slashes. */
  function DefaultTrimmed(path: string): string {
    var trimmed := Trim(path);
    if trimmed == "" then CHILD_ARCHIVE_NAME
    else if IsChildCase(path) then trimmed + "/" + CHILD_ARCHIVE_NAME
    else trimmed + ARCHIVE_SUFFIX
  }

  /** A destination without a parent the archive could go beside: a whole remote, or a share root. */
  predicate IsChildCase(path: string) {
    Trim(path) == "" || (!IsAbsolute(path) && '/' !in Trim(path))
  }

  lemma TrimAbsolute(x: string)
    requires x != "" && x[0] != '/' && x[|x| - 1] != '/'
    ensures Trim("/" + x) == x && Trim(x) == x
  {
    assert ("/" + x)[1..] == x;
    StripNothing(x, SLASH);
    assert LeftStrip("/" + x, SLASH) == LeftStrip(x, SLASH) == x;
  }

  lemma DefaultPathTrims(path: string)
    ensures Trim(DefaultPath(path)) == DefaultTrimmed(path)
  {
    hide Strip;
    var t := Trim(path);
    assert t == "" || (t[0] !in SLASH && t[|t| - 1] !in SLASH);
    var x := DefaultTrimmed(path);
    assert x != "" && x[0] != '/' && x[|x| - 1] == 'e';
    TrimAbsolute(x);
  }

  lemma DefaultPathNewlines(path: string)
    requires '\n' !in path
    ensures '\n' !in DefaultPath(path)
  {
    hide Strip;
    TrimNewlines(path);
  }

  lemma TrimNewlines(path: string)
    requires '\n' !in path
    ensures '\n' !in Trim(path)
  {
    hide Strip;
    var k := StripIsPart(path, SLASH);
    var r := Trim(path);
    assert forall i :: 0 <= i < |r| ==> r[i] == path[k + i];
  }

  /** A path that names no remote gets a default that names none. */
  lemma DefaultPathKeepsPlain(path: string)
    ensures SplitRemote(DefaultPath(path)).remote != "" ==> SplitRemote(path).remote != ""
  {
    hide SplitRemote, Strip, DefaultPath;
    if IsAbsolute(path) {
      assert IsAbsolute(DefaultPath(path)) by { AbsoluteStays(path); }
      AbsoluteIsPlain(DefaultPath(path));
    } else {
      RelativeTrims(path);
      var w := RelativeDefault(path);
      PrefixKeepsPlain(path, Trim(path), w);
    }
  }

  lemma AbsoluteStays(path: string)
    requires IsAbsolute(path)
    ensures IsAbsolute(DefaultPath(path))
  {
    hide Strip;
  }

  lemma RelativeDefault(path: string) returns (w: string)
    requires !IsAbsolute(path)
    ensures DefaultPath(path) == Trim(path) + w && ':' !in w && '\n' !in w && w != ""
  {
    hide Strip;
    var t := Trim(path);
    w := if t == "" then CHILD_ARCHIVE_NAME else if '/' !in t then "/" + CHILD_ARCHIVE_NAME else ARCHIVE_SUFFIX;
  }

  lemma RelativeTrims(path: string)
    requires !IsAbsolute(path)
    ensures Trim(path) <= path && forall i :: |Trim(path)| <= i < |path| ==> path[i] in SLASH
  {
    hide RightStrip;
    RightStripTail(path, SLASH);
    assert LeftStrip(path, SLASH) == path;
  }

  lemma AbsoluteIsPlain(path: string)
    requires IsAbsolute(path)
    ensures SplitRemote(path).remote == ""
  {
    hide RestOfLine;
    var k := Find(path, ':');
    if k > 0 {
      assert path[..k][0] == path[0] == '/';
      assert !IsSafe(path[..k][0]);
    }
  }

  lemma PrefixKeepsPlain(path: string, t: string, w: string)
    requires t <= path && forall i :: |t| <= i < |path| ==> path[i] in SLASH
    requires ':' !in w && '\n' !in w && w != ""
    ensures SplitRemote(t + w).remote != "" ==> SplitRemote(path).remote != ""
  {
    hide IsSafe;
    var d := t + w;
    assert path == t + path[|t|..];
    if ':' in t {
      FindInPrefix(t, w, ':');
      FindInPrefix(t, path[|t|..], ':');
      var k := Find(t, ':');
      assert path[..k] == d[..k] == t[..k];
      assert d[k + 1..] == t[k + 1..] + w;
      assert path[k + 1..] == t[k + 1..] + path[|t|..];
      NoNewlineAfter(t[k + 1..], w, path[|t|..]);
    } else {
      assert ':' !in d;
    }
  }

  lemma NoNewlineAfter(x: string, w: string, slashes: string)
    requires '\n' !in w && w != "" && forall i :: 0 <= i < |slashes| ==> slashes[i] in SLASH
    ensures RestOfLine(x + w).Some? ==> RestOfLine(x + slashes).Some?
  {
    assert '\n' !in slashes;
    assert (x + w)[|x + w| - 1] == w[|w| - 1];
  }

  /** The default keeps the destination's remote, whatever the destination looks like. */
  lemma DefaultKeepsRemote(destination: string)
    ensures SplitRemote(DefaultBase(destination))
            == Spec(SplitRemote(destination).remote, DefaultPath(SplitRemote(destination).path))
  {
    hide Strip, DefaultPath;
    var s := SplitRemote(destination);
    SplitSound(destination);
    if s.remote != "" {
      DefaultPathNewlines(s.path);
      SplitJoined(s.remote, DefaultPath(s.path));
    } else {
      DefaultPathKeepsPlain(s.path);
      SplitSound(DefaultBase(destination));
      assert Prefix("") + DefaultPath(s.path) == DefaultPath(s.path);
    }
  }

  /** The default archive lies inside the destination exactly in the two child cases; it is never the destination,
      and the destination never lies inside it. Beside a destination, neither tree contains the other. */
  lemma DefaultBaseIsSound(destination: string)
    ensures var base := DefaultBase(destination); var s := SplitRemote(destination);
            && SplitRemote(base).remote == s.remote
            && Trim(SplitRemote(base).path) != Trim(s.path)
            && (IsInside(base, destination) <==> IsChildCase(s.path))
            && !IsInside(destination, base)
  {
    hide Strip, DefaultPath;
    var path := SplitRemote(destination).path;
    DefaultKeepsRemote(destination);
    DefaultPathTrims(path);
    var t := Trim(path);
    if t != "" && !IsChildCase(path) {
      assert (t + ARCHIVE_SUFFIX)[|t|] == '.' && (t + "/")[|t|] == '/';
    } else if t != "" {
      assert (t + "/" + CHILD_ARCHIVE_NAME)[..|t| + 1] == t + "/";
    }
  }

  /** A path lies at or below a root: its components begin with the root's. */
  ghost predicate Under(path: string, root: string) { Split(root) <= Split(path) }

  /** When neither of two roots contains the other, no path lies under both. */
  lemma ApartIsDisjoint(a: string, d: string, path: string)
    requires !(a == d || StartsWith(a, d + "/")) && !(a == d || StartsWith(d, a + "/"))
    ensures !(Under(path, a) && Under(path, d))
  {
    hide Split;
    InsideIsPrefix(a, d);
    InsideIsPrefix(d, a);
  }

  /** Beside the destination means apart from it: nothing synced lands in the archive, nothing archived is synced. */
  lemma SiblingIsDisjoint(destination: string, path: string)
    ensures !IsChildCase(SplitRemote(destination).path) ==>
              !(Under(path, Trim(StripRemote(DefaultBase(destination)))) && Under(path, Trim(StripRemote(destination))))
  {
    hide Split, Strip, DefaultPath, SplitRemote;
    var d := SplitRemote(destination).path;
    if !IsChildCase(d) {
      DefaultBaseIsSound(destination);
      DefaultKeepsRemote(destination);
      DefaultPathTrims(d);
      ApartIsDisjoint(Trim(StripRemote(DefaultBase(destination))), Trim(d), path);
    }
  }

  // ------------------------------------------------------------------ the injected exclude

  /** `relative` is what of `path` lies below `root`, past one or more slashes unless the root is the whole tree. */
  predicate IsBelow(path: string, root: string, relative: string) {
    && relative != "" && relative[0] != '/' && relative[|relative| - 1] != '/'
    && |root| + |relative| <= |path|
    && path[..|root|] == root && path[|path| - |relative|..] == relative
    && (forall i :: |root| <= i < |path| - |relative| ==> path[i] == '/')
    && (root == "" <==> |root| + |relative| == |path|)
  }

  lemma StripLeftOnly(s: string)
    requires s != "" && s[|s| - 1] != '/'
    ensures Trim(s) == LeftStrip(s, SLASH) != ""
  {
    LeftStripHead(s, SLASH);
  }

  lemma PartsAreBelow(root: string, slashes: string, relative: string)
    requires relative != "" && relative[0] != '/' && relative[|relative| - 1] != '/'
    requires (forall i :: 0 <= i < |slashes| ==> slashes[i] == '/') && (root == "" <==> slashes == "")
    ensures IsBelow(root + slashes + relative, root, relative)
  {
    var path := root + slashes + relative;
    forall i | |root| <= i < |path| - |relative|
      ensures path[i] == '/'
    {
      assert path[i] == slashes[i - |root|];
    }
  }

  lemma RelativeIsBelow(a: string, d: string)
    requires Trim(a) == a && Trim(d) == d && a != d
    requires d == "" || StartsWith(a, d + "/")
    ensures IsBelow(a, d, RelativeTo(a, d))
  {
    hide Strip, RightStrip, LeftStrip, IsBelow;
    assert a == "" || (a[0] != '/' && a[|a| - 1] != '/');
    if d == "" {
      PartsAreBelow("", "", a);
      assert "" + "" + a == a;
    } else {
      var rest := a[|d| + 1..];
      assert a == d + "/" + rest;
      assert rest != "" by { assert (d + "/")[|d|] == '/'; }
      StripLeftOnly(rest);
      LeftStripHead(rest, SLASH);
      var r := Trim(rest);
      var slashes := "/" + rest[..|rest| - |r|];
      assert rest == rest[..|rest| - |r|] + r;
      assert a == d + slashes + r;
      PartsAreBelow(d, slashes, r);
    }
  }

  lemma TrimTwice(s: string)
    ensures Trim(Trim(s)) == Trim(s)
  {
    StripNothing(Trim(s), SLASH);
  }

  /** The exclude is refused exactly when the two paths coincide, absent exactly when the archive is elsewhere, and
      otherwise names, anchored, the whole tree below the archive's path relative to the destination. */
  lemma ExcludeIsExact(archiveBase: string, destination: string)
    ensures var a, d := Trim(StripRemote(archiveBase)), Trim(StripRemote(destination));
            var e := ExcludeFor(archiveBase, destination);
            && (e.Err? <==> SplitRemote(archiveBase).remote == SplitRemote(destination).remote && a == d && d != "")
            && (e == Ok(None) <==> !IsInside(archiveBase, destination))
            && (e.Ok? && e.value.Some?
                ==> IsBelow(a, d, RelativeTo(a, d)) && e.value.value == "/" + RelativeTo(a, d) + "/**")
  {
    hide Strip, SplitRemote;
    var a, d := Trim(StripRemote(archiveBase)), Trim(StripRemote(destination));
    TrimTwice(StripRemote(archiveBase));
    TrimTwice(StripRemote(destination));
    if a == d && d != "" {
      assert Strip("", SLASH) == "" by { StripNothing("", SLASH); }
    } else if IsInside(archiveBase, destination) {
      RelativeIsBelow(a, d);
    }
  }

  /** rclone's filter globs: `**` crosses directories, `*` and `?` stay within one. */
  predicate GlobMatches(pattern: string, path: string)
    decreases |pattern| + |path|
  {
    if StartsWith(pattern, "**") then
      GlobMatches(pattern[2..], path) || (path != "" && GlobMatches(pattern, path[1..]))
    else if pattern == "" then path == ""
    else if pattern[0] == '*' then
      GlobMatches(pattern[1..], path) || (path != "" && path[0] != '/' && GlobMatches(pattern, path[1..]))
    else
      && path != ""
      && (if pattern[0] == '?' then path[0] != '/' else pattern[0] == path[0])
      && GlobMatches(pattern[1..], path[1..])
  }

  predicate GlobFree(s: string) {
    forall i :: 0 <= i < |s| ==> s[i] !in {'*', '?', '[', ']', '{', '}', '\\'}
  }

  lemma {:induction false} StarsMatchAll(path: string)
    ensures GlobMatches("**", path)
  {
    if path != "" { StarsMatchAll(path[1..]); }
    assert "**"[2..] == "";
  }

  /** A literal followed by `**` matches exactly what begins with the literal. */
  lemma {:induction false} LiteralTree(literal: string, path: string)
    requires GlobFree(literal)
    ensures GlobMatches(literal + "**", path) <==> StartsWith(path, literal)
  {
    if literal == "" {
      assert literal + "**" == "**";
      StarsMatchAll(path);
    } else {
      LiteralHead(literal, path);
      if path != "" {
        LiteralTree(literal[1..], path[1..]);
        StartsWithHead(path, literal);
      }
    }
  }

  /** A pattern that begins with a literal character matches that character and goes on. */
  lemma LiteralHead(literal: string, path: string)
    requires GlobFree(literal) && literal != ""
    ensures GlobMatches(literal + "**", path)
            <==> path != "" && path[0] == literal[0] && GlobMatches(literal[1..] + "**", path[1..])
  {
    var pattern := literal + "**";
    assert pattern[0] == literal[0] && pattern[1..] == literal[1..] + "**";
    assert !StartsWith(pattern, "**") by { assert pattern[..2][0] == literal[0]; }
  }

  lemma StartsWithHead(path: string, literal: string)
    requires path != "" && literal != ""
    ensures StartsWith(path, literal) <==> path[0] == literal[0] && StartsWith(path[1..], literal[1..])
  {
    assert path == [path[0]] + path[1..] && literal == [literal[0]] + literal[1..];
    if StartsWith(path[1..], literal[1..]) && path[0] == literal[0] {
      assert path[..|literal|] == [path[0]] + path[1..][..|literal| - 1];
    }
    if |literal| <= |path| {
      assert path[..|literal|][1..] == path[1..][..|literal| - 1];
    }
  }

  // ------------------------------------------------------------------ what a plan is

  /** Inside means on the same remote and, by components, below the destination or at it; everything is below an empty
      path except that path. */
  lemma InsideExactly(archiveBase: string, destination: string)
    ensures var a, d := Trim(StripRemote(archiveBase)), Trim(StripRemote(destination));
            IsInside(archiveBase, destination)
            <==> && SplitRemote(archiveBase).remote == SplitRemote(destination).remote
                 && if d == "" then a != "" else Under(a, d)
  {
    hide Strip, SplitRemote, Split;
    InsideIsPrefix(Trim(StripRemote(archiveBase)), Trim(StripRemote(destination)));
  }

  /** The first component of a trimmed path; nothing of an empty one. */
  lemma {:induction false} FirstComponent(t: string)
    ensures t[..Find(t, '/')] == Split(t)[0]
  {
    if t != "" && t[0] != '/' {
      FirstComponent(t[1..]);
      assert t[..Find(t, '/')] == [t[0]] + t[1..][..Find(t[1..], '/')];
    }
  }

  /** The text an operator chose for the base, without the space around it. */
  function Chosen(job: Job): string { Strip(job.archiveBase, SPACES) }

  /** A chosen base is read as it stands when it names a remote, and otherwise as a path on the destination's. */
  lemma ChosenBaseIsRead(job: Job, destination: string)
    requires Chosen(job) != "" && '\n' !in Chosen(job)
    ensures var chosen, d := SplitRemote(Chosen(job)), SplitRemote(destination);
            SplitRemote(BaseFor(job, destination))
            == Spec(if chosen.remote == "" then d.remote else chosen.remote, chosen.path)
  {
    hide Strip, SplitRemote;
    var chosen := Chosen(job);
    SplitSound(chosen);
    SplitSound(destination);
    if SplitRemote(chosen).remote == "" && SplitRemote(destination).remote != "" {
      SplitJoined(SplitRemote(destination).remote, chosen);
    }
  }

  /** When a job is refused, and for what: another remote, another share on it, or the destination itself. */
  lemma RefusedExactly(job: Job, destination: string, stamp: string)
    ensures var base := BaseFor(job, destination);
            var a, d := SplitRemote(base), SplitRemote(destination);
            var otherShare := a.remote != "" && Split(Trim(a.path))[0] != Split(Trim(d.path))[0];
            var r := PlanFor(job, destination, stamp);
            && (r == Err(OtherConnection) <==> a.remote != d.remote)
            && (r == Err(OtherShare) <==> a.remote == d.remote && otherShare)
            && (r == Err(SameAsDestination)
                <==> a.remote == d.remote && !otherShare && Trim(a.path) == Trim(d.path) != "")
  {
    hide Strip, SplitRemote, Slugify, BaseFor, Split, IsInside, RelativeTo, Find, RightStrip;
    var base := BaseFor(job, destination);
    ExcludeIsExact(base, destination);
    FirstComponent(Trim(StripRemote(base)));
    FirstComponent(Trim(StripRemote(destination)));
  }

  /** What an accepted plan holds: the chosen base or the default, an exclude exactly when that base lies inside the
      destination, a suffix exactly in the flat layout, and the run's own directory in the other. */
  lemma PlanIsExact(job: Job, destination: string, stamp: string)
    requires PlanFor(job, destination, stamp).Ok?
    ensures var plan := PlanFor(job, destination, stamp).value;
            && plan.base == BaseFor(job, destination)
            && (Chosen(job) == "" ==> plan.base == DefaultBase(destination))
            && (plan.exclude.Some? <==> IsInside(plan.base, destination))
            && (plan.insideDestination <==> IsInside(plan.base, destination))
            && ExcludeFor(plan.base, destination) == Ok(plan.exclude)
            && (job.layout == Suffix ==> plan.suffix == Some("." + stamp) && plan.backupDir == plan.base)
            && (job.layout == TimestampedDir ==>
                  plan.suffix == None && plan.backupDir == RightStrip(plan.base, SLASH) + RunDir(job, stamp))
  {
    hide Strip, SplitRemote, Slugify, IsInside, RelativeTo, RightStrip, Share, DefaultBase;
    var base := BaseFor(job, destination);
    ExcludeIsExact(base, destination);
    RunDirAfter(RightStrip(base, SLASH), job, stamp);
  }

  // ------------------------------------------------------------------ what a run writes, and finding it again

  /** What a formatted time never contains. */
  predicate IsStamp(stamp: string) {
    stamp != "" && forall i :: 0 <= i < |stamp| ==> stamp[i] !in {'/', ':', '\n'}
  }

  lemma BaseEndsWell(job: Job, destination: string)
    ensures var b := BaseFor(job, destination); b != "" && b[|b| - 1] != '\n'
  {
    hide Strip, SplitRemote;
  }

  /** Extending a base by a run's own directory changes its path only. */
  lemma ExtendedSplits(base: string, tail: string)
    requires base != "" && base[|base| - 1] != '\n'
    requires tail != "" && ':' !in tail && '\n' !in tail
    ensures SplitRemote(RightStrip(base, SLASH) + tail)
            == Spec(SplitRemote(base).remote, RightStrip(SplitRemote(base).path, SLASH) + tail)
  {
    hide *;
    RightStripTail(base, SLASH);
    var t := RightStrip(base, SLASH);
    assert t == "" || t[|t| - 1] !in SLASH;
    if ':' in t {
      assert t <= base;
      assert base[|base| - 1] != '\n';
      assert forall i :: |t| <= i < |base| ==> base[i] in SLASH;
      ColonExtended(base, RightStrip(base, SLASH), tail);
    } else {
      PlainExtended(base, RightStrip(base, SLASH), tail);
    }
  }

  lemma ColonExtended(base: string, t: string, tail: string)
    requires t <= base && ':' in t && base[|base| - 1] != '\n'
    requires t == "" || t[|t| - 1] !in SLASH
    requires forall i :: |t| <= i < |base| ==> base[i] in SLASH
    requires tail != "" && '\n' !in tail
    ensures SplitRemote(t + tail) == Spec(SplitRemote(base).remote, RightStrip(SplitRemote(base).path, SLASH) + tail)
  {
    hide SplitRemote, RightStrip;
    var head, x, slashes := AtColon(base, t);
    ExtendedAtColon(head, x, slashes, tail);
  }

  lemma PlainExtended(base: string, t: string, tail: string)
    requires ':' !in t && ':' !in tail && t <= base
    requires forall i :: |t| <= i < |base| ==> base[i] in SLASH
    ensures SplitRemote(base) == Spec("", base) && SplitRemote(t + tail) == Spec("", t + tail)
  {
    hide SplitRemote;
    assert base == t + base[|t|..];
    PlainWithoutColon(base);
    PlainWithoutColon(t + tail);
  }

  lemma AtColon(base: string, t: string) returns (head: string, x: string, slashes: string)
    requires t <= base && ':' in t && t[|t| - 1] != '/' && base[|base| - 1] != '\n'
    requires forall i :: |t| <= i < |base| ==> base[i] in SLASH
    ensures t == head + ":" + x && base == head + ":" + x + slashes && ':' !in head
    ensures x == "" || x[|x| - 1] != '/'
    ensures forall i :: 0 <= i < |slashes| ==> slashes[i] in SLASH
    ensures x + slashes == "" || (x + slashes)[|x + slashes| - 1] != '\n'
  {
    var k := Find(t, ':');
    head, x, slashes := t[..k], t[k + 1..], base[|t|..];
    if slashes == "" {
      assert base == t && x + slashes == x;
    } else {
      assert (x + slashes)[|x + slashes| - 1] == slashes[|slashes| - 1] == base[|base| - 1];
    }
  }

  lemma ExtendedAtColon(head: string, x: string, slashes: string, tail: string)
    requires ':' !in head && (x == "" || x[|x| - 1] != '/')
    requires forall i :: 0 <= i < |slashes| ==> slashes[i] in SLASH
    requires x + slashes == "" || (x + slashes)[|x + slashes| - 1] != '\n'
    requires tail != "" && '\n' !in tail
    ensures var base := SplitRemote(head + ":" + x + slashes);
            SplitRemote(head + ":" + x + tail) == Spec(base.remote, RightStrip(base.path, SLASH) + tail)
  {
    hide RightStrip, AllSafe, SplitRemote, RestOfLine;
    assert head + ":" + x + slashes == head + ":" + (x + slashes);
    assert head + ":" + x + tail == head + ":" + (x + tail);
    SplitAtColon(head, x + slashes);
    SplitAtColon(head, x + tail);
    RestExtends(x, slashes, tail);
    RightStripJoin(x, slashes, SLASH);
    RightStripJoin(head + ":" + x, slashes, SLASH);
  }

  lemma PlainWithoutColon(s: string)
    requires ':' !in s
    ensures SplitRemote(s) == Spec("", s)
  {
  }

  lemma RestExtends(x: string, slashes: string, tail: string)
    requires tail != "" && '\n' !in tail
    requires forall i :: 0 <= i < |slashes| ==> slashes[i] in SLASH
    requires x + slashes == "" || (x + slashes)[|x + slashes| - 1] != '\n'
    ensures RestOfLine(x + tail) == if '\n' in x then None else Some(x + tail)
    ensures RestOfLine(x + slashes) == if '\n' in x then None else Some(x + slashes)
  {
    assert '\n' !in slashes;
    assert '\n' in x + tail <==> '\n' in x;
    assert '\n' in x + slashes <==> '\n' in x;
    assert (x + tail)[|x + tail| - 1] == tail[|tail| - 1];
  }

  /** The run's own directory below the base, and below it the file; just the file in the flat layout. */
  function RunDir(job: Job, stamp: string): string {
    "/" + Slugify(job.name) + "/" + stamp
  }

  lemma RunDirIsPlain(job: Job, stamp: string)
    requires IsStamp(stamp)
    ensures var w := RunDir(job, stamp); w != "" && ':' !in w && '\n' !in w && w[|w| - 1] != '/'
  {
    hide Slugify;
    SlugIsOneElement(job.name);
  }

  lemma AcceptedPlan(job: Job, destination: string, stamp: string)
    ensures match PlanFor(job, destination, stamp)
            case Err(_) => true
            case Ok(plan) =>
              && var base := BaseFor(job, destination);
              && plan.base == base && SplitRemote(base).remote == SplitRemote(destination).remote
              && plan.backupDir == if job.layout == Suffix then base
                                   else RightStrip(base, SLASH) + "/" + Slugify(job.name) + "/" + stamp
  {
    hide Slugify, SplitRemote, BaseFor, ExcludeFor, RightStrip, Share;
  }

  lemma BackupEndsWell(root: string, job: Job, stamp: string)
    requires IsStamp(stamp)
    ensures var d := root + RunDir(job, stamp); d != "" && d[|d| - 1] != '\n'
  {
    hide Slugify;
    assert (root + RunDir(job, stamp))[|root + RunDir(job, stamp)| - 1] == stamp[|stamp| - 1];
  }

  /** Where a run's archive is, as a spec split in two. */
  lemma BackupSplits(job: Job, destination: string, stamp: string)
    requires IsStamp(stamp)
    ensures match PlanFor(job, destination, stamp)
            case Err(_) => true
            case Ok(plan) =>
              && var base := SplitRemote(BaseFor(job, destination));
              && plan.base == BaseFor(job, destination)
              && base.remote == SplitRemote(destination).remote
              && SplitRemote(plan.backupDir)
                 == Spec(base.remote,
                         if job.layout == Suffix then base.path
                         else RightStrip(base.path, SLASH) + RunDir(job, stamp))
              && plan.backupDir != "" && plan.backupDir[|plan.backupDir| - 1] != '\n'
  {
    hide *;
    var base := BaseFor(job, destination);
    AcceptedPlan(job, destination, stamp);
    BaseEndsWell(job, destination);
    RunDirIsPlain(job, stamp);
    ExtendedSplits(base, RunDir(job, stamp));
    BackupEndsWell(RightStrip(base, SLASH), job, stamp);
    RunDirAfter(RightStrip(base, SLASH), job, stamp);
  }

  /** The stored path of an archive, with the alias of a later process put back, is the directory the run wrote to. */
  lemma StoredPathReattaches(job: Job, destination: string, stamp: string)
    requires IsStamp(stamp) && SplitRemote(destination).remote != ""
    ensures match PlanFor(job, destination, stamp)
            case Err(_) => true
            case Ok(plan) => SplitRemote(destination).remote + ":" + StripRemote(plan.backupDir) == plan.backupDir
  {
    hide PlanFor, SplitRemote, BaseFor, RunDir, RightStrip, IsStamp;
    BackupSplits(job, destination, stamp);
    if PlanFor(job, destination, stamp).Ok? {
      SplitRejoins(PlanFor(job, destination, stamp).value.backupDir);
    }
  }

  /** Retention works on the destination's bare path, the runner on the same path behind an alias. Whenever both
      accept the job, the directory retention looks in is the parent of what the runner writes. */
  lemma RetentionLooksWhereRunsWrite(job: Job, alias: string, path: string, stamp: string)
    requires IsStamp(stamp) && job.layout == TimestampedDir
    requires |alias| >= 2 && AllSafe(alias) && '\n' !in path && SplitRemote(path).remote == ""
    ensures var written, seen := PlanFor(job, alias + ":" + path, stamp), PlanFor(job, path, stamp);
            written.Ok? && seen.Ok? ==>
              && SplitRemote(seen.value.base).remote == ""
              && StripRemote(written.value.backupDir)
                 == RightStrip(StripRemote(seen.value.base), SLASH) + "/" + Slugify(job.name) + "/" + stamp
  {
    hide PlanFor, SplitRemote, Slugify, RightStrip, AllSafe, BaseFor, RunDir;
    var spec := alias + ":" + path;
    BackupSplits(job, spec, stamp);
    BackupSplits(job, path, stamp);
    SplitJoined(alias, path);
    if PlanFor(job, spec, stamp).Ok? && PlanFor(job, path, stamp).Ok? {
      SameBasePath(job, alias, path);
      RunDirAfter(RightStrip(StripRemote(BaseFor(job, path)), SLASH), job, stamp);
    }
  }

  lemma RunDirAfter(root: string, job: Job, stamp: string)
    ensures root + RunDir(job, stamp) == root + "/" + Slugify(job.name) + "/" + stamp
  {
    hide Slugify;
  }

  lemma SameBasePath(job: Job, alias: string, path: string)
    requires |alias| >= 2 && AllSafe(alias) && '\n' !in path && SplitRemote(path).remote == ""
    requires SplitRemote(BaseFor(job, alias + ":" + path)).remote == alias
    requires SplitRemote(BaseFor(job, path)).remote == ""
    ensures StripRemote(BaseFor(job, alias + ":" + path)) == StripRemote(BaseFor(job, path))
  {
    hide SplitRemote, Strip, DefaultPath, AllSafe;
    var spec := alias + ":" + path;
    SplitJoined(alias, path);
    SplitSound(path);
    var chosen := Strip(job.archiveBase, SPACES);
    if chosen == "" {
      DefaultKeepsRemote(spec);
      DefaultKeepsRemote(path);
    } else {
      assert BaseFor(job, path) == chosen;
      assert BaseFor(job, spec) == alias + ":" + chosen;
      var qualified := alias + ":" + chosen;
      assert qualified[|qualified| - 1] == chosen[|chosen| - 1];
      SplitRejoins(qualified);
      SplitSound(chosen);
      assert qualified[|alias| + 1..] == chosen;
      assert (alias + ":" + StripRemote(qualified))[|alias| + 1..] == StripRemote(qualified);
    }
  }

  // ------------------------------------------------------------------ which defaults are accepted

  lemma {:induction false} FindNothing(s: string, c: char)
    requires c !in s
    ensures Find(s, c) == |s|
  {
    if s != "" { FindNothing(s[1..], c); }
  }

  /** The default stays on the destination's share exactly when that is a child of it or has a parent inside it. */
  lemma DefaultShare(path: string)
    ensures var t := Trim(path);
            Share(DefaultPath(path)) == Share(path) <==> '/' in t || (t != "" && !IsAbsolute(path))
  {
    hide Strip, DefaultPath, Find;
    var t := Trim(path);
    DefaultPathTrims(path);
    if '/' in t {
      FindInPrefix(t, ARCHIVE_SUFFIX, '/');
    } else {
      FindNothing(t, '/');
      if t == "" {
        FindNothing(CHILD_ARCHIVE_NAME, '/');
      } else if IsAbsolute(path) {
        assert '/' !in t + ARCHIVE_SUFFIX;
        FindNothing(t + ARCHIVE_SUFFIX, '/');
        assert |t + ARCHIVE_SUFFIX| > |t|;
      } else {
        assert t + "/" + CHILD_ARCHIVE_NAME == t + ['/'] + CHILD_ARCHIVE_NAME;
        FindAfter(t, '/', CHILD_ARCHIVE_NAME);
      }
    }
  }

  /** Without a chosen base a run is planned exactly when the destination names no remote, or lies below a share,
      or is a whole share. So a whole remote, and a top-level absolute directory behind an alias, are refused,
      although `default_base` has an archive for both. */
  lemma DefaultIsAccepted(job: Job, destination: string, stamp: string)
    requires Strip(job.archiveBase, SPACES) == ""
    ensures var s := SplitRemote(destination);
            var t := Trim(s.path);
            PlanFor(job, destination, stamp).Ok? <==> s.remote == "" || '/' in t || (t != "" && !IsAbsolute(s.path))
  {
    hide Strip, SplitRemote, DefaultPath, Share, ExcludeFor, IsInside, Slugify;
    var base := DefaultBase(destination);
    DefaultKeepsRemote(destination);
    DefaultBaseIsSound(destination);
    DefaultShare(SplitRemote(destination).path);
    ExcludeIsExact(base, destination);
  }

  // ------------------------------------------------------------------ the exclude hides what a run archives

  /** Anchored at the destination, the exclude hides what lies below the archive and nothing else. */
  lemma ExcludeHidesTheArchive(relative: string, path: string)
    requires GlobFree(relative)
    ensures GlobMatches("/" + relative + "/**", "/" + path) <==> StartsWith(path, relative + "/")
  {
    var literal := "/" + relative + "/";
    assert "/" + relative + "/**" == literal + "**";
    LiteralTree(literal, "/" + path);
    assert literal[1..] == relative + "/" && ("/" + path)[1..] == path;
    assert StartsWith("/" + path, literal) <==> StartsWith(path, relative + "/") by {
      assert literal == "/" + (relative + "/");
      if StartsWith(path, relative + "/") {
        assert ("/" + path)[..|literal|] == "/" + path[..|relative| + 1];
      }
    }
  }

  /** Where a run puts an archived file with this path relative to the synced tree. */
  function ArchivedAt(plan: ArchivePlan, file: string): string {
    RightStrip(StripRemote(plan.backupDir), SLASH) + "/" + file
  }

  function BelowBase(job: Job, stamp: string, file: string): string {
    if job.layout == Suffix then file else Slugify(job.name) + "/" + stamp + "/" + file
  }

  lemma LeadingPart(path: string) returns (head: string)
    ensures path == head + LeftStrip(path, SLASH) && forall i :: 0 <= i < |head| ==> head[i] in SLASH
  {
    hide LeftStrip;
    head := path[..|path| - |LeftStrip(path, SLASH)|];
    LeftStripHead(path, SLASH);
  }

  lemma TrailingPart(path: string) returns (end: string)
    ensures path == RightStrip(path, SLASH) + end && forall i :: 0 <= i < |end| ==> end[i] in SLASH
  {
    hide RightStrip;
    var n := |RightStrip(path, SLASH)|;
    end := path[n..];
    RightStripTail(path, SLASH);
    assert forall i :: 0 <= i < |end| ==> end[i] == path[n + i];
  }

  /** A path is its trimmed part between slashes. */
  lemma SlashesAround(path: string) returns (head: string, end: string)
    ensures path == head + Trim(path) + end
    ensures forall i :: 0 <= i < |head| ==> head[i] in SLASH
    ensures forall i :: 0 <= i < |end| ==> end[i] in SLASH
  {
    hide LeftStrip, RightStrip;
    head := LeadingPart(path);
    end := TrailingPart(LeftStrip(path, SLASH));
  }

  lemma TrimBetween(head: string, m: string)
    requires m != "" && m[0] !in SLASH && m[|m| - 1] !in SLASH
    requires forall i :: 0 <= i < |head| ==> head[i] in SLASH
    ensures Trim(head + m) == m
  {
    hide LeftStrip;
    LeftStripJoin(head, m, SLASH);
  }

  lemma TrimExtended(path: string, tail: string)
    requires Trim(path) != "" && tail != "" && tail[|tail| - 1] != '/'
    ensures Trim(RightStrip(path, SLASH) + "/" + tail) == Trim(path) + "/" + tail
  {
    hide LeftStrip, RightStrip, Strip;
    var head, end := SlashesAround(path);
    var m := Trim(path);
    RightStripJoin(head + m, end, SLASH);
    TrimBetween(head, m + "/" + tail);
    assert head + m + "/" + tail == head + (m + "/" + tail);
  }

  lemma BelowExtended(path: string, root: string, relative: string, tail: string)
    requires IsBelow(path, root, relative) && tail != "" && tail[|tail| - 1] != '/'
    ensures IsBelow(path + "/" + tail, root, relative + "/" + tail)
  {
    hide IsBelow;
    var slashes := SlashesBetween(path, root, relative);
    PartsAreBelow(root, slashes, relative + "/" + tail);
    assert path + "/" + tail == root + slashes + (relative + "/" + tail);
  }

  lemma SlashesBetween(path: string, root: string, relative: string) returns (slashes: string)
    requires IsBelow(path, root, relative)
    ensures path == root + slashes + relative && (root == "" <==> slashes == "")
    ensures forall i :: 0 <= i < |slashes| ==> slashes[i] == '/'
    ensures relative != "" && relative[0] != '/'
  {
    slashes := path[|root|..|path| - |relative|];
  }

  /** A run whose archive is inside its own destination puts every file it archives where its own exclude, read
      from the destination's root, hides it. */
  lemma ArchivedIsExcluded(job: Job, destination: string, stamp: string, file: string)
    requires IsStamp(stamp) && file != "" && file[|file| - 1] != '/'
    requires PlanFor(job, destination, stamp).Ok?
    requires IsInside(PlanFor(job, destination, stamp).value.base, destination)
    ensures var plan := PlanFor(job, destination, stamp).value;
            var d := Trim(StripRemote(destination));
            var relative := RelativeTo(Trim(StripRemote(plan.base)), d);
            var archived := relative + "/" + BelowBase(job, stamp, file);
            && plan.exclude == Some("/" + relative + "/**")
            && IsBelow(Trim(ArchivedAt(plan, file)), d, archived)
            && (GlobFree(relative) ==> GlobMatches("/" + relative + "/**", "/" + archived))
  {
    hide SplitRemote, Strip, RelativeTo, IsBelow, GlobMatches, GlobFree, IsInside, PlanFor, ArchivedAt, BelowBase;
    var plan := PlanFor(job, destination, stamp).value;
    PlanIsExact(job, destination, stamp);
    ExcludeIsExact(plan.base, destination);
    var d, base := Trim(StripRemote(destination)), StripRemote(plan.base);
    var relative, tail := RelativeTo(Trim(base), d), BelowBase(job, stamp, file);
    ArchivedBelow(job, destination, stamp, file, d, relative);
    if GlobFree(relative) {
      ExcludeHidesTheArchive(relative, relative + "/" + tail);
      assert StartsWith(relative + "/" + tail, relative + "/");
    }
  }

  lemma ArchivedBelow(job: Job, destination: string, stamp: string, file: string, d: string, relative: string)
    requires IsStamp(stamp) && file != "" && file[|file| - 1] != '/'
    requires PlanFor(job, destination, stamp).Ok?
    requires IsBelow(Trim(StripRemote(PlanFor(job, destination, stamp).value.base)), d, relative)
    ensures IsBelow(Trim(ArchivedAt(PlanFor(job, destination, stamp).value, file)), d,
                    relative + "/" + BelowBase(job, stamp, file))
  {
    hide Strip, SplitRemote, RightStrip, IsBelow, PlanFor, BaseFor, BelowBase, RunDir, IsStamp;
    var base, tail := StripRemote(PlanFor(job, destination, stamp).value.base), BelowBase(job, stamp, file);
    BackupSplits(job, destination, stamp);
    WrittenBelowBase(job, stamp, base, file);
    SlashesBetweenNonempty(Trim(base), d, relative);
    TrimExtended(base, tail);
    BelowExtended(Trim(base), d, relative, tail);
  }

  lemma SlashesBetweenNonempty(path: string, root: string, relative: string)
    requires IsBelow(path, root, relative)
    ensures path != ""
  {
  }

  lemma WrittenBelowBase(job: Job, stamp: string, base: string, file: string)
    requires IsStamp(stamp) && file != "" && file[|file| - 1] != '/'
    ensures var written := if job.layout == Suffix then base else RightStrip(base, SLASH) + RunDir(job, stamp);
            var tail := BelowBase(job, stamp, file);
            && RightStrip(written, SLASH) + "/" + file == RightStrip(base, SLASH) + "/" + tail
            && tail != "" && tail[|tail| - 1] == file[|file| - 1]
  {
    hide RightStrip, Slugify;
    if job.layout != Suffix {
      var dir := RunDir(job, stamp);
      RunDirIsPlain(job, stamp);
      var written := RightStrip(base, SLASH) + dir;
      assert written[|written| - 1] == dir[|dir| - 1];
      assert written + "" == written;
      RightStripJoin(written, "", SLASH);
      assert dir + "/" + file == "/" + BelowBase(job, stamp, file);
    }
  }
}

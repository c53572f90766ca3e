/** Connection paths as rclone addresses them (`_base_path_for`, `display_path` and `Endpoint.spec` in
    app/engines/rcloneconf.py), and what they mean for archives. */
module Endpoints {
  import opened Wrappers
  import opened Text
  import opened Slugs
  import opened Subpaths
  import opened ArchivePaths

  datatype Kind = Local | Smb | Sftp | Ftp | Ftps | RcloneRemote

  /** A missing path or share is the empty one. */
  datatype Connection = Connection(kind: Kind, basePath: string, share: string)

  datatype ConfigError = NoShare | Outside

  /** The path that follows `remote:`. */
  function BasePathFor(c: Connection): Result<string, ConfigError> {
    var base := Trim(c.basePath);
    match c.kind
    case Smb =>
      var share := Trim(c.share);
      if share == "" then Err(NoShare) else Ok(if base != "" then share + "/" + base else share)
    case Local => Ok(if c.basePath != "" then c.basePath else "/")
    case RcloneRemote => Ok(base)
    case _ => Ok(if IsAbsolute(c.basePath) then "/" + base else base)
  }

  /** `display_path`: the path without an alias. */
  function DisplayPath(c: Connection, subpath: string): Result<string, ConfigError> {
    match BasePathFor(c)
    case Err(e) => Err(e)
    case Ok(base) => match Joined(base, subpath) case Err(_) => Err(Outside) case Ok(path) => Ok(path)
  }

  /** `Endpoint.spec`. */
  function SpecFor(alias: string, c: Connection, subpath: string): Result<string, ConfigError> {
    match DisplayPath(c, subpath)
    case Err(e) => Err(e)
    case Ok(path) => Ok(alias + ":" + path)
  }

  /** Whether the connection's paths start at the root of its filesystem. */
  predicate IsRooted(c: Connection) {
    match c.kind
    case Local => c.basePath == "" || IsAbsolute(c.basePath)
    case Smb => false
    case RcloneRemote => false
    case _ => IsAbsolute(c.basePath)
  }

  lemma BaseIsRooted(c: Connection)
    requires BasePathFor(c).Ok?
    ensures IsAbsolute(BasePathFor(c).value) <==> IsRooted(c)
  {
    hide Strip, IsAbsolute;
    var base, share := Trim(c.basePath), Trim(c.share);
    assert base == "" || base[0] != '/';
    assert share == "" || share[0] != '/';
    AbsoluteHead(BasePathFor(c).value);
    AbsoluteHead(c.basePath);
  }

  /** The names in a connection's own path: the share first, then the base path. */
  lemma BaseNames(c: Connection)
    requires BasePathFor(c).Ok?
    ensures Kept(Split(BasePathFor(c).value))
            == (if c.kind == Smb then Kept(Split(c.share)) else []) + Kept(Split(c.basePath))
  {
    hide Strip, Split, Kept;
    var base, share := Trim(c.basePath), Trim(c.share);
    StripKeepsComponents(c.basePath);
    StripKeepsComponents(c.share);
    EmptyPath();
    SplitConcat(share, base);
    KeptConcat(Split(share), Split(base));
    SplitConcat("", base);
    KeptConcat(Split(""), Split(base));
    SplitConcat("", "");
    KeptConcat(Split(""), Split(""));
    assert "/" + base == "" + "/" + base && "/" == "" + "/" + "";
  }

  /** An endpoint is refused exactly for a share without a share's name, or a subpath that walks up; otherwise its path
      has the names of the share, the base path and the subpath, in this order. */
  lemma EndpointNames(c: Connection, subpath: string)
    ensures match DisplayPath(c, subpath)
            case Err(NoShare) => c.kind == Smb && Trim(c.share) == ""
            case Err(Outside) => !(c.kind == Smb && Trim(c.share) == "") && ".." in Components(subpath)
            case Ok(path) =>
              && !(c.kind == Smb && Trim(c.share) == "") && ".." !in Components(subpath)
              && Kept(Split(path))
                 == (if c.kind == Smb then Kept(Split(c.share)) else []) + Kept(Split(c.basePath))
                    + Kept(Components(subpath))
  {
    hide Strip, Split, Kept, Components, Extend;
    if BasePathFor(c).Ok? {
      BaseNames(c);
      JoinExtends(BasePathFor(c).value, subpath);
    }
  }

  lemma AbsoluteHead(path: string)
    ensures IsAbsolute(path) <==> path != "" && path[0] == '/'
  {
    assert path != "" ==> path[..1] == [path[0]];
  }

  lemma FirstKept(kept: seq<string>)
    requires kept != [] && SlashFree(kept) && "" !in kept
    ensures Join(kept) != "" && Join(kept)[0] == kept[0][0] != '/'
  {
    assert kept[0] in kept;
  }

  /** Extending a base by components neither makes a path absolute nor stops it from being so. */
  lemma ExtendKeepsRooted(base: string, kept: seq<string>)
    requires SlashFree(kept) && "" !in kept
    ensures IsAbsolute(Extend(base, kept)) <==> IsAbsolute(base)
  {
    hide Join, RightStrip;
    if kept != [] {
      FirstKept(kept);
      var head := RightStrip(base, SLASH);
      if base != "" {
        RightStripTail(base, SLASH);
        assert head == "" ==> base[0] in SLASH;
        assert head != "" ==> head[0] == base[0];
      }
    }
  }

  /** A resolved path is absolute exactly when its connection is rooted, whatever the job's subpath. */
  lemma AbsoluteExactly(c: Connection, subpath: string)
    requires DisplayPath(c, subpath).Ok?
    ensures IsAbsolute(DisplayPath(c, subpath).value) <==> IsRooted(c)
  {
    hide Extend, Kept, Split, Slashed, IsAbsolute, BasePathFor, IsRooted;
    BaseIsRooted(c);
    JoinSplit(Slashed(subpath));
    KeptSlashFree(Components(subpath));
    ExtendKeepsRooted(BasePathFor(c).value, Kept(Components(subpath)));
  }

  /** A path on a share names the share first. */
  lemma ShareComesFirst(c: Connection, subpath: string)
    requires c.kind == Smb && DisplayPath(c, subpath).Ok?
    ensures Trim(DisplayPath(c, subpath).value) != ""
  {
    hide Strip, RightStrip, Joined;
    var base := BasePathFor(c).value;
    assert base != "" && base[0] != '/';
    StartsWithKept(base, subpath);
    var p := DisplayPath(c, subpath).value;
    TrimNonempty(p);
  }

  lemma StartsWithKept(base: string, subpath: string)
    requires base != "" && base[0] != '/' && Joined(base, subpath).Ok?
    ensures Joined(base, subpath).value != "" && Joined(base, subpath).value[0] == base[0]
  {
    hide Join, Kept, Components;
    RightStripTail(base, SLASH);
  }

  lemma TrimNonempty(p: string)
    requires p != "" && p[0] != '/'
    ensures Trim(p) != ""
  {
    assert LeftStrip(p, SLASH) == p;
    RightStripTail(p, SLASH);
  }

  /** Which endpoints get a default archive: every share and everything below a top level; of the rest, only a
      top-level directory of an unrooted connection. The top of a remote or of a filesystem, and a top-level
      directory addressed from the root, are refused. */
  lemma DefaultForEndpoint(job: Job, alias: string, c: Connection, subpath: string, stamp: string)
    requires Strip(job.archiveBase, SPACES) == "" && |alias| >= 2 && AllSafe(alias)
    requires DisplayPath(c, subpath).Ok? && '\n' !in DisplayPath(c, subpath).value
    ensures var t := Trim(DisplayPath(c, subpath).value);
            && (PlanFor(job, SpecFor(alias, c, subpath).value, stamp).Ok? <==> '/' in t || (t != "" && !IsRooted(c)))
            && (c.kind == Smb ==> PlanFor(job, SpecFor(alias, c, subpath).value, stamp).Ok?)
  {
    hide Strip, PlanFor, DisplayPath, SplitRemote, AllSafe, IsAbsolute;
    var p := DisplayPath(c, subpath).value;
    SplitJoined(alias, p);
    AbsoluteExactly(c, subpath);
    DefaultIsAccepted(job, alias + ":" + p, stamp);
    if c.kind == Smb { ShareComesFirst(c, subpath); }
  }

  /** For a rooted endpoint the path retention resolves names no remote, so whenever both it and the runner accept the
      job's archive, the directory it looks in is the parent of every directory the runner writes. */
  lemma RetentionFindsEndpoint(job: Job, alias: string, c: Connection, subpath: string, stamp: string)
    requires IsStamp(stamp) && job.layout == TimestampedDir && |alias| >= 2 && AllSafe(alias)
    requires IsRooted(c) && DisplayPath(c, subpath).Ok? && '\n' !in DisplayPath(c, subpath).value
    ensures var written := PlanFor(job, SpecFor(alias, c, subpath).value, stamp);
            var seen := PlanFor(job, DisplayPath(c, subpath).value, stamp);
            written.Ok? && seen.Ok? ==>
              && SplitRemote(seen.value.base).remote == ""
              && StripRemote(written.value.backupDir)
                 == RightStrip(StripRemote(seen.value.base), SLASH) + "/" + Slugify(job.name) + "/" + stamp
  {
    hide PlanFor, DisplayPath, SplitRemote, AllSafe, IsAbsolute, Slugify, RightStrip;
    var p := DisplayPath(c, subpath).value;
    AbsoluteExactly(c, subpath);
    AbsoluteIsPlain(p);
    RetentionLooksWhereRunsWrite(job, alias, p, stamp);
  }
}

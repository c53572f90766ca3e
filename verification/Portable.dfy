/** Configuration export and import (app/portable.py). Rows refer to each other by their position in a table, which
    stands for the id an installation gives them; documents refer to them by name. */
module Portable {
  import opened Wrappers
  import opened Text

  /** Column values by column name, as the document's text for them. */
  type Fields = map<string, string>

  datatype Row<T> = Row(name: string, data: T)

  datatype ConnectionData = ConnectionData(fields: Fields, credential: Option<nat>)
  datatype PresetData = PresetData(builtin: bool, rules: string)
  datatype JobData = JobData(fields: Fields, source: nat, dest: nat, presets: set<nat>)

  datatype Store = Store(credentials: seq<string>, connections: seq<Row<ConnectionData>>, presets: seq<Row<PresetData>>,
                         jobs: seq<Row<JobData>>, preferences: Fields)

  const CONNECTION_FIELDS: set<string> := {"type", "host", "port", "share", "base_path", "username", "extra_opts",
    "rclone_mode", "rclone_remote_name", "rclone_backend_type", "sentinel_file"}

  const JOB_FIELDS: set<string> := {"enabled", "source_path", "dest_path", "engine", "direction", "delete_mode",
    "archive_base", "archive_layout", "archive_retention_days", "filters", "compare_mode", "modify_window", "transfers",
    "checkers", "bwlimit", "max_delete_pct", "conflict_resolve", "check_access", "schedule_cron", "timezone",
    "timeout_seconds", "notify_on"}

  const PREFERENCE_EXCLUDES: set<string> := {"notify_webhook_url", "notify_ntfy_topic", "base_url"}

  const FORMAT_VERSION := 1

  // ------------------------------------------------------------------ documents

  datatype ConnectionEntry = ConnectionEntry(name: string, fields: Fields, credentialName: Option<string>)
  datatype PresetEntry = PresetEntry(name: string, rules: string)
  datatype JobEntry = JobEntry(name: string, fields: Fields, source: string, dest: string, presets: seq<string>)

  /** A missing name, link or list is the empty one. */
  datatype Document = Document(version: int, connections: seq<ConnectionEntry>, jobs: seq<JobEntry>,
                               presets: seq<PresetEntry>, preferences: Fields)

  datatype Warning =
    | NeedsCredential(connection: string, credential: string)
    | WithoutPreset(job: string, preset: string)
    | PreferencesInvalid

  datatype Report = Report(connectionsCreated: nat, connectionsSkipped: nat, jobsCreated: nat, jobsSkipped: nat,
                           presetsCreated: nat, preferencesApplied: bool, warnings: seq<Warning>, errors: nat)

  // ------------------------------------------------------------------ adding rows by name

  function Names<T>(rows: seq<Row<T>>): set<string> { set i | 0 <= i < |rows| :: rows[i].name }

  predicate Distinct<T>(rows: seq<Row<T>>) {
    forall i, j :: 0 <= i < j < |rows| ==> rows[i].name != rows[j].name
  }

  /** The position of the row of that name. */
  function IndexOf<T>(rows: seq<Row<T>>, name: string): (r: Option<nat>)
    ensures r.Some? ==> r.value < |rows| && rows[r.value].name == name
    ensures r.None? ==> forall i :: 0 <= i < |rows| ==> rows[i].name != name
  {
    if rows == [] then None
    else if rows[|rows| - 1].name == name then Some(|rows| - 1)
    else IndexOf(rows[..|rows| - 1], name)
  }

  /** An entry of a document with its links resolved. Without data it cannot be imported. */
  datatype Candidate<T> = Candidate(name: string, data: Option<T>, warnings: seq<Warning>)

  datatype Tally<T> = Tally(rows: seq<Row<T>>, created: nat, skipped: nat, errors: nat, warnings: seq<Warning>)

  function AddOne<T>(t: Tally<T>, c: Candidate<T>): Tally<T> {
    var name := Strip(c.name, SPACES);
    if name == "" then t.(errors := t.errors + 1)
    else if name in Names(t.rows) then t.(skipped := t.skipped + 1)
    else if c.data.None? then t.(errors := t.errors + 1)
    else t.(rows := t.rows + [Row(name, c.data.value)], created := t.created + 1, warnings := t.warnings + c.warnings)
  }

  function AddAll<T>(rows: seq<Row<T>>, cs: seq<Candidate<T>>): Tally<T> {
    if cs == [] then Tally(rows, 0, 0, 0, []) else AddOne(AddAll(rows, cs[..|cs| - 1]), cs[|cs| - 1])
  }

  /** What an entry's fields become: its own where it has them, then what the import fills in, then the column's
      default. */
  function Completed(given: Fields, known: set<string>, filled: Fields, defaults: Fields): Fields {
    defaults + filled + (map k | k in given && k in known :: given[k])
  }

  function PresetCandidate(e: PresetEntry): Candidate<PresetData> {
    Candidate(e.name, Some(PresetData(false, e.rules)), [])
  }

  /** The position of a credential. */
  function CredentialOf(credentials: seq<string>, name: string): (r: Option<nat>)
    ensures r.Some? ==> r.value < |credentials| && credentials[r.value] == name
    ensures r.None? ==> name !in credentials
  {
    if credentials == [] then None
    else if credentials[|credentials| - 1] == name then Some(|credentials| - 1)
    else CredentialOf(credentials[..|credentials| - 1], name)
  }

  /** The column defaults of the two tables. */
  datatype Schema = Schema(connection: Fields, job: Fields)

  function ConnectionCandidate(e: ConnectionEntry, credentials: seq<string>,
                               schema: Schema): Candidate<ConnectionData> {
    var named := e.credentialName.Some? && e.credentialName.value != "";
    var credential := if named then CredentialOf(credentials, e.credentialName.value) else None;
    Candidate(e.name,
      Some(ConnectionData(Completed(e.fields, CONNECTION_FIELDS, map["base_path" := "", "extra_opts" := "{}"],
                                    schema.connection),
                          credential)),
      if named && credential.None? then [NeedsCredential(Strip(e.name, SPACES), e.credentialName.value)] else [])
  }

  /** The presets of a list of names that are there to be linked. */
  function LinkedPresets(names: seq<string>, presets: seq<Row<PresetData>>): set<nat> {
    if names == [] then {}
    else
      var k := IndexOf(presets, names[|names| - 1]);
      LinkedPresets(names[..|names| - 1], presets) + if k.Some? then {k.value} else {}
  }

  function PresetWarnings(job: string, names: seq<string>, presets: seq<Row<PresetData>>): seq<Warning> {
    if names == [] then []
    else
      var last := names[|names| - 1];
      PresetWarnings(job, names[..|names| - 1], presets)
      + if IndexOf(presets, last).None? then [WithoutPreset(job, last)] else []
  }

  function JobCandidate(e: JobEntry, connections: seq<Row<ConnectionData>>, presets: seq<Row<PresetData>>,
                        schema: Schema)
    : Candidate<JobData>
  {
    var source, dest := IndexOf(connections, e.source), IndexOf(connections, e.dest);
    Candidate(e.name,
      if source.None? || dest.None? then None
      else Some(JobData(Completed(e.fields, JOB_FIELDS, map["filters" := "{}"], schema.job), source.value, dest.value,
                        LinkedPresets(e.presets, presets))),
      PresetWarnings(Strip(e.name, SPACES), e.presets, presets))
  }

  function PresetCandidates(es: seq<PresetEntry>): (cs: seq<Candidate<PresetData>>)
    ensures |cs| == |es| && forall i :: 0 <= i < |es| ==> cs[i] == PresetCandidate(es[i])
  {
    seq(|es|, i requires 0 <= i < |es| => PresetCandidate(es[i]))
  }

  function ConnectionCandidates(es: seq<ConnectionEntry>, credentials: seq<string>, schema: Schema)
    : (cs: seq<Candidate<ConnectionData>>)
    ensures |cs| == |es| && forall i :: 0 <= i < |es| ==> cs[i] == ConnectionCandidate(es[i], credentials, schema)
  {
    seq(|es|, i requires 0 <= i < |es| => ConnectionCandidate(es[i], credentials, schema))
  }

  function JobCandidates(es: seq<JobEntry>, connections: seq<Row<ConnectionData>>, presets: seq<Row<PresetData>>,
                         schema: Schema)
    : (cs: seq<Candidate<JobData>>)
    ensures |cs| == |es| && forall i :: 0 <= i < |es| ==> cs[i] == JobCandidate(es[i], connections, presets, schema)
  {
    seq(|es|, i requires 0 <= i < |es| => JobCandidate(es[i], connections, presets, schema))
  }

  // ------------------------------------------------------------------ the import on values

  function Merged(current: Fields, incoming: Fields): Fields {
    current + (incoming - PREFERENCE_EXCLUDES)
  }

  /** The presets the import can link: without autoflush the query does not see rows the same import has added. */
  function Visible(before: seq<Row<PresetData>>, after: seq<Row<PresetData>>, autoflush: bool): seq<Row<PresetData>> {
    if autoflush then after else before
  }

  function PresetTally(s: Store, doc: Document): Tally<PresetData> { AddAll(s.presets, PresetCandidates(doc.presets)) }

  function ConnectionTally(s: Store, doc: Document, schema: Schema): Tally<ConnectionData> {
    AddAll(s.connections, ConnectionCandidates(doc.connections, s.credentials, schema))
  }

  function JobTally(s: Store, doc: Document, schema: Schema, autoflush: bool): Tally<JobData> {
    AddAll(s.jobs, JobCandidates(doc.jobs, ConnectionTally(s, doc, schema).rows,
                                 Visible(s.presets, PresetTally(s, doc).rows, autoflush), schema))
  }

  function Preferences(s: Store, doc: Document, valid: Fields -> bool): Fields {
    var merged := Merged(s.preferences, doc.preferences);
    if doc.preferences != map[] && valid(merged) then merged else s.preferences
  }

  /** A connection's type is the one column that must be there and has no default. */
  predicate HasType(fields: Fields) {
    "type" in fields && fields["type"] != "null"
  }

  /** The rows from the n-th on can be flushed. */
  predicate Flushes(rows: seq<Row<ConnectionData>>, n: nat) {
    forall k :: n <= k < |rows| ==> HasType(rows[k].data.fields)
  }

  /** The flush raises on a connection without a type, and the import with it. */
  predicate Aborts(s: Store, doc: Document, schema: Schema) {
    !Flushes(ConnectionTally(s, doc, schema).rows, |s.connections|)
  }

  /** The store after an import. */
  function Imported(s: Store, doc: Document, schema: Schema, autoflush: bool, valid: Fields -> bool): Store {
    if doc.version != FORMAT_VERSION || Aborts(s, doc, schema) then s
    else Store(s.credentials, ConnectionTally(s, doc, schema).rows, PresetTally(s, doc).rows,
               JobTally(s, doc, schema, autoflush).rows, Preferences(s, doc, valid))
  }

  // ------------------------------------------------------------------ the session

  /** A database session: rows the database has, and preset rows added but not yet flushed. */
  class Session {
    const schema: Schema
    const autoflush: bool
    var store: Store
    var pending: seq<Row<PresetData>>

    constructor (store: Store, schema: Schema, autoflush: bool)
      ensures this.store == store && this.schema == schema && this.autoflush == autoflush && pending == []
    {
      this.store, this.schema, this.autoflush, pending := store, schema, autoflush, [];
    }

    method Flush()
      modifies this
      ensures pending == [] && store == old(store).(presets := old(store).presets + old(pending))
    {
      store := store.(presets := store.presets + pending);
      pending := [];
    }

    /** Reads the preset table, flushing first when the session does that. */
    method SelectPresets() returns (rows: seq<Row<PresetData>>)
      modifies this
      ensures rows == store.presets == if autoflush then old(store).presets + old(pending) else old(store).presets
      ensures store == old(store).(presets := rows) && store.presets + pending == old(store).presets + old(pending)
    {
      if autoflush { Flush(); }
      rows := store.presets;
    }

    method ImportPresets(entries: seq<PresetEntry>) returns (created: nat)
      requires pending == []
      modifies this
      ensures store == old(store)
      ensures var tally := AddAll(store.presets, PresetCandidates(entries));
              store.presets + pending == tally.rows && created == tally.created
    {
      hide AddOne, AddAll, Names, Strip, PresetCandidates;
      var existing := NamesOf(store.presets);
      ghost var cs, rows := PresetCandidates(entries), store.presets;
      created := 0;
      AddNothing(rows);
      ghost var tally := AddAll(rows, cs[..0]);
      for i := 0 to |entries|
        invariant store == old(store) && tally == AddAll(rows, cs[..i])
        invariant rows + pending == tally.rows && created == tally.created && existing == Names(tally.rows)
      {
        AddAllStep(rows, cs, i);
        AddOneCases(tally, cs[i]);
        tally := AddOne(tally, cs[i]);
        var name := Strip(entries[i].name, SPACES);
        if name == "" || name in existing {
          continue;
        }
        AppendAssociates(rows, pending, Row(name, PresetData(false, entries[i].rules)));
        pending := pending + [Row(name, PresetData(false, entries[i].rules))];
        existing := existing + {name};
        created := created + 1;
      }
      assert cs[..|entries|] == cs;
    }

    method ImportConnections(entries: seq<ConnectionEntry>) returns (tally: Tally<ConnectionData>)
      modifies this
      ensures tally == AddAll(old(store).connections, ConnectionCandidates(entries, old(store).credentials, schema))
      ensures store == old(store).(connections := tally.rows) && pending == old(pending)
    {
      hide AddOne, Names, ConnectionCandidate;
      var existing := NamesOf(store.connections);
      ghost var cs := ConnectionCandidates(entries, store.credentials, schema);
      tally := Tally(store.connections, 0, 0, 0, []);
      for i := 0 to |entries|
        invariant tally == AddAll(old(store).connections, cs[..i]) && existing == Names(tally.rows)
        invariant store == old(store).(connections := tally.rows) && pending == old(pending)
      {
        AddAllStep(old(store).connections, cs, i);
        var c := ConnectionCandidate(entries[i], store.credentials, schema);
        AddOneCases(tally, c);
        var name := Strip(c.name, SPACES);
        if name == "" {
          tally := tally.(errors := tally.errors + 1);
          continue;
        }
        if name in existing {
          tally := tally.(skipped := tally.skipped + 1);
          continue;
        }
        ConnectionHasData(entries[i], store.credentials, schema);
        tally := Tally(tally.rows + [Row(name, c.data.value)], tally.created + 1, tally.skipped, tally.errors,
                       tally.warnings + c.warnings);
        store := store.(connections := tally.rows);
        existing := existing + {name};
      }
      assert cs[..|entries|] == cs;
    }

    method ImportJobs(entries: seq<JobEntry>, connections: seq<Row<ConnectionData>>, presets: seq<Row<PresetData>>)
      returns (tally: Tally<JobData>)
      modifies this
      ensures tally == AddAll(old(store).jobs, JobCandidates(entries, connections, presets, schema))
      ensures store == old(store).(jobs := tally.rows) && pending == old(pending)
    {
      hide AddOne, Names, LinkedPresets, PresetWarnings;
      var existing := NamesOf(store.jobs);
      ghost var cs := JobCandidates(entries, connections, presets, schema);
      tally := Tally(store.jobs, 0, 0, 0, []);
      for i := 0 to |entries|
        invariant tally == AddAll(old(store).jobs, cs[..i]) && existing == Names(tally.rows)
        invariant store == old(store).(jobs := tally.rows) && pending == old(pending)
      {
        var e := entries[i];
        AddAllStep(old(store).jobs, cs, i);
        AddOneCases(tally, cs[i]);
        var name := Strip(e.name, SPACES);
        if name == "" {
          tally := tally.(errors := tally.errors + 1);
          continue;
        }
        if name in existing {
          tally := tally.(skipped := tally.skipped + 1);
          continue;
        }
        var source, dest := IndexOf(connections, e.source), IndexOf(connections, e.dest);
        if source.None? || dest.None? {
          tally := tally.(errors := tally.errors + 1);
          continue;
        }
        var fields := Completed(e.fields, JOB_FIELDS, map["filters" := "{}"], schema.job);
        var linked, warnings := LinkPresets(name, e.presets, presets);
        var data := JobData(fields, source.value, dest.value, linked);
        tally := Tally(tally.rows + [Row(name, data)], tally.created + 1, tally.skipped, tally.errors,
                       tally.warnings + warnings);
        store := store.(jobs := tally.rows);
        existing := existing + {name};
      }
      assert cs[..|entries|] == cs;
    }

    /** `import_document`. Without a report it has raised, and what was added is rolled back. */
    method ImportDocument(doc: Document, valid: Fields -> bool) returns (outcome: Option<Report>)
      requires pending == []
      modifies this
      ensures pending == [] && store == Imported(old(store), doc, schema, autoflush, valid)
      ensures outcome.None? <==> doc.version == FORMAT_VERSION && Aborts(old(store), doc, schema)
      ensures outcome.Some? && doc.version == FORMAT_VERSION ==>
                var report := outcome.value;
                && report.connectionsCreated == |store.connections| - |old(store).connections|
                && report.jobsCreated == |store.jobs| - |old(store).jobs|
                && report.presetsCreated == |store.presets| - |old(store).presets|
                && report.connectionsCreated + report.connectionsSkipped + report.jobsCreated + report.jobsSkipped
                   + report.errors
                   == |doc.connections| + |doc.jobs|
                && report.connectionsSkipped == ConnectionTally(old(store), doc, schema).skipped
                && report.jobsSkipped == JobTally(old(store), doc, schema, autoflush).skipped
                && (report.preferencesApplied
                    <==> doc.preferences != map[]
                         && exists m :: IsOverlay(m, old(store).preferences, doc.preferences) && valid(m))
                && report.warnings
                   == ConnectionTally(old(store), doc, schema).warnings
                      + JobTally(old(store), doc, schema, autoflush).warnings
                      + (if doc.preferences != map[] && !report.preferencesApplied then [PreferencesInvalid] else [])
      ensures outcome.Some? && doc.version != FORMAT_VERSION ==>
                outcome.value == Report(0, 0, 0, 0, 0, false, [], 1)
    {
      hide AddAll, PresetCandidates, ConnectionCandidates, JobCandidates, HasType;
      if doc.version != FORMAT_VERSION {
        return Some(Report(0, 0, 0, 0, 0, false, [], 1));
      }
      var before := store;
      var presetsCreated := ImportPresets(doc.presets);
      var presets := SelectPresets();
      var connections := ImportConnections(doc.connections);
      if !Flushes(connections.rows, |before.connections|) {
        store, pending := before, [];
        return None;
      }
      Flush();
      var jobs := ImportJobs(doc.jobs, store.connections, presets);
      var warnings, applied := connections.warnings + jobs.warnings, false;
      if doc.preferences != map[] {
        var merged := Merged(store.preferences, doc.preferences);
        MergedIsOverlay(store.preferences, doc.preferences);
        if valid(merged) {
          store := store.(preferences := merged);
          applied := true;
        } else {
          warnings := warnings + [PreferencesInvalid];
        }
      }
      EveryEntryCounts(before.presets, PresetCandidates(doc.presets));
      EveryEntryCounts(before.connections, ConnectionCandidates(doc.connections, before.credentials, schema));
      EveryEntryCounts(before.jobs, JobCandidates(doc.jobs, connections.rows, presets, schema));
      outcome := Some(Report(connections.created, connections.skipped, jobs.created, jobs.skipped, presetsCreated,
                             applied, warnings, connections.errors + jobs.errors));
    }
  }

  method NamesOf<T>(rows: seq<Row<T>>) returns (names: set<string>)
    ensures names == Names(rows)
  {
    names := {};
    for i := 0 to |rows|
      invariant names == Names(rows[..i])
    {
      assert rows[..i + 1] == rows[..i] + [rows[i]];
      names := names + {rows[i].name};
    }
    assert rows[..|rows|] == rows;
  }

  method LinkPresets(job: string, names: seq<string>, presets: seq<Row<PresetData>>)
    returns (linked: set<nat>, warnings: seq<Warning>)
    ensures linked == LinkedPresets(names, presets) && warnings == PresetWarnings(job, names, presets)
  {
    linked, warnings := {}, [];
    for i := 0 to |names|
      invariant linked == LinkedPresets(names[..i], presets) && warnings == PresetWarnings(job, names[..i], presets)
    {
      assert names[..i + 1][..i] == names[..i];
      var preset := IndexOf(presets, names[i]);
      if preset.None? {
        warnings := warnings + [WithoutPreset(job, names[i])];
        continue;
      }
      linked := linked + {preset.value};
    }
    assert names[..|names|] == names;
  }

  lemma AddNothing<T>(rows: seq<Row<T>>)
    ensures AddAll(rows, []) == Tally(rows, 0, 0, 0, [])
  {
  }

  lemma AppendAssociates<T>(a: seq<T>, b: seq<T>, x: T)
    ensures a + (b + [x]) == a + b + [x]
  {
  }

  lemma AddAllStep<T>(rows: seq<Row<T>>, cs: seq<Candidate<T>>, i: nat)
    requires i < |cs|
    ensures AddAll(rows, cs[..i + 1]) == AddOne(AddAll(rows, cs[..i]), cs[i])
  {
    assert cs[..i + 1][..i] == cs[..i];
  }

  lemma AddOneCases<T>(t: Tally<T>, c: Candidate<T>)
    ensures var name := Strip(c.name, SPACES); var after := AddOne(t, c);
            && (name == "" ==> after == t.(errors := t.errors + 1))
            && (name != "" && name in Names(t.rows) ==> after == t.(skipped := t.skipped + 1))
            && (name != "" && name !in Names(t.rows) && c.data.None? ==> after == t.(errors := t.errors + 1))
            && (name != "" && name !in Names(t.rows) && c.data.Some? ==>
                  && after == Tally(t.rows + [Row(name, c.data.value)], t.created + 1, t.skipped, t.errors,
                                    t.warnings + c.warnings)
                  && Names(after.rows) == Names(t.rows) + {name})
  {
    hide Strip, Names;
    var name := Strip(c.name, SPACES);
    if c.data.Some? { NamesAppend(t.rows, Row(name, c.data.value)); }
  }

  lemma NamesAppend<T>(rows: seq<Row<T>>, row: Row<T>)
    ensures Names(rows + [row]) == Names(rows) + {row.name}
  {
    var more := rows + [row];
    assert more[|rows|] == row;
    assert forall i :: 0 <= i < |rows| ==> more[i] == rows[i];
    forall n | n in Names(rows) + {row.name}
      ensures n in Names(more)
    {
      if n in Names(rows) {
        var i :| 0 <= i < |rows| && rows[i].name == n;
        assert more[i].name == n;
      }
    }
  }

  lemma ConnectionHasData(e: ConnectionEntry, credentials: seq<string>, schema: Schema)
    ensures ConnectionCandidate(e, credentials, schema).data.Some?
  {
  }

  /** Every entry is created, skipped or reported; as many rows appear as are reported created. */
  lemma {:induction false} EveryEntryCounts<T>(rows: seq<Row<T>>, cs: seq<Candidate<T>>)
    ensures var t := AddAll(rows, cs);
            t.created + t.skipped + t.errors == |cs| && |t.rows| == |rows| + t.created
  {
    hide Strip, Names;
    if cs != [] { EveryEntryCounts(rows, cs[..|cs| - 1]); }
  }

  // ------------------------------------------------------------------ what every import keeps

  lemma {:induction false} AddAllExtends<T>(rows: seq<Row<T>>, cs: seq<Candidate<T>>)
    ensures rows <= AddAll(rows, cs).rows
    ensures Distinct(rows) ==> Distinct(AddAll(rows, cs).rows)
  {
    hide AddOne, Strip, Names;
    if cs != [] {
      var before := AddAll(rows, cs[..|cs| - 1]);
      AddAllExtends(rows, cs[..|cs| - 1]);
      AddOneCases(before, cs[|cs| - 1]);
      NamesMembers(before.rows);
    }
  }

  lemma NamesMembers<T>(rows: seq<Row<T>>)
    ensures forall i :: 0 <= i < |rows| ==> rows[i].name in Names(rows)
  {
  }

  /** A row that an import adds comes from an entry with that name and all its links. */
  lemma {:induction false} Provenance<T>(rows: seq<Row<T>>, cs: seq<Candidate<T>>, k: nat) returns (i: nat)
    requires |rows| <= k < |AddAll(rows, cs).rows|
    ensures i < |cs| && cs[i].data.Some? && AddAll(rows, cs).rows[k] == Row(Strip(cs[i].name, SPACES), cs[i].data.value)
    ensures Strip(cs[i].name, SPACES) != "" && Strip(cs[i].name, SPACES) !in Names(rows)
  {
    hide AddOne, Strip, Names;
    var init := cs[..|cs| - 1];
    var before := AddAll(rows, init);
    AddOneCases(before, cs[|cs| - 1]);
    if k < |before.rows| {
      i := Provenance(rows, init, k);
    } else {
      i := |cs| - 1;
      AddAllExtends(rows, init);
      NamesOfPrefix(rows, before.rows);
    }
  }

  lemma NamesOfPrefix<T>(rows: seq<Row<T>>, more: seq<Row<T>>)
    requires rows <= more
    ensures Names(rows) <= Names(more)
  {
    assert forall i :: 0 <= i < |rows| ==> rows[i] == more[i];
  }

  /** The i-th entry becomes a row: it has a name and its links, and no row and no earlier complete entry is called the
      same. */
  predicate Creates<T>(rows: seq<Row<T>>, cs: seq<Candidate<T>>, i: nat) {
    i < |cs| && Strip(cs[i].name, SPACES) != "" && !IsTaken(rows, cs, i) && cs[i].data.Some?
  }

  /** The i-th entry is passed over, because its name is taken. */
  predicate Skips<T>(rows: seq<Row<T>>, cs: seq<Candidate<T>>, i: nat) {
    i < |cs| && Strip(cs[i].name, SPACES) != "" && IsTaken(rows, cs, i)
  }

  predicate IsTaken<T>(rows: seq<Row<T>>, cs: seq<Candidate<T>>, i: nat)
    requires i < |cs|
  {
    var name := Strip(cs[i].name, SPACES);
    || (exists k :: 0 <= k < |rows| && rows[k].name == name)
    || (exists j :: 0 <= j < i && cs[j].data.Some? && Strip(cs[j].name, SPACES) == name)
  }

  lemma TakenExactly<T>(rows: seq<Row<T>>, cs: seq<Candidate<T>>, i: nat)
    requires i < |cs| && Strip(cs[i].name, SPACES) != ""
    ensures IsTaken(rows, cs, i) <==> Strip(cs[i].name, SPACES) in Names(AddAll(rows, cs[..i]).rows)
  {
    hide AddOne, AddAll, Strip;
    var init, name := cs[..i], Strip(cs[i].name, SPACES);
    NamesAfter(rows, init);
    var earlier := set j | 0 <= j < |init| && init[j].data.Some? :: Strip(init[j].name, SPACES);
    assert name in Names(AddAll(rows, init).rows) <==> name in Names(rows) + {""} + earlier by {
      assert name in Names(AddAll(rows, init).rows) + {""} <==> name in Names(AddAll(rows, init).rows);
    }
    assert name in earlier <==> exists j :: 0 <= j < i && cs[j].data.Some? && Strip(cs[j].name, SPACES) == name by {
      assert forall j :: 0 <= j < i ==> init[j] == cs[j];
    }
  }

  /** The names after an import are those from before and those of the complete entries. */
  lemma {:induction false} NamesAfter<T>(rows: seq<Row<T>>, cs: seq<Candidate<T>>)
    ensures Names(AddAll(rows, cs).rows) + {""}
            == Names(rows) + {""} + set j | 0 <= j < |cs| && cs[j].data.Some? :: Strip(cs[j].name, SPACES)
  {
    hide AddOne, Strip, Names;
    if cs != [] {
      var init, last := cs[..|cs| - 1], cs[|cs| - 1];
      NamesAfter(rows, init);
      AddOneCases(AddAll(rows, init), last);
      var earlier := set j | 0 <= j < |init| && init[j].data.Some? :: Strip(init[j].name, SPACES);
      assert (set j | 0 <= j < |cs| && cs[j].data.Some? :: Strip(cs[j].name, SPACES))
             == earlier + if last.data.Some? then {Strip(last.name, SPACES)} else {};
    }
  }

  /** The rows added are those of the entries that create one, in the document's order. */
  ghost function NewRows<T>(rows: seq<Row<T>>, cs: seq<Candidate<T>>, n: nat): seq<Row<T>>
    requires n <= |cs|
  {
    if n == 0 then []
    else
      NewRows(rows, cs, n - 1)
      + if Creates(rows, cs, n - 1) then [Row(Strip(cs[n - 1].name, SPACES), cs[n - 1].data.value)] else []
  }

  ghost function NewWarnings<T>(rows: seq<Row<T>>, cs: seq<Candidate<T>>, n: nat): seq<Warning>
    requires n <= |cs|
  {
    if n == 0 then []
    else NewWarnings(rows, cs, n - 1) + if Creates(rows, cs, n - 1) then cs[n - 1].warnings else []
  }

  ghost function CountOf<T>(rows: seq<Row<T>>, cs: seq<Candidate<T>>, n: nat, skips: bool): nat
    requires n <= |cs|
  {
    if n == 0 then 0
    else
      CountOf(rows, cs, n - 1, skips)
      + if (if skips then Skips(rows, cs, n - 1) else Creates(rows, cs, n - 1)) then 1 else 0
  }

  /** What adding entries comes to: exactly those that create a row add it and their warnings, in order; the rest are
      counted as skipped if their name is taken, and as errors if not. */
  lemma {:induction false} AddedExactly<T>(rows: seq<Row<T>>, cs: seq<Candidate<T>>, n: nat)
    requires n <= |cs|
    ensures var t := AddAll(rows, cs[..n]);
            && t.rows == rows + NewRows(rows, cs, n) && t.warnings == NewWarnings(rows, cs, n)
            && t.created == CountOf(rows, cs, n, false) && t.skipped == CountOf(rows, cs, n, true)
            && t.errors == n - t.created - t.skipped
  {
    hide AddOne, Strip, Names, IsTaken, AddAll;
    if n == 0 {
      AddNothing(rows);
    } else {
      AddedExactly(rows, cs, n - 1);
      AddAllStep(rows, cs, n - 1);
      AddOneCases(AddAll(rows, cs[..n - 1]), cs[n - 1]);
      if Strip(cs[n - 1].name, SPACES) != "" { TakenExactly(rows, cs, n - 1); }
    }
  }

  /** Afterwards every entry with a name and its links has a row of its name. */
  lemma {:induction false} AllPresent<T>(rows: seq<Row<T>>, cs: seq<Candidate<T>>, i: nat)
    requires i < |cs| && cs[i].data.Some? && Strip(cs[i].name, SPACES) != ""
    ensures Strip(cs[i].name, SPACES) in Names(AddAll(rows, cs).rows)
    decreases |cs|
  {
    hide AddOne, Strip, Names;
    var before := AddAll(rows, cs[..|cs| - 1]);
    AddOneCases(before, cs[|cs| - 1]);
    if i < |cs| - 1 { AllPresent(rows, cs[..|cs| - 1], i); }
  }

  /** Entries that have no name, or lack a link, or are there already, add nothing. */
  lemma {:induction false} NothingNew<T>(rows: seq<Row<T>>, cs: seq<Candidate<T>>)
    requires forall i :: 0 <= i < |cs| ==>
               Strip(cs[i].name, SPACES) == "" || cs[i].data.None? || Strip(cs[i].name, SPACES) in Names(rows)
    ensures AddAll(rows, cs).rows == rows && AddAll(rows, cs).created == 0
  {
    hide AddOne, Strip, Names;
    if cs != [] {
      NothingNew(rows, cs[..|cs| - 1]);
      AddOneCases(AddAll(rows, cs[..|cs| - 1]), cs[|cs| - 1]);
    }
  }

  /** A second pass over entries with the same names, and links to no more than before, adds nothing. */
  lemma SecondPass<T>(rows: seq<Row<T>>, cs: seq<Candidate<T>>, ds: seq<Candidate<T>>)
    requires |cs| == |ds|
    requires forall i :: 0 <= i < |cs| ==> cs[i].name == ds[i].name && (ds[i].data.Some? ==> cs[i].data.Some?)
    ensures var once := AddAll(rows, cs).rows; AddAll(once, ds).rows == once && AddAll(once, ds).created == 0
  {
    hide AddAll, Strip, Names;
    var once := AddAll(rows, cs).rows;
    forall i | 0 <= i < |ds|
      ensures Strip(ds[i].name, SPACES) == "" || ds[i].data.None? || Strip(ds[i].name, SPACES) in Names(once)
    {
      if Strip(ds[i].name, SPACES) != "" && ds[i].data.Some? { AllPresent(rows, cs, i); }
    }
    NothingNew(once, ds);
  }

  // ------------------------------------------------------------------ how one entry is read

  /** A row's columns: the entry's own where the format knows the column, then what the import fills in, then the
      column's default. */
  predicate IsRead(fields: Fields, given: Fields, known: set<string>, filled: Fields, defaults: Fields) {
    && fields.Keys == (given.Keys * known) + filled.Keys + defaults.Keys
    && forall column :: column in fields ==>
         fields[column]
         == if column in given && column in known then given[column]
            else if column in filled then filled[column]
            else if column in defaults then defaults[column] else ""
  }

  lemma CompletedIsRead(given: Fields, known: set<string>, filled: Fields, defaults: Fields)
    ensures IsRead(Completed(given, known, filled, defaults), given, known, filled, defaults)
  {
    assert (map k | k in given && k in known :: given[k]).Keys == given.Keys * known;
  }

  /** A connection is always complete; its credential is linked if one of that name is here, and asked for by name
      otherwise. */
  lemma ConnectionIsRead(e: ConnectionEntry, credentials: seq<string>, schema: Schema)
    ensures var c := ConnectionCandidate(e, credentials, schema);
            var needed := e.credentialName.Some? && e.credentialName.value != "";
            && c.name == e.name && c.data.Some?
            && IsRead(c.data.value.fields, e.fields, CONNECTION_FIELDS, map["base_path" := "", "extra_opts" := "{}"],
                      schema.connection)
            && match c.data.value.credential {
                 case Some(k) => needed && k < |credentials| && credentials[k] == e.credentialName.value
                                 && c.warnings == []
                 case None =>
                   if needed then e.credentialName.value !in credentials
                                  && c.warnings == [NeedsCredential(Strip(e.name, SPACES), e.credentialName.value)]
                   else c.warnings == []
               }
  {
    hide Completed, CONNECTION_FIELDS, IsRead, Strip;
    CompletedIsRead(e.fields, CONNECTION_FIELDS, map["base_path" := "", "extra_opts" := "{}"], schema.connection);
  }

  lemma {:induction false} NewRowsMembers<T>(rows: seq<Row<T>>, cs: seq<Candidate<T>>, n: nat, row: Row<T>)
    requires n <= |cs|
    ensures row in NewRows(rows, cs, n)
            <==> exists i :: 0 <= i < n && Creates(rows, cs, i)
                             && row == Row(Strip(cs[i].name, SPACES), cs[i].data.value)
  {
    hide Creates, Strip;
    if n > 0 { NewRowsMembers(rows, cs, n - 1, row); }
  }

  /** The entry gives its connection no type, and neither does the column's default. */
  predicate LacksType(e: ConnectionEntry, schema: Schema) {
    if "type" in e.fields then e.fields["type"] == "null"
    else "type" !in schema.connection || schema.connection["type"] == "null"
  }

  /** An import aborts exactly when one of the connections it would create lacks a type. */
  lemma AbortsExactly(s: Store, doc: Document, schema: Schema)
    ensures var cs := ConnectionCandidates(doc.connections, s.credentials, schema);
            Aborts(s, doc, schema)
            <==> exists i :: 0 <= i < |cs| && Creates(s.connections, cs, i) && LacksType(doc.connections[i], schema)
  {
    hide AddAll, Creates, Strip, ConnectionCandidate, LacksType, HasType;
    var cs := ConnectionCandidates(doc.connections, s.credentials, schema);
    var all, n := ConnectionTally(s, doc, schema).rows, |s.connections|;
    AddedExactly(s.connections, cs, |cs|);
    assert cs[..|cs|] == cs;
    forall i | 0 <= i < |cs|
      ensures cs[i].data.Some? && (HasType(cs[i].data.value.fields) <==> !LacksType(doc.connections[i], schema))
    {
      TypeIsRead(doc.connections[i], s.credentials, schema);
    }
    forall k | n <= k < |all|
      ensures exists i :: 0 <= i < |cs| && Creates(s.connections, cs, i) && all[k].data == cs[i].data.value
    {
      NewRowsMembers(s.connections, cs, |cs|, all[k]);
      assert all[k] == NewRows(s.connections, cs, |cs|)[k - n];
    }
    forall i | 0 <= i < |cs| && Creates(s.connections, cs, i)
      ensures exists k :: n <= k < |all| && all[k].data == cs[i].data.value
    {
      var row := Row(Strip(cs[i].name, SPACES), cs[i].data.value);
      NewRowsMembers(s.connections, cs, |cs|, row);
      var j :| 0 <= j < |NewRows(s.connections, cs, |cs|)| && NewRows(s.connections, cs, |cs|)[j] == row;
      assert all[n + j] == row;
    }
  }

  lemma TypeIsRead(e: ConnectionEntry, credentials: seq<string>, schema: Schema)
    ensures var c := ConnectionCandidate(e, credentials, schema);
            c.data.Some? && (HasType(c.data.value.fields) <==> !LacksType(e, schema))
  {
    hide Completed, CredentialOf;
    FilledFields(schema);
    CompletedIsRead(e.fields, CONNECTION_FIELDS, map["base_path" := "", "extra_opts" := "{}"], schema.connection);
  }

  /** A job is complete exactly when both its connections are here; it is linked to those of its presets that can be
      seen, and warned about the others. */
  lemma JobIsRead(e: JobEntry, connections: seq<Row<ConnectionData>>, presets: seq<Row<PresetData>>, schema: Schema)
    ensures var c := JobCandidate(e, connections, presets, schema);
            && c.name == e.name
            && (c.data.Some? <==> e.source in Names(connections) && e.dest in Names(connections))
            && (forall w :: w in c.warnings <==>
                  w.WithoutPreset? && w.job == Strip(e.name, SPACES) && w.preset in e.presets
                  && w.preset !in Names(presets))
            && (c.data.Some? ==>
                  var d := c.data.value;
                  && IsRead(d.fields, e.fields, JOB_FIELDS, map["filters" := "{}"], schema.job)
                  && d.source < |connections| && connections[d.source].name == e.source
                  && d.dest < |connections| && connections[d.dest].name == e.dest
                  && (forall k :: k in d.presets ==> k < |presets| && presets[k].name in e.presets)
                  && forall n :: n in e.presets && n in Names(presets) ==>
                       exists k :: k in d.presets && k < |presets| && presets[k].name == n)
  {
    hide Completed, JOB_FIELDS, IsRead, Strip, LinkedPresets, PresetWarnings;
    CompletedIsRead(e.fields, JOB_FIELDS, map["filters" := "{}"], schema.job);
    PresetsAreRead(Strip(e.name, SPACES), e.presets, presets);
    IndexedExactly(connections, e.source);
    IndexedExactly(connections, e.dest);
  }

  lemma IndexedExactly<T>(rows: seq<Row<T>>, name: string)
    ensures IndexOf(rows, name).Some? <==> name in Names(rows)
  {
  }

  lemma {:induction false} PresetsAreRead(job: string, names: seq<string>, presets: seq<Row<PresetData>>)
    ensures forall w :: w in PresetWarnings(job, names, presets) <==>
              w.WithoutPreset? && w.job == job && w.preset in names && w.preset !in Names(presets)
    ensures forall k :: k in LinkedPresets(names, presets) ==> k < |presets| && presets[k].name in names
    ensures forall n :: n in names && n in Names(presets) ==>
              exists k :: k in LinkedPresets(names, presets) && k < |presets| && presets[k].name == n
  {
    hide Names;
    if names != [] {
      var init, last := names[..|names| - 1], names[|names| - 1];
      PresetsAreRead(job, init, presets);
      IndexedExactly(presets, last);
      assert names == init + [last];
      assert forall n :: n in names <==> n in init || n == last;
      var before, after := LinkedPresets(init, presets), LinkedPresets(names, presets);
      assert before <= after;
      forall n | n in names && n in Names(presets)
        ensures exists k :: k in after && k < |presets| && presets[k].name == n
      {
        if n == last {
          assert IndexOf(presets, last).value in after;
        } else {
          var k :| k in before && k < |presets| && presets[k].name == n;
          assert k in after;
        }
      }
    }
  }

  /** What the tables keep: names are unique and every link leads somewhere. */
  predicate Sound(s: Store) {
    && Distinct(s.connections) && Distinct(s.presets) && Distinct(s.jobs)
    && (forall c :: c in s.connections && c.data.credential.Some? ==> c.data.credential.value < |s.credentials|)
    && (forall j :: j in s.jobs ==> JobLinksHold(s, j.data))
  }

  /** An import only ever adds: whatever was there keeps its position and every one of its columns. */
  lemma ImportIsAdditive(s: Store, doc: Document, schema: Schema, autoflush: bool, valid: Fields -> bool)
    ensures var after := Imported(s, doc, schema, autoflush, valid);
            && s.connections <= after.connections && s.presets <= after.presets && s.jobs <= after.jobs
            && s.credentials == after.credentials
            && forall key :: key in PREFERENCE_EXCLUDES ==>
                 (key in after.preferences <==> key in s.preferences)
                 && (key in s.preferences ==> after.preferences[key] == s.preferences[key])
  {
    hide AddAll;
    AddAllExtends(s.presets, PresetCandidates(doc.presets));
    AddAllExtends(s.connections, ConnectionCandidates(doc.connections, s.credentials, schema));
    AddAllExtends(s.jobs, JobCandidates(doc.jobs, ConnectionTally(s, doc, schema).rows,
                                        Visible(s.presets, PresetTally(s, doc).rows, autoflush), schema));
  }

  /** `m` is the preferences with the document's laid over them, save those that belong to the deployment. */
  predicate IsOverlay(m: Fields, current: Fields, incoming: Fields) {
    && m.Keys == current.Keys + (incoming.Keys - PREFERENCE_EXCLUDES)
    && forall key :: key in m ==>
         m[key] == if key in incoming && key !in PREFERENCE_EXCLUDES then incoming[key] else current[key]
  }

  lemma MergedIsOverlay(current: Fields, incoming: Fields)
    ensures forall m :: IsOverlay(m, current, incoming) <==> m == Merged(current, incoming)
  {
    hide PREFERENCE_EXCLUDES;
    var merged := Merged(current, incoming);
    assert IsOverlay(merged, current, incoming);
    forall m | IsOverlay(m, current, incoming)
      ensures m == merged
    {
      assert m.Keys == merged.Keys;
    }
  }

  /** When the import goes through and the file's preferences, laid over those in force, are valid, every key of the
      file that does not belong to the deployment has the file's value and every other key keeps its own. Otherwise
      all preferences stay. */
  lemma PreferencesExactly(s: Store, doc: Document, schema: Schema, autoflush: bool, valid: Fields -> bool, m: Fields)
    requires IsOverlay(m, s.preferences, doc.preferences)
    ensures var after := Imported(s, doc, schema, autoflush, valid).preferences;
            if doc.version == FORMAT_VERSION && !Aborts(s, doc, schema) && doc.preferences != map[] && valid(m) then
              && after.Keys == s.preferences.Keys + (doc.preferences.Keys - PREFERENCE_EXCLUDES)
              && (forall key :: key in doc.preferences && key !in PREFERENCE_EXCLUDES ==>
                    after[key] == doc.preferences[key])
              && (forall key :: key in s.preferences && (key !in doc.preferences || key in PREFERENCE_EXCLUDES) ==>
                    after[key] == s.preferences[key])
            else after == s.preferences
  {
    hide Aborts, ConnectionTally, PresetTally, JobTally, PREFERENCE_EXCLUDES, Merged;
    MergedIsOverlay(s.preferences, doc.preferences);
  }

  lemma {:induction false} LinkedInRange(names: seq<string>, presets: seq<Row<PresetData>>)
    ensures forall p :: p in LinkedPresets(names, presets) ==> p < |presets|
  {
    if names != [] { LinkedInRange(names[..|names| - 1], presets); }
  }

  /** An import leaves no dangling link: a job is created only onto connections that exist. */
  lemma ImportKeepsSound(s: Store, doc: Document, schema: Schema, autoflush: bool, valid: Fields -> bool)
    requires Sound(s)
    ensures Sound(Imported(s, doc, schema, autoflush, valid))
  {
    hide AddAll, Strip, Names, Distinct, Completed;
    var after := Imported(s, doc, schema, autoflush, valid);
    ImportIsAdditive(s, doc, schema, autoflush, valid);
    if doc.version == FORMAT_VERSION && !Aborts(s, doc, schema) {
      var cs := ConnectionCandidates(doc.connections, s.credentials, schema);
      var visible := Visible(s.presets, PresetTally(s, doc).rows, autoflush);
      var js := JobCandidates(doc.jobs, after.connections, visible, schema);
      AddAllExtends(s.presets, PresetCandidates(doc.presets));
      AddAllExtends(s.connections, cs);
      AddAllExtends(s.jobs, js);
      forall k | 0 <= k < |after.connections| && after.connections[k].data.credential.Some?
        ensures after.connections[k].data.credential.value < |after.credentials|
      {
        if k < |s.connections| {
          assert after.connections[k] == s.connections[k];
        } else {
          var i := Provenance(s.connections, cs, k);
        }
      }
      forall k | 0 <= k < |after.jobs|
        ensures JobLinksHold(after, after.jobs[k].data)
      {
        if k < |s.jobs| {
          assert after.jobs[k] == s.jobs[k];
        } else {
          var i := Provenance(s.jobs, js, k);
          LinkedInRange(doc.jobs[i].presets, visible);
        }
      }
    }
  }

  predicate JobLinksHold(s: Store, j: JobData) {
    j.source < |s.connections| && j.dest < |s.connections| && forall p :: p in j.presets ==> p < |s.presets|
  }

  /** Importing the same document again changes nothing and creates nothing, with an autoflushing session or without. */
  lemma ImportIsIdempotent(s: Store, doc: Document, schema: Schema, autoflush: bool, valid: Fields -> bool)
    ensures var once := Imported(s, doc, schema, autoflush, valid);
            && Imported(once, doc, schema, autoflush, valid) == once
            && (doc.version == FORMAT_VERSION && !Aborts(s, doc, schema) ==>
                  PresetTally(once, doc).created == ConnectionTally(once, doc, schema).created
                  == JobTally(once, doc, schema, autoflush).created == 0)
  {
    hide AddAll, Completed, LinkedPresets, PresetWarnings, CredentialOf, Strip, HasType;
    if doc.version == FORMAT_VERSION && !Aborts(s, doc, schema) {
      var once := Imported(s, doc, schema, autoflush, valid);
      SecondPass(s.presets, PresetCandidates(doc.presets), PresetCandidates(doc.presets));
      var cs := ConnectionCandidates(doc.connections, s.credentials, schema);
      SecondPass(s.connections, cs, cs);
      var before := Visible(s.presets, once.presets, autoflush);
      SecondPass(s.jobs, JobCandidates(doc.jobs, once.connections, before, schema),
                 JobCandidates(doc.jobs, once.connections, once.presets, schema));
      assert Merged(Merged(s.preferences, doc.preferences), doc.preferences) == Merged(s.preferences, doc.preferences);
    }
  }

  // ------------------------------------------------------------------ the export

  function ConnectionEntryFor(s: Store, k: nat): ConnectionEntry
    requires Sound(s) && k < |s.connections|
  {
    var Row(name, data) := s.connections[k];
    assert s.connections[k] in s.connections;
    ConnectionEntry(name, data.fields,
                    if data.credential.Some? then Some(s.credentials[data.credential.value]) else None)
  }

  /** A job with its links by name, and its presets in no particular order. */
  datatype JobView = JobView(name: string, fields: Fields, source: string, dest: string, presets: set<string>)

  function PresetNames(s: Store, positions: set<nat>): set<string> {
    set k | k in positions && k < |s.presets| :: s.presets[k].name
  }

  function JobViewFor(s: Store, k: nat): JobView
    requires Sound(s) && k < |s.jobs|
  {
    var Row(name, data) := s.jobs[k];
    assert s.jobs[k] in s.jobs;
    JobView(name, data.fields, s.connections[data.source].name, s.connections[data.dest].name,
            PresetNames(s, data.presets))
  }

  function ViewOf(e: JobEntry): JobView {
    JobView(e.name, e.fields, e.source, e.dest, set n | n in e.presets)
  }

  /** The configuration an installation holds, by name. */
  function ConnectionSet(s: Store): set<ConnectionEntry>
    requires Sound(s)
  {
    set k | 0 <= k < |s.connections| :: ConnectionEntryFor(s, k)
  }

  function JobSet(s: Store): set<JobView>
    requires Sound(s)
  {
    set k | 0 <= k < |s.jobs| :: JobViewFor(s, k)
  }

  function PresetSet(s: Store, builtin: bool): set<PresetEntry> {
    set r | r in s.presets && r.data.builtin == builtin :: PresetEntry(r.name, r.data.rules)
  }

  function ConnectionEntryNames(es: seq<ConnectionEntry>): (names: seq<string>)
    ensures |names| == |es| && forall i :: 0 <= i < |es| ==> names[i] == es[i].name
  {
    seq(|es|, i requires 0 <= i < |es| => es[i].name)
  }

  function JobEntryNames(es: seq<JobEntry>): (names: seq<string>)
    ensures |names| == |es| && forall i :: 0 <= i < |es| ==> names[i] == es[i].name
  {
    seq(|es|, i requires 0 <= i < |es| => es[i].name)
  }

  function PresetEntryNames(es: seq<PresetEntry>): (names: seq<string>)
    ensures |names| == |es| && forall i :: 0 <= i < |es| ==> names[i] == es[i].name
  {
    seq(|es|, i requires 0 <= i < |es| => es[i].name)
  }

  /** The document lists every connection, every job and every preset that is not built in, once each and by name,
      and no preference that belongs to the deployment. */
  ghost predicate IsExport(s: Store, doc: Document)
    requires Sound(s)
  {
    && doc.version == FORMAT_VERSION && doc.preferences == s.preferences - PREFERENCE_EXCLUDES
    && Ascending(ConnectionEntryNames(doc.connections))
    && Ascending(JobEntryNames(doc.jobs))
    && Ascending(PresetEntryNames(doc.presets))
    && (set e | e in doc.connections) == ConnectionSet(s)
    && (set e | e in doc.jobs :: ViewOf(e)) == JobSet(s)
    && (set e | e in doc.presets) == PresetSet(s, false)
  }

  lemma SamePosition<T>(rows: seq<Row<T>>, i: nat, j: nat)
    requires Distinct(rows) && i < |rows| && j < |rows| && rows[i].name == rows[j].name
    ensures i == j
  {
  }

  /** The position of each name of a table. */
  lemma Positioned<T>(rows: seq<Row<T>>, names: seq<string>)
    requires Distinct(rows) && Enumerates(names, Names(rows))
    ensures forall i :: 0 <= i < |names| ==> IndexOf(rows, names[i]).Some?
    ensures forall k :: 0 <= k < |rows| ==> rows[k].name in names && IndexOf(rows, rows[k].name) == Some(k)
  {
    forall i | 0 <= i < |names|
      ensures IndexOf(rows, names[i]).Some?
    {
      assert names[i] in names;
    }
    forall k | 0 <= k < |rows|
      ensures rows[k].name in names && IndexOf(rows, rows[k].name) == Some(k)
    {
      assert rows[k].name in Names(rows);
      var j := IndexOf(rows, rows[k].name);
      SamePosition(rows, j.value, k);
    }
  }

  /** `export`. */
  method Export(s: Store) returns (doc: Document)
    requires Sound(s)
    ensures IsExport(s, doc)
  {
    var connections := ExportConnections(s);
    var jobs := ExportJobs(s);
    var presets := ExportPresets(s);
    doc := Document(FORMAT_VERSION, connections, jobs, presets, s.preferences - PREFERENCE_EXCLUDES);
  }

  method ExportConnections(s: Store) returns (es: seq<ConnectionEntry>)
    requires Sound(s)
    ensures Ascending(ConnectionEntryNames(es))
    ensures (set e | e in es) == ConnectionSet(s)
  {
    hide Names, Sound, Ascending;
    var names := Sorted(Names(s.connections));
    SoundDistinct(s);
    Positioned(s.connections, names);
    es := [];
    for i := 0 to |names|
      invariant |es| == i
      invariant forall j :: 0 <= j < i ==>
                  var k := IndexOf(s.connections, names[j]).value;
                  es[j] == ConnectionEntryFor(s, k) && es[j].name == names[j]
    {
      es := es + [ConnectionEntryFor(s, IndexOf(s.connections, names[i]).value)];
    }
    assert ConnectionEntryNames(es) == names;
    forall e | e in ConnectionSet(s)
      ensures e in es
    {
      var k :| 0 <= k < |s.connections| && ConnectionEntryFor(s, k) == e;
      var i :| 0 <= i < |names| && names[i] == s.connections[k].name;
      assert es[i] == e;
    }
  }

  method ExportJobs(s: Store) returns (es: seq<JobEntry>)
    requires Sound(s)
    ensures Ascending(JobEntryNames(es))
    ensures (set e | e in es :: ViewOf(e)) == JobSet(s)
  {
    hide Names, Sound, Ascending;
    var names := Sorted(Names(s.jobs));
    SoundDistinct(s);
    Positioned(s.jobs, names);
    es := [];
    for i := 0 to |names|
      invariant |es| == i
      invariant forall j :: 0 <= j < i ==>
                  var k := IndexOf(s.jobs, names[j]).value; ViewOf(es[j]) == JobViewFor(s, k) && es[j].name == names[j]
    {
      var v := JobViewFor(s, IndexOf(s.jobs, names[i]).value);
      var presets := Sorted(v.presets);
      ListedView(v, presets);
      es := es + [JobEntry(v.name, v.fields, v.source, v.dest, presets)];
    }
    assert JobEntryNames(es) == names;
    AllJobsListed(s, names, es);
  }

  lemma ListedView(v: JobView, presets: seq<string>)
    requires Enumerates(presets, v.presets)
    ensures ViewOf(JobEntry(v.name, v.fields, v.source, v.dest, presets)) == v
  {
    assert (set n | n in presets) == v.presets;
  }

  lemma AllJobsListed(s: Store, names: seq<string>, es: seq<JobEntry>)
    requires Sound(s) && |es| == |names|
    requires forall i :: 0 <= i < |names| ==> IndexOf(s.jobs, names[i]).Some?
    requires forall k :: 0 <= k < |s.jobs| ==> s.jobs[k].name in names && IndexOf(s.jobs, s.jobs[k].name) == Some(k)
    requires forall i :: 0 <= i < |es| ==> ViewOf(es[i]) == JobViewFor(s, IndexOf(s.jobs, names[i]).value)
    ensures (set e | e in es :: ViewOf(e)) == JobSet(s)
  {
    hide Sound, ViewOf, JobViewFor;
    forall v | v in JobSet(s)
      ensures v in set e | e in es :: ViewOf(e)
    {
      var k :| 0 <= k < |s.jobs| && JobViewFor(s, k) == v;
      var i :| 0 <= i < |names| && names[i] == s.jobs[k].name;
      assert ViewOf(es[i]) == v;
    }
  }

  method ExportPresets(s: Store) returns (es: seq<PresetEntry>)
    requires Sound(s)
    ensures Ascending(PresetEntryNames(es))
    ensures (set e | e in es) == PresetSet(s, false)
  {
    hide Names, Sound, Ascending;
    var custom := set r | r in s.presets && !r.data.builtin :: r.name;
    var names := Sorted(custom);
    SoundDistinct(s);
    es := [];
    for i := 0 to |names|
      invariant |es| == i
      invariant forall j :: 0 <= j < i ==> es[j].name == names[j] && es[j] in PresetSet(s, false)
    {
      assert names[i] in custom;
      var k := IndexOf(s.presets, names[i]);
      CustomFound(s, names[i]);
      es := es + [PresetEntry(names[i], s.presets[k.value].data.rules)];
    }
    assert PresetEntryNames(es) == names;
    forall e | e in PresetSet(s, false)
      ensures e in es
    {
      var r :| r in s.presets && !r.data.builtin && PresetEntry(r.name, r.data.rules) == e;
      assert e.name in names;
      var i :| 0 <= i < |names| && names[i] == e.name;
      SameRules(s, es[i], e);
    }
  }

  lemma SoundDistinct(s: Store)
    requires Sound(s)
    ensures Distinct(s.connections) && Distinct(s.jobs) && Distinct(s.presets)
  {
  }

  lemma CustomFound(s: Store, name: string)
    requires Distinct(s.presets) && exists r :: r in s.presets && !r.data.builtin && r.name == name
    ensures var k := IndexOf(s.presets, name);
            k.Some? && !s.presets[k.value].data.builtin && s.presets[k.value] in s.presets
  {
    var r :| r in s.presets && !r.data.builtin && r.name == name;
    var i :| 0 <= i < |s.presets| && s.presets[i] == r;
    var k := IndexOf(s.presets, name);
    SamePosition(s.presets, k.value, i);
  }

  lemma SameRules(s: Store, a: PresetEntry, b: PresetEntry)
    requires Distinct(s.presets) && a in PresetSet(s, false) && b in PresetSet(s, false) && a.name == b.name
    ensures a == b
  {
    var q :| q in s.presets && PresetEntry(q.name, q.data.rules) == a;
    var r :| r in s.presets && PresetEntry(r.name, r.data.rules) == b;
    var i :| 0 <= i < |s.presets| && s.presets[i] == q;
    var j :| 0 <= j < |s.presets| && s.presets[j] == r;
    SamePosition(s.presets, i, j);
  }

  /** What is stored is complete: every column is there, and names are as the import would read them. */
  predicate Tidy(s: Store)
    requires Sound(s)
  {
    && (forall e :: e in ConnectionSet(s) ==>
          && e.fields.Keys == CONNECTION_FIELDS && e.fields["type"] != "null" && IsTidy(e.name)
          && (e.credentialName.Some? ==> e.credentialName.value != ""))
    && (forall v :: v in JobSet(s) ==> v.fields.Keys == JOB_FIELDS && IsTidy(v.name))
    && (forall e :: e in PresetSet(s, false) ==> IsTidy(e.name))
  }

  predicate IsTidy(name: string) { name != "" && Strip(name, SPACES) == name }

  /** An installation that has only been set up: the same built-in presets, nothing else to import over. */
  predicate IsSeeded(t: Store, s: Store) {
    && t.connections == [] && t.jobs == [] && PresetSet(t, false) == {} && PresetSet(t, true) == PresetSet(s, true)
  }

  /** Importing entries that are all new, tidy and linked appends them in order. */
  lemma {:induction false} AllFresh<T>(rows: seq<Row<T>>, cs: seq<Candidate<T>>)
    requires forall i :: 0 <= i < |cs| ==> IsTidy(cs[i].name) && cs[i].data.Some? && cs[i].name !in Names(rows)
    requires forall i, j :: 0 <= i < j < |cs| ==> cs[i].name != cs[j].name
    ensures var after := AddAll(rows, cs).rows;
            && |after| == |rows| + |cs|
            && forall i :: 0 <= i < |cs| ==> after[|rows| + i] == Row(cs[i].name, cs[i].data.value)
    ensures Names(AddAll(rows, cs).rows) == Names(rows) + set i | 0 <= i < |cs| :: cs[i].name
  {
    hide AddOne, Strip, Names;
    if cs != [] {
      var init := cs[..|cs| - 1];
      AllFresh(rows, init);
      AddOneCases(AddAll(rows, init), cs[|cs| - 1]);
      assert forall i :: 0 <= i < |init| ==> init[i] == cs[i];
    }
  }

  /** The presets that get linked are those of the list that can be seen. */
  lemma {:induction false} LinkedNames(names: seq<string>, seen: seq<Row<PresetData>>, s: Store)
    requires seen <= s.presets
    ensures PresetNames(s, LinkedPresets(names, seen)) == (set n | n in names) * Names(seen)
  {
    hide Names;
    if names != [] {
      var init, last := names[..|names| - 1], names[|names| - 1];
      LinkedNames(init, seen, s);
      var k := IndexOf(seen, last);
      assert names == init + [last];
      assert (set n | n in names) == (set n | n in init) + {last};
      if k.Some? {
        NamesMembers(seen);
        assert s.presets[k.value] == seen[k.value];
        assert PresetNames(s, LinkedPresets(names, seen)) == PresetNames(s, LinkedPresets(init, seen)) + {last};
      } else {
        assert LinkedPresets(names, seen) == LinkedPresets(init, seen);
        NotNamed(seen, last);
      }
    }
  }

  lemma NotNamed<T>(rows: seq<Row<T>>, name: string)
    requires IndexOf(rows, name).None?
    ensures name !in Names(rows)
  {
  }

  // ------------------------------------------------------------------ export, then import

  /** A connection as it arrives: its credential is linked if one of that name exists there. */
  function Relinked(e: ConnectionEntry, credentials: seq<string>): ConnectionEntry {
    e.(credentialName :=
         if e.credentialName.Some? && e.credentialName.value in credentials then e.credentialName else None)
  }

  lemma AscendingDistinct(names: seq<string>)
    requires Ascending(names)
    ensures forall i, j :: 0 <= i < j < |names| ==> names[i] != names[j]
  {
  }

  lemma CompletedFully(given: Fields, known: set<string>, filled: Fields, defaults: Fields)
    requires given.Keys == known && filled.Keys <= known && defaults.Keys <= known
    ensures Completed(given, known, filled, defaults) == given
  {
    assert (map k | k in given && k in known :: given[k]) == given;
  }

  /** The column defaults are those of existing columns. */
  predicate IsSchema(schema: Schema) {
    schema.connection.Keys <= CONNECTION_FIELDS && schema.job.Keys <= JOB_FIELDS
  }

  lemma FilledFields(schema: Schema)
    ensures "type" in CONNECTION_FIELDS && "base_path" in CONNECTION_FIELDS && "extra_opts" in CONNECTION_FIELDS
    ensures "filters" in JOB_FIELDS
  {
  }

  /** The setting of the round trip: an export of one sound and tidy installation, and a newly set up one. */
  ghost predicate IsRoundTrip(s: Store, t: Store, doc: Document, schema: Schema) {
    Sound(s) && Sound(t) && Tidy(s) && IsExport(s, doc) && IsSeeded(t, s) && IsSchema(schema)
  }

  lemma ConnectionsDiffer(s: Store, doc: Document)
    requires Sound(s) && IsExport(s, doc)
    ensures forall i, j :: 0 <= i < j < |doc.connections| ==> doc.connections[i].name != doc.connections[j].name
  {
    hide Sound;
    var names := ConnectionEntryNames(doc.connections);
    AscendingDistinct(names);
    forall i, j | 0 <= i < j < |doc.connections|
      ensures doc.connections[i].name != doc.connections[j].name
    {
      assert names[i] != names[j];
    }
  }

  lemma ConnectionCompleted(e: ConnectionEntry, schema: Schema)
    requires e.fields.Keys == CONNECTION_FIELDS && IsSchema(schema)
    ensures Completed(e.fields, CONNECTION_FIELDS, map["base_path" := "", "extra_opts" := "{}"], schema.connection)
            == e.fields
  {
    hide Completed;
    FilledFields(schema);
    CompletedFully(e.fields, CONNECTION_FIELDS, map["base_path" := "", "extra_opts" := "{}"], schema.connection);
  }

  lemma ConnectionArrives(e: ConnectionEntry, credentials: seq<string>, schema: Schema)
    requires e.fields.Keys == CONNECTION_FIELDS && IsSchema(schema)
    requires e.credentialName.Some? ==> e.credentialName.value != ""
    ensures var c := ConnectionCandidate(e, credentials, schema);
            && c.name == e.name && c.data.Some? && c.data.value.fields == e.fields
            && Arrived(e, c.data.value.credential, credentials)
  {
    hide Completed, CONNECTION_FIELDS;
    ConnectionCompleted(e, schema);
  }

  predicate Arrived(e: ConnectionEntry, credential: Option<nat>, credentials: seq<string>) {
    match credential
    case Some(c) => c < |credentials| && e.credentialName == Some(credentials[c])
    case None => e.credentialName.None? || e.credentialName.value !in credentials
  }

  lemma RoundTripBasics(s: Store, t: Store, doc: Document, schema: Schema)
    requires IsRoundTrip(s, t, doc, schema)
    ensures t.connections == [] && Names(t.connections) == {} && IsSchema(schema)
    ensures forall i, j :: 0 <= i < j < |doc.connections| ==> doc.connections[i].name != doc.connections[j].name
  {
    ConnectionsDiffer(s, doc);
    NoNames(t.connections);
  }

  lemma ExportedConnection(s: Store, t: Store, doc: Document, schema: Schema, i: nat)
    requires IsRoundTrip(s, t, doc, schema) && i < |doc.connections|
    ensures var e := doc.connections[i];
            && e in ConnectionSet(s) && e.fields.Keys == CONNECTION_FIELDS && HasType(e.fields) && IsTidy(e.name)
            && (e.credentialName.Some? ==> e.credentialName.value != "")
  {
    hide ConnectionSet, JobSet, PresetSet;
    FilledFields(schema);
    assert doc.connections[i] in set e | e in doc.connections;
  }

  /** The i-th connection of the document arrives as the i-th of the new installation. */
  lemma ConnectionsArrive(s: Store, t: Store, doc: Document, schema: Schema)
    requires IsRoundTrip(s, t, doc, schema)
    ensures var rows := ConnectionTally(t, doc, schema).rows;
            && |rows| == |doc.connections|
            && Names(rows) == (set i | 0 <= i < |doc.connections| :: doc.connections[i].name)
            && forall i :: 0 <= i < |rows| ==>
                 && rows[i].name == doc.connections[i].name && rows[i].data.fields == doc.connections[i].fields
                 && Arrived(doc.connections[i], rows[i].data.credential, t.credentials)
  {
    hide AddAll, Names, ConnectionCandidate, Arrived, IsTidy, IsRoundTrip;
    var es := doc.connections;
    var cs := ConnectionCandidates(es, t.credentials, schema);
    RoundTripBasics(s, t, doc, schema);
    forall i | 0 <= i < |es|
      ensures cs[i].name == es[i].name && IsTidy(es[i].name) && cs[i].data.Some?
      ensures cs[i].data.value.fields == es[i].fields && Arrived(es[i], cs[i].data.value.credential, t.credentials)
    {
      ExportedConnection(s, t, doc, schema, i);
      ConnectionArrives(es[i], t.credentials, schema);
    }
    AllFresh(t.connections, cs);
    assert (set i | 0 <= i < |cs| :: cs[i].name) == set i | 0 <= i < |es| :: es[i].name;
  }

  lemma NoNames<T>(rows: seq<Row<T>>)
    ensures rows == [] ==> Names(rows) == {}
  {
  }

  /** Nothing keeps the document of a tidy installation from being imported. */
  lemma RoundTripFlushes(s: Store, t: Store, doc: Document, schema: Schema)
    requires IsRoundTrip(s, t, doc, schema)
    ensures doc.version == FORMAT_VERSION && !Aborts(t, doc, schema)
  {
    hide AddAll, Names, HasType, IsRoundTrip, ConnectionTally, Arrived;
    assert doc.version == FORMAT_VERSION by { RoundTripVersion(s, t, doc, schema); }
    ConnectionsArrive(s, t, doc, schema);
    forall i | 0 <= i < |doc.connections|
      ensures HasType(doc.connections[i].fields)
    {
      ExportedConnection(s, t, doc, schema, i);
    }
  }

  lemma RoundTripVersion(s: Store, t: Store, doc: Document, schema: Schema)
    requires IsRoundTrip(s, t, doc, schema)
    ensures doc.version == FORMAT_VERSION
  {
  }

  /** Connections survive the round trip whole, but for credentials the new installation does not have. */
  lemma ConnectionsRoundTrip(s: Store, t: Store, doc: Document, schema: Schema, autoflush: bool, valid: Fields -> bool)
    requires IsRoundTrip(s, t, doc, schema)
    ensures var after := Imported(t, doc, schema, autoflush, valid);
            && Sound(after)
            && ConnectionSet(after) == set e | e in ConnectionSet(s) :: Relinked(e, t.credentials)
  {
    hide *;
    ConnectionViewsArrive(s, t, doc, schema, autoflush, valid);
    ExportedConnections(s, t, doc, schema);
    RelinkedSet(Imported(t, doc, schema, autoflush, valid), doc.connections, ConnectionSet(s), t.credentials);
  }

  lemma ExportedConnections(s: Store, t: Store, doc: Document, schema: Schema)
    requires IsRoundTrip(s, t, doc, schema)
    ensures Sound(s) && ConnectionSet(s) == set e | e in doc.connections
  {
  }

  lemma ConnectionViewsArrive(s: Store, t: Store, doc: Document, schema: Schema, autoflush: bool, valid: Fields -> bool)
    requires IsRoundTrip(s, t, doc, schema)
    ensures var after := Imported(t, doc, schema, autoflush, valid);
            && Sound(after) && |after.connections| == |doc.connections|
            && forall i :: 0 <= i < |after.connections| ==>
                 ConnectionEntryFor(after, i) == Relinked(doc.connections[i], t.credentials)
  {
    hide AddAll, Names, IsRoundTrip, ConnectionTally, PresetTally, JobTally, Aborts;
    RoundTripFlushes(s, t, doc, schema);
    assert Sound(t) by { RoundTripSound(s, t, doc, schema); }
    ImportKeepsSound(t, doc, schema, autoflush, valid);
    ConnectionsArrive(s, t, doc, schema);
  }

  lemma RoundTripSound(s: Store, t: Store, doc: Document, schema: Schema)
    requires IsRoundTrip(s, t, doc, schema)
    ensures Sound(s) && Sound(t)
  {
  }

  lemma RelinkedSet(after: Store, es: seq<ConnectionEntry>, entries: set<ConnectionEntry>, credentials: seq<string>)
    requires Sound(after) && |after.connections| == |es| && entries == set e | e in es
    requires forall i :: 0 <= i < |after.connections| ==> ConnectionEntryFor(after, i) == Relinked(es[i], credentials)
    ensures ConnectionSet(after) == set e | e in entries :: Relinked(e, credentials)
  {
    hide Sound, Relinked, ConnectionEntryFor;
    forall e | e in entries
      ensures Relinked(e, credentials) in ConnectionSet(after)
    {
      var i :| 0 <= i < |es| && es[i] == e;
      assert ConnectionEntryFor(after, i) == Relinked(e, credentials);
    }
    forall i | 0 <= i < |after.connections|
      ensures ConnectionEntryFor(after, i) in set e | e in entries :: Relinked(e, credentials)
    {
      assert es[i] in entries;
    }
  }

  // ------------------------------------------------------------------ presets

  lemma PresetsDiffer(s: Store, doc: Document)
    requires Sound(s) && IsExport(s, doc)
    ensures forall i, j :: 0 <= i < j < |doc.presets| ==> doc.presets[i].name != doc.presets[j].name
  {
    hide Sound;
    var names := PresetEntryNames(doc.presets);
    AscendingDistinct(names);
    forall i, j | 0 <= i < j < |doc.presets|
      ensures doc.presets[i].name != doc.presets[j].name
    {
      assert names[i] != names[j];
    }
  }

  /** A preset of the document has none of the seeded names. */
  lemma CustomIsNew(s: Store, t: Store, e: PresetEntry)
    requires Distinct(s.presets) && IsSeeded(t, s) && e in PresetSet(s, false)
    ensures e.name !in Names(t.presets)
  {
    forall k | 0 <= k < |t.presets|
      ensures t.presets[k].name != e.name
    {
      var row := t.presets[k];
      assert row in t.presets;
      AllBuiltin(t);
      assert PresetEntry(row.name, row.data.rules) in PresetSet(s, true);
      var r :| r in s.presets && r.data.builtin && r.name == row.name;
      var q :| q in s.presets && !q.data.builtin && q.name == e.name;
      var i :| 0 <= i < |s.presets| && s.presets[i] == r;
      var j :| 0 <= j < |s.presets| && s.presets[j] == q;
      assert i < j || j < i;
    }
  }

  /** Presets survive the round trip whole. */
  lemma PresetsRoundTrip(s: Store, t: Store, doc: Document, schema: Schema)
    requires IsRoundTrip(s, t, doc, schema)
    ensures var rows := PresetTally(t, doc).rows; var after := t.(presets := rows);
            && t.presets <= rows
            && PresetSet(after, true) == PresetSet(s, true) && PresetSet(after, false) == PresetSet(s, false)
            && Names(rows) == Names(s.presets)
  {
    hide AddAll, Names, CONNECTION_FIELDS, JOB_FIELDS, IsTidy, IsSchema;
    var es := doc.presets;
    var cs := PresetCandidates(es);
    PresetsDiffer(s, doc);
    forall i | 0 <= i < |es|
      ensures IsTidy(cs[i].name) && cs[i].name !in Names(t.presets) && es[i] in PresetSet(s, false)
    {
      assert es[i] in set e | e in es;
      CustomIsNew(s, t, es[i]);
    }
    AllFresh(t.presets, cs);
    AddAllExtends(t.presets, cs);
    AppendedPresets(t, PresetTally(t, doc).rows, es);
    PresetNamesAre(s);
    PresetNamesAre(t.(presets := PresetTally(t, doc).rows));
  }

  lemma PresetNamesAre(s: Store)
    ensures Names(s.presets) == set e | e in PresetSet(s, true) + PresetSet(s, false) :: e.name
  {
    forall k | 0 <= k < |s.presets|
      ensures s.presets[k].name in set e | e in PresetSet(s, true) + PresetSet(s, false) :: e.name
    {
      var r := s.presets[k];
      assert PresetEntry(r.name, r.data.rules) in PresetSet(s, r.data.builtin);
    }
  }

  lemma AppendedPresets(t: Store, rows: seq<Row<PresetData>>, es: seq<PresetEntry>)
    requires |rows| == |t.presets| + |es| && t.presets <= rows && PresetSet(t, false) == {}
    requires forall i :: 0 <= i < |es| ==> rows[|t.presets| + i] == Row(es[i].name, PresetData(false, es[i].rules))
    ensures var after := t.(presets := rows);
            PresetSet(after, true) == PresetSet(t, true) && PresetSet(after, false) == set e | e in es
  {
    var after := t.(presets := rows);
    var added := rows[|t.presets|..];
    assert rows == t.presets + added;
    forall r | r in added
      ensures !r.data.builtin && PresetEntry(r.name, r.data.rules) in es
    {
      var i :| 0 <= i < |added| && added[i] == r;
      assert r == rows[|t.presets| + i] == Row(es[i].name, PresetData(false, es[i].rules));
    }
    forall e | e in es
      ensures e in PresetSet(after, false)
    {
      var i :| 0 <= i < |es| && es[i] == e;
      assert rows[|t.presets| + i] in rows;
    }
    AllBuiltin(t);
  }

  lemma AllBuiltin(t: Store)
    requires PresetSet(t, false) == {}
    ensures forall r :: r in t.presets ==> r.data.builtin
  {
    forall r | r in t.presets
      ensures r.data.builtin || PresetEntry(r.name, r.data.rules) in PresetSet(t, false)
    {
    }
  }

  // ------------------------------------------------------------------ jobs

  lemma JobsDiffer(s: Store, doc: Document)
    requires Sound(s) && IsExport(s, doc)
    ensures forall i, j :: 0 <= i < j < |doc.jobs| ==> doc.jobs[i].name != doc.jobs[j].name
  {
    hide Sound;
    var names := JobEntryNames(doc.jobs);
    AscendingDistinct(names);
    forall i, j | 0 <= i < j < |doc.jobs|
      ensures doc.jobs[i].name != doc.jobs[j].name
    {
      assert names[i] != names[j];
    }
  }

  /** Both connections of an exported job are in the same document. */
  lemma EndpointsAreExported(s: Store, doc: Document, e: JobEntry)
    requires Sound(s) && IsExport(s, doc) && e in doc.jobs
    ensures var names := set i | 0 <= i < |doc.connections| :: doc.connections[i].name;
            e.source in names && e.dest in names
  {
    assert ViewOf(e) in JobSet(s);
    var k :| 0 <= k < |s.jobs| && JobViewFor(s, k) == ViewOf(e);
    assert s.jobs[k] in s.jobs;
    ConnectionIsExported(s, doc, s.jobs[k].data.source);
    ConnectionIsExported(s, doc, s.jobs[k].data.dest);
  }

  lemma ConnectionIsExported(s: Store, doc: Document, k: nat)
    requires Sound(s) && IsExport(s, doc) && k < |s.connections|
    ensures s.connections[k].name in set i | 0 <= i < |doc.connections| :: doc.connections[i].name
  {
    hide Sound;
    var e := ConnectionEntryFor(s, k);
    assert e in ConnectionSet(s);
    assert e in set x | x in doc.connections;
    var i :| 0 <= i < |doc.connections| && doc.connections[i] == e;
  }

  lemma JobCompleted(e: JobEntry, schema: Schema)
    requires e.fields.Keys == JOB_FIELDS && IsSchema(schema)
    ensures Completed(e.fields, JOB_FIELDS, map["filters" := "{}"], schema.job) == e.fields
  {
    hide Completed;
    FilledFields(schema);
    CompletedFully(e.fields, JOB_FIELDS, map["filters" := "{}"], schema.job);
  }

  /** A job as it arrives: linked to what its presets' names find. */
  function Relisted(v: JobView, seen: set<string>): JobView { v.(presets := v.presets * seen) }

  lemma JobArrives(e: JobEntry, connections: seq<Row<ConnectionData>>, seen: seq<Row<PresetData>>, schema: Schema)
    requires e.fields.Keys == JOB_FIELDS && IsSchema(schema) && e.source in Names(connections)
             && e.dest in Names(connections)
    ensures var c := JobCandidate(e, connections, seen, schema);
            && c.name == e.name && c.data.Some? && c.data.value.fields == e.fields
            && c.data.value.source < |connections| && connections[c.data.value.source].name == e.source
            && c.data.value.dest < |connections| && connections[c.data.value.dest].name == e.dest
            && c.data.value.presets == LinkedPresets(e.presets, seen)
  {
    hide Completed, JOB_FIELDS, LinkedPresets, PresetWarnings;
    JobCompleted(e, schema);
  }

  /** The i-th job of the document arrives as the i-th of the new installation. */
  lemma JobsArrive(s: Store, t: Store, doc: Document, schema: Schema, autoflush: bool)
    requires IsRoundTrip(s, t, doc, schema)
    ensures var rows := JobTally(t, doc, schema, autoflush).rows;
            var connections := ConnectionTally(t, doc, schema).rows;
            var seen := Visible(t.presets, PresetTally(t, doc).rows, autoflush);
            && |rows| == |doc.jobs|
            && forall i :: 0 <= i < |rows| ==>
                 && rows[i].name == doc.jobs[i].name && rows[i].data.fields == doc.jobs[i].fields
                 && rows[i].data.source < |connections| && connections[rows[i].data.source].name == doc.jobs[i].source
                 && rows[i].data.dest < |connections| && connections[rows[i].data.dest].name == doc.jobs[i].dest
                 && rows[i].data.presets == LinkedPresets(doc.jobs[i].presets, seen)
  {
    hide AddAll, Names, Sound, CONNECTION_FIELDS, JOB_FIELDS, JobCandidate, IsTidy, ConnectionTally, PresetTally,
      LinkedPresets;
    var es := doc.jobs;
    var connections := ConnectionTally(t, doc, schema).rows;
    var cs := JobCandidates(es, connections, Visible(t.presets, PresetTally(t, doc).rows, autoflush), schema);
    ConnectionsArrive(s, t, doc, schema);
    JobsDiffer(s, doc);
    NoNames(t.jobs);
    forall i | 0 <= i < |es|
      ensures cs[i].name == es[i].name && IsTidy(es[i].name) && cs[i].data.Some?
      ensures var d := cs[i].data.value;
              && d.fields == es[i].fields
              && d.source < |connections| && connections[d.source].name == es[i].source
              && d.dest < |connections| && connections[d.dest].name == es[i].dest
              && d.presets == LinkedPresets(es[i].presets, Visible(t.presets, PresetTally(t, doc).rows, autoflush))
    {
      assert ViewOf(es[i]) in set e | e in es :: ViewOf(e);
      EndpointsAreExported(s, doc, es[i]);
      JobArrives(es[i], connections, Visible(t.presets, PresetTally(t, doc).rows, autoflush), schema);
    }
    AllFresh(t.jobs, cs);
  }

  /** Jobs survive the round trip whole, but for the presets the import could not see. */
  lemma JobsRoundTrip(s: Store, t: Store, doc: Document, schema: Schema, autoflush: bool, valid: Fields -> bool)
    requires IsRoundTrip(s, t, doc, schema)
    ensures var after := Imported(t, doc, schema, autoflush, valid);
            var seen := Names(Visible(t.presets, PresetTally(t, doc).rows, autoflush));
            Sound(after) && JobSet(after) == set v | v in JobSet(s) :: Relisted(v, seen)
  {
    hide *;
    JobViewsArrive(s, t, doc, schema, autoflush, valid);
    ExportedJobs(s, t, doc, schema);
    RelistedSet(Imported(t, doc, schema, autoflush, valid), doc.jobs, JobSet(s),
                Names(Visible(t.presets, PresetTally(t, doc).rows, autoflush)));
  }

  lemma ExportedJobs(s: Store, t: Store, doc: Document, schema: Schema)
    requires IsRoundTrip(s, t, doc, schema)
    ensures Sound(s) && JobSet(s) == set e | e in doc.jobs :: ViewOf(e)
  {
  }

  lemma RelistedSet(after: Store, es: seq<JobEntry>, views: set<JobView>, seen: set<string>)
    requires Sound(after) && |after.jobs| == |es| && views == set e | e in es :: ViewOf(e)
    requires forall i :: 0 <= i < |after.jobs| ==> JobViewFor(after, i) == Relisted(ViewOf(es[i]), seen)
    ensures JobSet(after) == set v | v in views :: Relisted(v, seen)
  {
    hide Sound, ViewOf, Relisted, JobViewFor;
    forall v | v in views
      ensures Relisted(v, seen) in JobSet(after)
    {
      var i :| 0 <= i < |es| && ViewOf(es[i]) == v;
      assert JobViewFor(after, i) == Relisted(v, seen);
    }
    forall i | 0 <= i < |after.jobs|
      ensures JobViewFor(after, i) in set v | v in views :: Relisted(v, seen)
    {
      assert ViewOf(es[i]) in views;
    }
  }

  lemma JobViewsArrive(s: Store, t: Store, doc: Document, schema: Schema, autoflush: bool, valid: Fields -> bool)
    requires IsRoundTrip(s, t, doc, schema)
    ensures var after := Imported(t, doc, schema, autoflush, valid);
            var seen := Names(Visible(t.presets, PresetTally(t, doc).rows, autoflush));
            && Sound(after) && |after.jobs| == |doc.jobs|
            && forall i :: 0 <= i < |after.jobs| ==> JobViewFor(after, i) == Relisted(ViewOf(doc.jobs[i]), seen)
  {
    hide AddAll, Names, CONNECTION_FIELDS, JOB_FIELDS, Tidy, IsSeeded, IsSchema, ConnectionTally, PresetTally,
      JobTally, LinkedPresets,
         IsExport, Aborts;
    var after := Imported(t, doc, schema, autoflush, valid);
    var visible := Visible(t.presets, after.presets, autoflush);
    RoundTripFlushes(s, t, doc, schema);
    ImportKeepsSound(t, doc, schema, autoflush, valid);
    JobsArrive(s, t, doc, schema, autoflush);
    PresetsRoundTrip(s, t, doc, schema);
    forall i | 0 <= i < |doc.jobs|
      ensures JobViewFor(after, i) == Relisted(ViewOf(doc.jobs[i]), Names(visible))
    {
      LinkedNames(doc.jobs[i].presets, visible, after);
    }
  }

  // ------------------------------------------------------------------ the round trip as a whole

  lemma LinkedPresetsExist(s: Store, v: JobView)
    requires Sound(s) && v in JobSet(s)
    ensures v.presets <= Names(s.presets)
  {
    hide Sound;
    var k :| 0 <= k < |s.jobs| && JobViewFor(s, k) == v;
    forall n | n in v.presets
      ensures n in Names(s.presets)
    {
      assert n in PresetNames(s, s.jobs[k].data.presets);
    }
  }

  /** All preferences but those that belong to the deployment are the same. */
  predicate Travelled(sent: Fields, got: Fields) {
    forall key :: key in sent && key !in PREFERENCE_EXCLUDES ==> key in got && got[key] == sent[key]
  }

  /** Preferences arrive exactly when they are valid together with those that stay, or were the same already. */
  lemma PreferencesRoundTrip(s: Store, t: Store, doc: Document, schema: Schema, autoflush: bool, valid: Fields -> bool)
    requires IsRoundTrip(s, t, doc, schema)
    ensures var after := Imported(t, doc, schema, autoflush, valid).preferences;
            && (forall m :: IsOverlay(m, t.preferences, s.preferences) ==>
                  (Travelled(s.preferences, after) <==> valid(m) || Travelled(s.preferences, t.preferences)))
            && (forall key :: key in PREFERENCE_EXCLUDES ==>
                  (key in after <==> key in t.preferences)
                  && (key in t.preferences ==> after[key] == t.preferences[key]))
  {
    hide Aborts, IsRoundTrip, PREFERENCE_EXCLUDES, Imported;
    RoundTripFlushes(s, t, doc, schema);
    RoundTripPreferences(s, t, doc, schema);
    ImportIsAdditive(t, doc, schema, autoflush, valid);
    forall m | IsOverlay(m, t.preferences, s.preferences)
      ensures Travelled(s.preferences, Imported(t, doc, schema, autoflush, valid).preferences)
              <==> valid(m) || Travelled(s.preferences, t.preferences)
    {
      assert IsOverlay(m, t.preferences, doc.preferences);
      PreferencesExactly(t, doc, schema, autoflush, valid, m);
    }
  }

  lemma RoundTripPreferences(s: Store, t: Store, doc: Document, schema: Schema)
    requires IsRoundTrip(s, t, doc, schema)
    ensures doc.preferences == s.preferences - PREFERENCE_EXCLUDES
  {
  }

  /** Exporting an installation and importing the document into a newly set up one reproduces its presets. It
      reproduces its connections exactly when every credential they use exists there; its jobs exactly when the
      session flushes before it queries, or no job uses a preset that is not built in; and its preferences, save those
      of the deployment, exactly when they are valid there or were the same already. */
  lemma RoundTripExactly(s: Store, t: Store, doc: Document, schema: Schema, autoflush: bool, valid: Fields -> bool)
    requires IsRoundTrip(s, t, doc, schema)
    ensures var after := Imported(t, doc, schema, autoflush, valid);
            && Sound(after)
            && (forall builtin :: PresetSet(after, builtin) == PresetSet(s, builtin))
            && (ConnectionSet(after) == ConnectionSet(s)
                <==> forall e ::
                       e in ConnectionSet(s) && e.credentialName.Some? ==> e.credentialName.value in t.credentials)
            && (JobSet(after) == JobSet(s)
                <==> autoflush || forall v :: v in JobSet(s) ==> v.presets <= Names(t.presets))
            && (forall m :: IsOverlay(m, t.preferences, s.preferences) ==>
                  (Travelled(s.preferences, after.preferences)
                   <==> valid(m) || Travelled(s.preferences, t.preferences)))
            && (forall key :: key in PREFERENCE_EXCLUDES ==>
                  (key in after.preferences <==> key in t.preferences)
                  && (key in t.preferences ==> after.preferences[key] == t.preferences[key]))
  {
    hide AddAll, Names, CONNECTION_FIELDS, JOB_FIELDS, Tidy, IsSeeded, IsSchema, ConnectionTally, JobTally,
      IsExport, Sound,
         ConnectionSet, JobSet, PresetTally, Aborts;
    var after := Imported(t, doc, schema, autoflush, valid);
    RoundTripFlushes(s, t, doc, schema);
    ConnectionsRoundTrip(s, t, doc, schema, autoflush, valid);
    PresetsRoundTrip(s, t, doc, schema);
    SamePresets(after, t.(presets := after.presets));
    JobsRoundTrip(s, t, doc, schema, autoflush, valid);
    PreferencesRoundTrip(s, t, doc, schema, autoflush, valid);
    ImageIsSame(ConnectionSet(s), ConnectionSet(after), e => Relinked(e, t.credentials));
    var seen := Names(Visible(t.presets, after.presets, autoflush));
    ImageIsSame(JobSet(s), JobSet(after), v => Relisted(v, seen));
    forall v | v in JobSet(s)
      ensures Relisted(v, seen) == v <==> v.presets <= seen
      ensures v.presets <= Names(s.presets)
    {
      LinkedPresetsExist(s, v);
      assert v.presets * seen == v.presets <==> v.presets <= seen;
    }
  }

  lemma SamePresets(a: Store, b: Store)
    requires a.presets == b.presets
    ensures forall builtin :: PresetSet(a, builtin) == PresetSet(b, builtin)
  {
  }

  /** A map that forgets, applied to every element, gives the same set exactly when it forgets nothing. */
  lemma ImageIsSame<T(!new)>(items: set<T>, image: set<T>, f: T -> T)
    requires image == set x | x in items :: f(x)
    requires forall x :: x in items ==> f(f(x)) == f(x)
    ensures image == items <==> forall x :: x in items ==> f(x) == x
  {
    if image == items {
      forall x | x in items
        ensures f(x) == x
      {
        assert x in image;
        var y :| y in items && f(y) == x;
      }
    }
  }

  /** A local connection and a copying job, column by column, as an export writes them. */
  const LOCAL_COLUMNS: Fields := map["type" := "local", "host" := "null", "port" := "null", "share" := "null",
    "base_path" := "/data", "username" := "null", "extra_opts" := "{}", "rclone_mode" := "null",
    "rclone_remote_name" := "null", "rclone_backend_type" := "null", "sentinel_file" := "null"]

  const JOB_COLUMNS: Fields := map["enabled" := "true", "source_path" := "a", "dest_path" := "b", "engine" := "rclone",
    "direction" := "source_to_dest", "delete_mode" := "none", "archive_base" := "null",
    "archive_layout" := "timestamped_dir", "archive_retention_days" := "null", "filters" := "{}",
    "compare_mode" := "mtime_size", "modify_window" := "1s", "transfers" := "null", "checkers" := "null",
    "bwlimit" := "null", "max_delete_pct" := "20", "conflict_resolve" := "newer", "check_access" := "false",
    "schedule_cron" := "null", "timezone" := "UTC", "timeout_seconds" := "null", "notify_on" := "failure"]

  lemma ExampleColumns()
    ensures LOCAL_COLUMNS.Keys == CONNECTION_FIELDS && HasType(LOCAL_COLUMNS) && JOB_COLUMNS.Keys == JOB_FIELDS
  {
  }

  /** The case the production session meets: a job that uses a preset from the same file arrives without it, although
      the preset itself arrives. */
  lemma CustomPresetIsLost(schema: Schema, valid: Fields -> bool)
    requires IsSchema(schema)
    ensures var doc := Document(FORMAT_VERSION, [ConnectionEntry("nas", LOCAL_COLUMNS, None)],
                                [JobEntry("copy", JOB_COLUMNS, "nas", "nas", ["mine"])], [PresetEntry("mine", "{}")],
                                map[]);
            var lost := Imported(Store([], [], [], [], map[]), doc, schema, false, valid);
            var kept := Imported(Store([], [], [], [], map[]), doc, schema, true, valid);
            && |lost.presets| == |lost.jobs| == 1 && lost.jobs[0].data.presets == {}
            && |kept.presets| == |kept.jobs| == 1 && kept.jobs[0].data.presets == {0}
            && lost.jobs[0].data.fields == kept.jobs[0].data.fields == JOB_COLUMNS
  {
    hide AddAll, Strip, Completed, LOCAL_COLUMNS, JOB_COLUMNS, CONNECTION_FIELDS, JOB_FIELDS, HasType;
    ExampleColumns();
    var c, j := ConnectionEntry("nas", LOCAL_COLUMNS, None), JobEntry("copy", JOB_COLUMNS, "nas", "nas", ["mine"]);
    var p := PresetEntry("mine", "{}");
    TidyNames();
    OneFresh([], PresetCandidate(p));
    assert PresetCandidates([p]) == [PresetCandidate(p)];
    ConnectionArrives(c, [], schema);
    OneFresh([], ConnectionCandidate(c, [], schema));
    assert ConnectionCandidates([c], [], schema) == [ConnectionCandidate(c, [], schema)];
    var connections := AddAll([], [ConnectionCandidate(c, [], schema)]).rows;
    var presets := AddAll([], [PresetCandidate(p)]).rows;
    OneJob(j, connections, [], schema);
    OneJob(j, connections, presets, schema);
    LinkOne("mine", []);
    LinkOne("mine", presets);
  }

  lemma TidyNames()
    ensures IsTidy("nas") && IsTidy("copy") && IsTidy("mine")
  {
    hide Strip;
    StripNothing("nas", SPACES);
    StripNothing("copy", SPACES);
    StripNothing("mine", SPACES);
  }

  lemma OneJob(j: JobEntry, connections: seq<Row<ConnectionData>>, presets: seq<Row<PresetData>>, schema: Schema)
    requires j.fields.Keys == JOB_FIELDS && IsSchema(schema) && IsTidy(j.name)
    requires |connections| == 1 && connections[0].name == j.source == j.dest
    ensures var rows := AddAll([], JobCandidates([j], connections, presets, schema)).rows;
            && |rows| == 1 && rows[0].name == j.name
            && rows[0].data.fields == j.fields && rows[0].data.presets == LinkedPresets(j.presets, presets)
  {
    hide AddAll, LinkedPresets, PresetWarnings, Completed, IsTidy, JOB_FIELDS;
    NamesMembers(connections);
    JobArrives(j, connections, presets, schema);
    OneFresh([], JobCandidate(j, connections, presets, schema));
    assert JobCandidates([j], connections, presets, schema) == [JobCandidate(j, connections, presets, schema)];
  }

  lemma OneFresh<T>(rows: seq<Row<T>>, c: Candidate<T>)
    requires rows == [] && IsTidy(c.name) && c.data.Some?
    ensures AddAll(rows, [c]).rows == [Row(c.name, c.data.value)]
  {
    hide Strip;
    assert [c][..0] == [];
    assert AddAll(rows, []) == Tally(rows, 0, 0, 0, []);
    assert rows + [Row(c.name, c.data.value)] == [Row(c.name, c.data.value)];
  }

  lemma LinkOne(name: string, presets: seq<Row<PresetData>>)
    requires |presets| <= 1
    ensures LinkedPresets([name], presets) == if presets != [] && presets[0].name == name then {0} else {}
  {
    assert [name][..0] == [];
    assert LinkedPresets([], presets) == {};
  }
}
/** What a live one-way run did, counted from its log lines as they arrive
    (`_absorb`, `_consume`, `_record` in app/jobs/runner.py). Speeds are exact reals. */
module LiveLog {
  import opened Wrappers
  import opened Text
  import opened Planning
  import RunTable

  const MAX_PERSISTED_CHANGES := 5000

  /** One file of a progress report. */
  datatype Progress = Progress(name: string, speed: real)

  /** A progress report; `bytes` is absent when the report carries no whole number. */
  datatype Stats = Stats(bytes: Option<int>, transferring: seq<Progress>)

  /** A log line: prose, a progress report, or a decoded record. `obj` is absent when it is no string. */
  datatype Line =
    | Prose
    | Report(stats: Stats)
    | Message(obj: Option<string>, msg: string, size: Option<int>, isError: bool)

  /** The running totals of a log (app/engines/parsers.py, class DryRunLog). */
  datatype Log = Log(operations: seq<Operation>, errors: seq<string>, stats: Option<Stats>, maxDeleteHit: bool,
                     peakSpeeds: map<string, real>)

  const EmptyLog := Log([], [], None, false, map[])

  predicate Named(obj: Option<string>) { obj.Some? && obj.value != "" }

  /** The operation a message reports, if any. */
  function OperationOf(line: Line): Option<Operation>
    requires line.Message?
  {
    var size := if line.size.Some? && line.size.value >= 0 then line.size else None;
    if !Named(line.obj) then None
    else if Contains(line.msg, "Copied") then
      Some(Operation(line.obj.value, SKIPPED_COPY, size, Some(!Contains(line.msg, "(new)"))))
    else if StartsWith(line.msg, "Deleted") then Some(Operation(line.obj.value, SKIPPED_DELETE, size, None))
    else if StartsWith(line.msg, "Moved into backup dir") then
      Some(Operation(line.obj.value, SKIPPED_ARCHIVE, size, None))
    else None
  }

  function Detail(line: Line): string
    requires line.Message?
  {
    Strip(if Named(line.obj) then line.obj.value + ": " + line.msg else line.msg, SPACES)
  }

  /** The fastest speed seen of each file, after one more report. */
  function Peaks(peaks: map<string, real>, files: seq<Progress>): map<string, real> {
    if files == [] then peaks
    else
      var before, p := Peaks(peaks, files[..|files| - 1]), files[|files| - 1];
      if p.name == "" || p.speed <= 0.0 then before
      else before[p.name := if p.name in before && before[p.name] >= p.speed then before[p.name] else p.speed]
  }

  function Absorbed(log: Log, line: Line): Log {
    match line
    case Prose => log
    case Report(stats) => log.(stats := Some(stats), peakSpeeds := Peaks(log.peakSpeeds, stats.transferring))
    case Message(obj, msg, size, isError) =>
      var op := OperationOf(line);
      log.(operations := if op.Some? then log.operations + [op.value] else log.operations,
           maxDeleteHit := log.maxDeleteHit || (isError && Contains(msg, "max-delete threshold reached")),
           errors := if isError then log.errors + [Detail(line)] else log.errors)
  }

  function AbsorbedAll(lines: seq<Line>): Log {
    if lines == [] then EmptyLog else Absorbed(AbsorbedAll(lines[..|lines| - 1]), lines[|lines| - 1])
  }

  class DryRunLog {
    var operations: seq<Operation>
    var errors: seq<string>
    var stats: Option<Stats>
    var maxDeleteHit: bool
    var peakSpeeds: map<string, real>

    ghost function State(): Log
      reads this
    {
      Log(operations, errors, stats, maxDeleteHit, peakSpeeds)
    }

    constructor ()
      ensures State() == EmptyLog
    {
      operations, errors, stats, maxDeleteHit, peakSpeeds := [], [], None, false, map[];
    }

    /** Fold one line into the totals. Progress reports are kept out of the live pane. */
    method Absorb(line: Line) returns (isReport: bool)
      modifies this
      ensures State() == Absorbed(old(State()), line)
      ensures isReport == line.Report?
    {
      match line {
        case Prose => return false;
        case Report(report) =>
          stats := Some(report);
          RaisePeaks(report.transferring);
          return true;
        case Message(obj, msg, size, isError) =>
          var op := OperationOf(line);
          if op.Some? {
            operations := operations + [op.value];
          }
          if isError {
            if Contains(msg, "max-delete threshold reached") {
              maxDeleteHit := true;
            }
            errors := errors + [Detail(line)];
          }
          return false;
      }
    }

    method RaisePeaks(files: seq<Progress>)
      modifies this`peakSpeeds
      ensures peakSpeeds == Peaks(old(peakSpeeds), files)
    {
      for i := 0 to |files|
        invariant peakSpeeds == Peaks(old(peakSpeeds), files[..i])
      {
        assert files[..i + 1][..i] == files[..i];
        var p := files[i];
        if p.name != "" && p.speed > 0.0 {
          var previous := if p.name in peakSpeeds then peakSpeeds[p.name] else 0.0;
          peakSpeeds := peakSpeeds[p.name := if previous >= p.speed then previous else p.speed];
        }
      }
      assert files[..|files|] == files;
    }

    /** Read a whole run's output; `pane` are the lines that reach the live pane. */
    method Consume(lines: seq<Line>) returns (pane: seq<Line>)
      requires State() == EmptyLog
      modifies this
      ensures State() == AbsorbedAll(lines)
      ensures pane == Where(lines, (line: Line) => !line.Report?)
    {
      pane := [];
      for i := 0 to |lines|
        invariant State() == AbsorbedAll(lines[..i])
        invariant pane == Where(lines[..i], (line: Line) => !line.Report?)
      {
        assert lines[..i + 1][..i] == lines[..i];
        var isReport := Absorb(lines[i]);
        if !isReport {
          pane := pane + [lines[i]];
        }
      }
      assert lines[..|lines|] == lines;
    }
  }

  // ------------------------------------------------------------------ created, replaced, removed

  function WithReplaced(ops: seq<Operation>, replaced: bool): seq<Operation> {
    if ops == [] then []
    else
      WithReplaced(ops[..|ops| - 1], replaced)
      + if ops[|ops| - 1].replaced == Some(replaced) then [ops[|ops| - 1]] else []
  }

  /** Copies that made a new file. */
  function Created(ops: seq<Operation>): seq<Operation> { WithReplaced(Copies(ops), false) }

  /** Copies over an existing file. */
  function Replacements(ops: seq<Operation>): seq<Operation> { WithReplaced(Copies(ops), true) }

  /** What every live log satisfies: its operations are copies, deletions and archivings, and each copy is
      known to have replaced a file or not. */
  predicate LiveOperations(ops: seq<Operation>) {
    forall i :: 0 <= i < |ops| ==>
      && ops[i].operation in {SKIPPED_COPY, SKIPPED_DELETE, SKIPPED_ARCHIVE}
      && (ops[i].operation == SKIPPED_COPY ==> ops[i].replaced.Some?)
  }

  lemma {:induction false} AbsorbedIsLive(lines: seq<Line>)
    ensures LiveOperations(AbsorbedAll(lines).operations)
  {
    if lines != [] { AbsorbedIsLive(lines[..|lines| - 1]); }
  }

  lemma {:induction false} CopiesAreLive(ops: seq<Operation>)
    requires LiveOperations(ops)
    ensures forall i :: 0 <= i < |Copies(ops)| ==> Copies(ops)[i].replaced.Some?
  {
    if ops != [] {
      var init, x := ops[..|ops| - 1], ops[|ops| - 1];
      CopiesAreLive(init);
      assert x.operation == SKIPPED_COPY ==> x.replaced.Some?;
      assert Copies(ops) == Copies(init) + if x.operation == SKIPPED_COPY then [x] else [];
    }
  }

  lemma {:induction false} SelectPartitions(ops: seq<Operation>)
    requires LiveOperations(ops)
    ensures multiset(Copies(ops)) + multiset(Deletes(ops)) + multiset(Archived(ops)) == multiset(ops)
  {
    if ops != [] {
      hide Select;
      var init, x := ops[..|ops| - 1], ops[|ops| - 1];
      SelectPartitions(init);
      assert ops == init + [x];
      assert multiset(ops) == multiset(init) + multiset{x};
      SelectMore(init, x, SKIPPED_COPY);
      SelectMore(init, x, SKIPPED_DELETE);
      SelectMore(init, x, SKIPPED_ARCHIVE);
    }
  }

  lemma {:induction false} SplitByReplaced(ops: seq<Operation>)
    requires forall i :: 0 <= i < |ops| ==> ops[i].replaced.Some?
    ensures multiset(WithReplaced(ops, false)) + multiset(WithReplaced(ops, true)) == multiset(ops)
    ensures |WithReplaced(ops, false)| + |WithReplaced(ops, true)| == |ops|
  {
    if ops != [] {
      var init, x := ops[..|ops| - 1], ops[|ops| - 1];
      SplitByReplaced(init);
      assert ops == init + [x];
      assert multiset(ops) == multiset(init) + multiset{x};
      if x.replaced.value {
        assert WithReplaced(ops, false) == WithReplaced(init, false);
        assert WithReplaced(ops, true) == WithReplaced(init, true) + [x];
      } else {
        assert WithReplaced(ops, false) == WithReplaced(init, false) + [x];
        assert WithReplaced(ops, true) == WithReplaced(init, true);
      }
    }
  }

  /** Every operation of a live log is counted exactly once: as created, replaced, deleted or archived. */
  lemma AccountsAgree(lines: seq<Line>)
    ensures var ops := AbsorbedAll(lines).operations;
            && multiset(Created(ops)) + multiset(Replacements(ops)) == multiset(Copies(ops))
            && |Created(ops)| + |Replacements(ops)| == |Copies(ops)|
            && multiset(Copies(ops)) + multiset(Removals(ops)) == multiset(ops)
            && |Removals(ops)| == |Deletes(ops)| + |Archived(ops)|
  {
    var ops := AbsorbedAll(lines).operations;
    AbsorbedIsLive(lines);
    CopiesAreLive(ops);
    SelectPartitions(ops);
    SplitByReplaced(Copies(ops));
  }

  // ------------------------------------------------------------------ which lines count

  function Where(lines: seq<Line>, p: Line -> bool): seq<Line> {
    if lines == [] then []
    else Where(lines[..|lines| - 1], p) + if p(lines[|lines| - 1]) then [lines[|lines| - 1]] else []
  }

  /** A line about a file that was copied, wherever in the message it says so. */
  predicate SaysCopied(line: Line) {
    line.Message? && Named(line.obj) && Contains(line.msg, "Copied")
  }

  predicate SaysDeleted(line: Line) {
    line.Message? && Named(line.obj) && !Contains(line.msg, "Copied") && StartsWith(line.msg, "Deleted")
  }

  predicate SaysArchived(line: Line) {
    line.Message? && Named(line.obj) && !Contains(line.msg, "Copied") && StartsWith(line.msg, "Moved into backup dir")
  }

  predicate SaysError(line: Line) { line.Message? && line.isError }

  /** One operation for each of these lines, in order, with its file and its size if that is no negative number. */
  predicate Lists(ops: seq<Operation>, lines: seq<Line>) {
    && |ops| == |lines|
    && forall i :: 0 <= i < |ops| ==>
         && lines[i].Message? && Some(ops[i].path) == lines[i].obj
         && (ops[i].size.Some? ==> ops[i].size == lines[i].size && ops[i].size.value >= 0)
         && (ops[i].size.None? ==> lines[i].size.None? || lines[i].size.value < 0)
         && (ops[i].operation == SKIPPED_COPY ==> ops[i].replaced == Some(!Contains(lines[i].msg, "(new)")))
  }

  lemma ListsMore(ops: seq<Operation>, lines: seq<Line>, op: Operation, line: Line)
    requires Lists(ops, lines) && Lists([op], [line])
    ensures Lists(ops + [op], lines + [line])
  {
    hide Contains;
    assert op == [op][0] && line == [line][0];
  }

  lemma OneLine(line: Line)
    requires line.Message?
    ensures var op := OperationOf(line);
            && (op.Some? <==> SaysCopied(line) || SaysDeleted(line) || SaysArchived(line))
            && (op.Some? ==>
                  && Lists([op.value], [line])
                  && (op.value.operation == SKIPPED_COPY <==> SaysCopied(line))
                  && (op.value.operation == SKIPPED_DELETE <==> SaysDeleted(line))
                  && (op.value.operation == SKIPPED_ARCHIVE <==> SaysArchived(line)))
  {
    hide Contains;
    assert "Deleted"[0] != "Moved into backup dir"[0];
  }

  lemma SelectMore(ops: seq<Operation>, op: Operation, kind: string)
    ensures Select(ops + [op], kind) == if op.operation == kind then Select(ops, kind) + [op] else Select(ops, kind)
  {
  }

  lemma WhereStep(lines: seq<Line>, p: Line -> bool)
    requires lines != []
    ensures var before, last := Where(lines[..|lines| - 1], p), lines[|lines| - 1];
            Where(lines, p) == if p(last) then before + [last] else before
  {
  }

  /** The copies, the deletions and the archivings of a log are those its lines report, each once and in order. */
  lemma {:induction false} OperationsAreLines(lines: seq<Line>)
    ensures var ops := AbsorbedAll(lines).operations;
            && Lists(Copies(ops), Where(lines, SaysCopied))
            && Lists(Deletes(ops), Where(lines, SaysDeleted))
            && Lists(Archived(ops), Where(lines, SaysArchived))
  {
    hide Select, Where, SaysCopied, SaysDeleted, SaysArchived, Lists, OperationOf, Peaks;
    if lines == [] {
      NoLines();
    } else {
      var init, line := lines[..|lines| - 1], lines[|lines| - 1];
      OperationsAreLines(init);
      WhereStep(lines, SaysCopied);
      WhereStep(lines, SaysDeleted);
      WhereStep(lines, SaysArchived);
      OnlyMessages(line);
      if line.Message? && OperationOf(line).Some? {
        OneMoreOperation(init, line);
      } else if line.Message? {
        OneLine(line);
      }
    }
  }

  lemma NoLines()
    ensures Lists(Select([], SKIPPED_COPY), Where([], SaysCopied))
    ensures Lists(Select([], SKIPPED_DELETE), Where([], SaysDeleted))
    ensures Lists(Select([], SKIPPED_ARCHIVE), Where([], SaysArchived))
  {
  }

  lemma OnlyMessages(line: Line)
    ensures SaysCopied(line) || SaysDeleted(line) || SaysArchived(line) ==> line.Message?
  {
  }

  lemma OneMoreOperation(init: seq<Line>, line: Line)
    requires line.Message? && OperationOf(line).Some?
    requires var ops := AbsorbedAll(init).operations;
             && Lists(Copies(ops), Where(init, SaysCopied))
             && Lists(Deletes(ops), Where(init, SaysDeleted))
             && Lists(Archived(ops), Where(init, SaysArchived))
    ensures var ops := AbsorbedAll(init).operations + [OperationOf(line).value];
            && var copied, deleted, archived := Where(init, SaysCopied), Where(init, SaysDeleted),
                                                Where(init, SaysArchived);
               && Lists(Copies(ops), if SaysCopied(line) then copied + [line] else copied)
               && Lists(Deletes(ops), if SaysDeleted(line) then deleted + [line] else deleted)
               && Lists(Archived(ops), if SaysArchived(line) then archived + [line] else archived)
  {
    hide Select, Where, SaysCopied, SaysDeleted, SaysArchived, Lists, OperationOf, AbsorbedAll;
    var ops, op := AbsorbedAll(init).operations, OperationOf(line).value;
    OneLine(line);
    SelectMore(ops, op, SKIPPED_COPY);
    SelectMore(ops, op, SKIPPED_DELETE);
    SelectMore(ops, op, SKIPPED_ARCHIVE);
    if SaysCopied(line) { ListsMore(Copies(ops), Where(init, SaysCopied), op, line); }
    if SaysDeleted(line) { ListsMore(Deletes(ops), Where(init, SaysDeleted), op, line); }
    if SaysArchived(line) { ListsMore(Archived(ops), Where(init, SaysArchived), op, line); }
  }

  /** The errors of a log are those its lines report, in order, each after its file if it names one; the delete limit
      was hit exactly when one of them says so; and the progress is that of the last report. */
  lemma {:induction false} ErrorsAreLines(lines: seq<Line>)
    ensures var log, es := AbsorbedAll(lines), Where(lines, SaysError);
            && |log.errors| == |es|
            && (forall i :: 0 <= i < |es| ==>
                  es[i].Message? && log.errors[i] == Strip(Prefixed(es[i].obj) + es[i].msg, SPACES))
            && (log.maxDeleteHit <==> SomeHit(es))
            && var reports := Where(lines, (line: Line) => line.Report?);
               if reports == [] then log.stats == None
               else reports[|reports| - 1].Report? && log.stats == Some(reports[|reports| - 1].stats)
  {
    hide Contains, Strip, OperationOf, Peaks, Where;
    if lines == [] {
      NoErrors();
    } else {
      var line := lines[|lines| - 1];
      ErrorsAreLines(lines[..|lines| - 1]);
      WhereStep(lines, SaysError);
      WhereStep(lines, (line: Line) => line.Report?);
      if SaysError(line) {
        DetailIsPrefixed(line);
        HitStep(Where(lines[..|lines| - 1], SaysError), line);
      }
    }
  }

  /** One of the lines says that rclone stopped at its delete limit. */
  predicate SomeHit(lines: seq<Line>) {
    exists i :: 0 <= i < |lines| && lines[i].Message? && Contains(lines[i].msg, "max-delete threshold reached")
  }

  lemma HitStep(lines: seq<Line>, line: Line)
    requires line.Message?
    ensures SomeHit(lines + [line]) <==> SomeHit(lines) || Contains(line.msg, "max-delete threshold reached")
  {
    hide Contains;
    var all := lines + [line];
    assert all[|lines|] == line;
    assert forall i :: 0 <= i < |lines| ==> all[i] == lines[i];
  }

  lemma NoErrors()
    ensures Where([], SaysError) == [] && Where([], (line: Line) => line.Report?) == []
  {
  }

  function Prefixed(obj: Option<string>): string {
    if obj.GetOr("") == "" then "" else obj.value + ": "
  }

  lemma DetailIsPrefixed(line: Line)
    requires line.Message?
    ensures Detail(line) == Strip(Prefixed(line.obj) + line.msg, SPACES)
  {
    hide Strip;
    assert "" + line.msg == line.msg;
  }

  // ------------------------------------------------------------------ peak speeds

  /** Some report has this positive speed for the file. */
  predicate Measured(lines: seq<Line>, name: string, speed: real) {
    && name != "" && speed > 0.0
    && exists i, j :: 0 <= i < |lines| && lines[i].Report? && 0 <= j < |lines[i].stats.transferring|
                      && lines[i].stats.transferring[j] == Progress(name, speed)
  }

  predicate InFiles(files: seq<Progress>, name: string, speed: real) {
    name != "" && speed > 0.0 && Progress(name, speed) in files
  }

  lemma {:induction false} PeaksOfReport(peaks: map<string, real>, files: seq<Progress>, name: string)
    ensures var after := Peaks(peaks, files);
            && (name in peaks ==> name in after && after[name] >= peaks[name])
            && (forall speed :: InFiles(files, name, speed) ==> name in after && after[name] >= speed)
            && (name in after ==> (name in peaks && after[name] == peaks[name]) || InFiles(files, name, after[name]))
  {
    if files != [] {
      var init, p := files[..|files| - 1], files[|files| - 1];
      PeaksOfReport(peaks, init, name);
      assert files == init + [p];
      forall speed
        ensures InFiles(files, name, speed) <==> InFiles(init, name, speed) || (InFiles([p], name, speed))
      {
      }
    }
  }

  lemma MeasuredStep(lines: seq<Line>, line: Line, name: string, speed: real)
    ensures Measured(lines + [line], name, speed)
            <==> Measured(lines, name, speed) || (line.Report? && InFiles(line.stats.transferring, name, speed))
  {
    var all := lines + [line];
    if Measured(lines, name, speed) {
      var i, j :| 0 <= i < |lines| && lines[i].Report? && 0 <= j < |lines[i].stats.transferring|
                  && lines[i].stats.transferring[j] == Progress(name, speed);
      assert all[i].stats.transferring[j] == Progress(name, speed);
    }
    if line.Report? && InFiles(line.stats.transferring, name, speed) {
      var j :| 0 <= j < |line.stats.transferring| && line.stats.transferring[j] == Progress(name, speed);
      assert all[|lines|].stats.transferring[j] == Progress(name, speed);
    }
    if Measured(all, name, speed) {
      var i, j :| 0 <= i < |all| && all[i].Report? && 0 <= j < |all[i].stats.transferring|
                  && all[i].stats.transferring[j] == Progress(name, speed);
      if i < |lines| {
        assert lines[i].stats.transferring[j] == Progress(name, speed);
      }
    }
  }

  /** A file's recorded peak is the greatest positive speed any report gave for it; it has none exactly when
      no report did. */
  lemma {:induction false} PeakIsGreatest(lines: seq<Line>, name: string)
    ensures var peaks := AbsorbedAll(lines).peakSpeeds;
            && (name in peaks ==> Measured(lines, name, peaks[name]))
            && (forall speed :: Measured(lines, name, speed) ==> name in peaks && speed <= peaks[name])
  {
    if lines != [] {
      var init, line := lines[..|lines| - 1], lines[|lines| - 1];
      PeakIsGreatest(init, name);
      assert lines == init + [line];
      forall speed
        ensures Measured(lines, name, speed)
                <==> Measured(init, name, speed) || (line.Report? && InFiles(line.stats.transferring, name, speed))
      {
        MeasuredStep(init, line, name, speed);
      }
      if line.Report? {
        PeaksOfReport(AbsorbedAll(init).peakSpeeds, line.stats.transferring, name);
      }
    }
  }

  // ------------------------------------------------------------------ what is stored

  type Status = RunTable.Status

  datatype Row = Row(action: Action, path: string, size: Option<int>, peakSpeed: Option<real>)

  datatype Summary = Summary(created: int, updated: int, untouched: int, bytes: int, plannedNew: int,
                             plannedUpdated: int, plannedDeleted: int, transferred: int, deleted: int, archived: int,
                             destFileCount: int, threshold: int, appliedAsPlanned: bool, maxDeleteHit: bool,
                             cancelledPartway: bool, errors: seq<string>, warnings: seq<string>)

  function ActionOf(op: Operation): Action {
    if op.operation == SKIPPED_DELETE then Deleted
    else if op.operation == SKIPPED_ARCHIVE then ArchivedAway
    else if op.replaced == Some(true) then Updated
    else New
  }

  function RowOf(op: Operation, peaks: map<string, real>): Row {
    Row(ActionOf(op), op.path, op.size, if op.path in peaks then Some(peaks[op.path]) else None)
  }

  function Take(ops: seq<Operation>): seq<Operation> {
    if |ops| <= MAX_PERSISTED_CHANGES then ops else ops[..MAX_PERSISTED_CHANGES]
  }

  function RowsOf(ops: seq<Operation>, peaks: map<string, real>): seq<Row> {
    if ops == [] then [] else RowsOf(ops[..|ops| - 1], peaks) + [RowOf(ops[|ops| - 1], peaks)]
  }

  /** The rows a one-way run stores: copies first, then removals, cut at the cap. */
  function StoredRows(log: Log): seq<Row> {
    RowsOf(Take(Copies(log.operations) + Removals(log.operations)), log.peakSpeeds)
  }

  function Outcome(cancelled: bool, exitCode: int): Status {
    if cancelled || exitCode in {-15, 143, -9, 137} then RunTable.Cancelled
    else if exitCode == 0 then RunTable.Success
    else RunTable.Failed
  }

  function SizeSum(ops: seq<Operation>): int {
    if ops == [] then 0 else SizeSum(ops[..|ops| - 1]) + SizeOf(ops[|ops| - 1].size)
  }

  /** rclone's own byte count when it gave one, otherwise the sum of the copied sizes. */
  function BytesTransferred(log: Log): int {
    if log.stats.Some? && log.stats.value.bytes.Some? && log.stats.value.bytes.value >= 0
    then log.stats.value.bytes.value
    else SizeSum(Copies(log.operations))
  }

  /** rclone's own count, when it is a whole number and not negative. */
  function Reported(stats: Option<Stats>): Option<int> {
    if stats.Some? && stats.value.bytes.GetOr(-1) >= 0 then stats.value.bytes else None
  }

  lemma BytesAreReported(log: Log)
    ensures BytesTransferred(log)
            == match Reported(log.stats) case Some(n) => n case None => SizeSum(Copies(log.operations))
  {
    hide SizeSum, Select;
  }

  /** Sizes add up, in any grouping. */
  lemma {:induction false} SizeSumConcat(a: seq<Operation>, b: seq<Operation>)
    ensures SizeSum(a + b) == SizeSum(a) + SizeSum(b)
    ensures forall op: Operation :: SizeSum([op]) == op.size.GetOr(0)
  {
    forall op: Operation
      ensures SizeSum([op]) == op.size.GetOr(0)
    {
      assert [op][..0] == [];
    }
    if b == [] {
      assert a + b == a;
    } else {
      assert (a + b)[..|a + b| - 1] == a + b[..|b| - 1];
      SizeSumConcat(a, b[..|b| - 1]);
    }
  }

  lemma StoredRowsAre(log: Log)
    ensures StoredRows(log) == RowsOf(Take(Copies(log.operations) + Removals(log.operations)), log.peakSpeeds)
  {
  }

  /** The action a row shows: how the file left, or whether it had been there. */
  predicate Shows(row: Row, op: Operation) {
    && (row.action == Deleted <==> op.operation == SKIPPED_DELETE)
    && (row.action == ArchivedAway <==> op.operation == SKIPPED_ARCHIVE)
    && (op.operation == SKIPPED_COPY ==> (row.action == Updated <==> op.replaced == Some(true)))
    && row.action != Error && row.path == op.path && row.size == op.size
  }

  lemma {:induction false} RowsShow(ops: seq<Operation>, peaks: map<string, real>)
    ensures var rows := RowsOf(ops, peaks);
            && |rows| == |ops|
            && forall i :: 0 <= i < |ops| ==>
                 && Shows(rows[i], ops[i])
                 && (rows[i].peakSpeed.Some? <==> ops[i].path in peaks)
                 && (ops[i].path in peaks ==> rows[i].peakSpeed.value == peaks[ops[i].path])
  {
    if ops != [] { RowsShow(ops[..|ops| - 1], peaks); }
  }

  /** The stored rows show the first 5000 of a log's copies and then removals, one each, in order, with the peak speed
      measured for the file if there was one. */
  lemma StoredRowsExactly(log: Log)
    ensures var ops := Copies(log.operations) + Deletes(log.operations) + Archived(log.operations);
            var rows := StoredRows(log);
            && |rows| == (if |ops| <= MAX_PERSISTED_CHANGES then |ops| else MAX_PERSISTED_CHANGES)
            && forall i :: 0 <= i < |rows| ==>
                 && Shows(rows[i], ops[i])
                 && (rows[i].peakSpeed.Some? <==> ops[i].path in log.peakSpeeds)
                 && (ops[i].path in log.peakSpeeds ==> rows[i].peakSpeed.value == log.peakSpeeds[ops[i].path])
  {
    hide Select, Shows, RowsOf;
    var ops := Copies(log.operations) + Deletes(log.operations) + Archived(log.operations);
    assert ops == Copies(log.operations) + Removals(log.operations);
    RowsShow(Take(ops), log.peakSpeeds);
  }

  /** A run's row as far as its end writes it. */
  class JobRun {
    var status: Status
    var exitCode: int
    var filesTransferred: int
    var filesDeleted: int
    var filesArchived: int
    var bytesTransferred: int
    var errorsCount: int
    var rows: seq<Row>
    var finishedAt: Option<int>
    var logPath: Option<string>
    var summary: Option<Summary>

    constructor (status: Status)
      ensures this.status == status && rows == [] && summary.None?
    {
      this.status := status;
      exitCode, filesTransferred, filesDeleted, filesArchived, bytesTransferred, errorsCount := 0, 0, 0, 0, 0, 0;
      rows, finishedAt, logPath, summary := [], None, None, None;
    }

    method AddRows(stored: seq<Operation>, peaks: map<string, real>)
      modifies this`rows
      ensures rows == old(rows) + RowsOf(stored, peaks)
    {
      hide RowOf;
      for i := 0 to |stored|
        invariant rows == old(rows) + RowsOf(stored[..i], peaks)
      {
        assert stored[..i + 1][..i] == stored[..i];
        rows := rows + [RowOf(stored[i], peaks)];
      }
      assert stored[..|stored|] == stored;
    }

    /** Store what happened, also for a run that was cancelled part way. `warnings` are the plan's. */
    method Record(plan: Plan, warnings: seq<string>, log: Log, exit: int, threshold: int, path: string, now: int)
      modifies this
      ensures exitCode == exit
      ensures status == RunTable.Cancelled <==> old(status) == RunTable.Cancelled || exit in {-15, 143, -9, 137}
      ensures status == RunTable.Success <==> old(status) != RunTable.Cancelled && exit == 0
      ensures status in {RunTable.Cancelled, RunTable.Success, RunTable.Failed}
      ensures rows == old(rows) + StoredRows(log)
      ensures filesTransferred == |Copies(log.operations)|
      ensures filesDeleted == |Deletes(log.operations)| + |Archived(log.operations)|
      ensures filesArchived == |Archived(log.operations)|
      ensures bytesTransferred
              == match Reported(log.stats) case Some(n) => n case None => SizeSum(Copies(log.operations))
      ensures errorsCount == |log.errors|
      ensures finishedAt == Some(now) && logPath == Some(path)
      ensures summary == Some(SummaryOf(plan, warnings, log, status, threshold))
      ensures Summarises(summary.value, plan, warnings, log, bytesTransferred, threshold)
      ensures summary.value.appliedAsPlanned
              <==> && status == RunTable.Success && filesTransferred == plan.Count(New) + plan.Count(Updated)
                   && filesDeleted == plan.Count(Deleted)
      ensures summary.value.cancelledPartway <==> status == RunTable.Cancelled && filesTransferred + filesDeleted > 0
    {
      hide BytesTransferred, SizeSum, Select, RowsOf, SummaryOf, Summarises, CountIn, StoredRows, Outcome, Reported;
      EndsWith(status == RunTable.Cancelled, exit);
      BytesAreReported(log);
      StoredRowsAre(log);
      var copied, archived, removed := Copies(log.operations), Archived(log.operations), Removals(log.operations);
      AddRows(Take(copied + removed), log.peakSpeeds);
      status := Outcome(status == RunTable.Cancelled, exit);
      exitCode := exit;
      filesTransferred, filesDeleted, filesArchived := |copied|, |removed|, |archived|;
      bytesTransferred, errorsCount := BytesTransferred(log), |log.errors|;
      finishedAt, logPath := Some(now), Some(path);
      summary := Some(SummaryOf(plan, warnings, log, status, threshold));
      SummaryIs(plan, warnings, log, status, threshold);
    }
  }

  function SummaryOf(plan: Plan, warnings: seq<string>, log: Log, status: Status, threshold: int): Summary {
    var copied, removed := Copies(log.operations), Removals(log.operations);
    Summary(|Created(log.operations)|, |Replacements(log.operations)|, plan.unchangedCount, BytesTransferred(log),
            plan.Count(New), plan.Count(Updated), plan.Count(Deleted), |copied|, |removed|,
            |Archived(log.operations)|, plan.destFileCount, threshold,
            status == RunTable.Success && |copied| == plan.Count(New) + plan.Count(Updated)
              && |removed| == plan.Count(Deleted),
            log.maxDeleteHit,
            status == RunTable.Cancelled && (copied != [] || removed != []),
            Summarised(log.errors), warnings)
  }

  /** What a summary takes over from the plan, and what it counts in the log. */
  predicate Summarises(s: Summary, plan: Plan, warnings: seq<string>, log: Log, bytes: int, threshold: int) {
    && s.untouched == plan.unchangedCount && s.destFileCount == plan.destFileCount && s.warnings == warnings
    && s.plannedNew == plan.Count(New) && s.plannedUpdated == plan.Count(Updated)
    && s.plannedDeleted == plan.Count(Deleted)
    && s.created == |Created(log.operations)| && s.updated == |Replacements(log.operations)|
    && s.transferred == |Copies(log.operations)| && s.archived == |Archived(log.operations)|
    && s.deleted == |Deletes(log.operations)| + |Archived(log.operations)|
    && s.bytes == bytes && s.threshold == threshold
    && s.maxDeleteHit == log.maxDeleteHit && s.errors == Summarised(log.errors)
  }

  lemma EndsWith(cancelled: bool, exitCode: int)
    ensures var status := Outcome(cancelled, exitCode);
            && (status == RunTable.Cancelled <==> cancelled || exitCode in {-15, 143, -9, 137})
            && (status == RunTable.Success <==> !cancelled && exitCode == 0)
            && status in {RunTable.Cancelled, RunTable.Success, RunTable.Failed}
  {
  }

  lemma SummaryIs(plan: Plan, warnings: seq<string>, log: Log, status: Status, threshold: int)
    ensures var s := SummaryOf(plan, warnings, log, status, threshold);
            var copied, removed := |Copies(log.operations)|, |Deletes(log.operations)| + |Archived(log.operations)|;
            && Summarises(s, plan, warnings, log, BytesTransferred(log), threshold)
            && (s.appliedAsPlanned
                <==> status == RunTable.Success && copied == plan.Count(New) + plan.Count(Updated)
                     && removed == plan.Count(Deleted))
            && (s.cancelledPartway <==> status == RunTable.Cancelled && copied + removed > 0)
  {
    hide Select, Created, Replacements, BytesTransferred, CountIn, Summarised;
  }

  /** How many stored rows show an action. */
  function Tally(rows: seq<Row>, action: Action): nat {
    if rows == [] then 0 else Tally(rows[..|rows| - 1], action) + if rows[|rows| - 1].action == action then 1 else 0
  }

  lemma {:induction false} TallyConcat(a: seq<Row>, b: seq<Row>, action: Action)
    ensures Tally(a + b, action) == Tally(a, action) + Tally(b, action)
  {
    if b == [] {
      assert a + b == a;
    } else {
      assert (a + b)[..|a + b| - 1] == a + b[..|b| - 1];
      TallyConcat(a, b[..|b| - 1], action);
    }
  }

  lemma {:induction false} RowsConcat(a: seq<Operation>, b: seq<Operation>, peaks: map<string, real>)
    ensures RowsOf(a + b, peaks) == RowsOf(a, peaks) + RowsOf(b, peaks)
  {
    if b == [] {
      assert a + b == a;
    } else {
      assert (a + b)[..|a + b| - 1] == a + b[..|b| - 1];
      RowsConcat(a, b[..|b| - 1], peaks);
    }
  }

  lemma {:induction false} RowsLength(ops: seq<Operation>, peaks: map<string, real>)
    ensures |RowsOf(ops, peaks)| == |ops|
  {
    if ops != [] { RowsLength(ops[..|ops| - 1], peaks); }
  }

  lemma {:induction false} TallyCopies(ops: seq<Operation>, peaks: map<string, real>)
    requires forall i :: 0 <= i < |ops| ==> ops[i].operation == SKIPPED_COPY && ops[i].replaced.Some?
    ensures var rows := RowsOf(ops, peaks);
            && Tally(rows, New) == |WithReplaced(ops, false)| && Tally(rows, Updated) == |WithReplaced(ops, true)|
            && Tally(rows, Deleted) == Tally(rows, ArchivedAway) == 0
  {
    if ops != [] {
      var init, x := ops[..|ops| - 1], ops[|ops| - 1];
      TallyCopies(init, peaks);
      var before := RowsOf(init, peaks);
      assert (before + [RowOf(x, peaks)])[..|before|] == before;
      if x.replaced.value {
        assert x.replaced == Some(true);
      } else {
        assert x.replaced == Some(false);
      }
    }
  }

  lemma {:induction false} TallyRemovals(ops: seq<Operation>, peaks: map<string, real>, archive: bool)
    requires forall i :: 0 <= i < |ops| ==> ops[i].operation == if archive then SKIPPED_ARCHIVE else SKIPPED_DELETE
    ensures var rows := RowsOf(ops, peaks);
            && Tally(rows, if archive then ArchivedAway else Deleted) == |ops|
            && Tally(rows, if archive then Deleted else ArchivedAway) == 0
            && Tally(rows, New) == Tally(rows, Updated) == 0
  {
    if ops != [] {
      var init, x := ops[..|ops| - 1], ops[|ops| - 1];
      TallyRemovals(init, peaks, archive);
      var before := RowsOf(init, peaks);
      assert (before + [RowOf(x, peaks)])[..|before|] == before;
    }
  }

  lemma {:induction false} SelectedKind(ops: seq<Operation>, kind: string)
    ensures forall i :: 0 <= i < |Select(ops, kind)| ==> Select(ops, kind)[i].operation == kind
  {
    if ops != [] { SelectedKind(ops[..|ops| - 1], kind); }
  }

  /** The stored rows, by action, against the figures of the summary cards. */
  predicate RowsMatch(rows: seq<Row>, summary: Summary) {
    && Tally(rows, New) == summary.created && Tally(rows, Updated) == summary.updated
    && Tally(rows, ArchivedAway) == summary.archived
    && Tally(rows, Deleted) + Tally(rows, ArchivedAway) == summary.deleted
  }

  lemma {:induction false} TallyTotal(rows: seq<Row>)
    ensures Tally(rows, New) + Tally(rows, Updated) + Tally(rows, Deleted) + Tally(rows, ArchivedAway) <= |rows|
  {
    if rows != [] { TallyTotal(rows[..|rows| - 1]); }
  }

  lemma OperationCount(lines: seq<Line>)
    ensures var ops := AbsorbedAll(lines).operations; |ops| == |Copies(ops)| + |Deletes(ops)| + |Archived(ops)|
  {
    var ops := AbsorbedAll(lines).operations;
    AccountsAgree(lines);
    assert |multiset(ops)| == |ops|;
    assert |multiset(Copies(ops)) + multiset(Removals(ops))| == |Copies(ops)| + |Removals(ops)|;
  }

  /** All rows, before the cut, tally with the summary. */
  lemma UncutRowsTally(ops: seq<Operation>, peaks: map<string, real>)
    requires LiveOperations(ops)
    ensures var rows := RowsOf(Copies(ops) + Removals(ops), peaks);
            && Tally(rows, New) == |Created(ops)| && Tally(rows, Updated) == |Replacements(ops)|
            && Tally(rows, Deleted) == |Deletes(ops)| && Tally(rows, ArchivedAway) == |Archived(ops)|
  {
    hide Select, WithReplaced, RowsOf, Tally;
    var copied, deleted, archived := Copies(ops), Deletes(ops), Archived(ops);
    CopiesAreLive(ops);
    SelectedKind(ops, SKIPPED_COPY);
    SelectedKind(ops, SKIPPED_DELETE);
    SelectedKind(ops, SKIPPED_ARCHIVE);
    TallyCopies(copied, peaks);
    TallyRemovals(deleted, peaks, false);
    TallyRemovals(archived, peaks, true);
    RowsConcat(copied, deleted + archived, peaks);
    RowsConcat(deleted, archived, peaks);
    RowTallies(RowsOf(copied, peaks), RowsOf(deleted, peaks), RowsOf(archived, peaks));
  }

  /** The rows of a one-way run agree with its summary exactly when the run stayed within the cap on stored rows. */
  lemma RowsMatchSummary(lines: seq<Line>, plan: Plan, warnings: seq<string>, status: Status, threshold: int)
    ensures var log := AbsorbedAll(lines);
            RowsMatch(StoredRows(log), SummaryOf(plan, warnings, log, status, threshold))
            <==> |log.operations| <= MAX_PERSISTED_CHANGES
  {
    hide Select, WithReplaced, RowsOf, Tally, AbsorbedAll, LiveOperations, BytesTransferred, CountIn;
    var log := AbsorbedAll(lines);
    OperationCount(lines);
    AccountsAgree(lines);
    AbsorbedIsLive(lines);
    if |log.operations| <= MAX_PERSISTED_CHANGES {
      UncutRowsTally(log.operations, log.peakSpeeds);
    } else {
      RowsLength(Take(Copies(log.operations) + Removals(log.operations)), log.peakSpeeds);
      TallyTotal(StoredRows(log));
    }
  }

  lemma RowTallies(a: seq<Row>, b: seq<Row>, c: seq<Row>)
    ensures forall action :: Tally(a + (b + c), action) == Tally(a, action) + Tally(b, action) + Tally(c, action)
  {
    forall action
      ensures Tally(a + (b + c), action) == Tally(a, action) + Tally(b, action) + Tally(c, action)
    {
      TallyConcat(a, b + c, action);
      TallyConcat(b, c, action);
    }
  }
}

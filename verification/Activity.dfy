/** Session figures over every active run (app/jobs/events.py, class ActivityRecorder). Speeds are exact reals. */
module Activity {
  import opened Wrappers

  const SAMPLE_MEMORY := 720

  datatype Stats = Stats(bytesDone: int, speed: real)

  datatype Sample = Sample(at: real, speed: real)

  datatype Recorder = Recorder(latest: map<int, Stats>, counted: map<int, int>, sessionBytes: int,
                               sessionMaxSpeed: real, samples: seq<Sample>)

  const Empty := Recorder(map[], map[], 0, 0.0, [])

  function KeepLast(s: seq<Sample>): seq<Sample> {
    if |s| <= SAMPLE_MEMORY then s else s[|s| - SAMPLE_MEMORY..]
  }

  // ------------------------------------------------------------------ sums over sets of runs

  ghost function SumSpeeds(latest: map<int, Stats>, runs: set<int>): real
    requires runs <= latest.Keys
  {
    if exists r :: r in runs then
      var r :| r in runs;
      latest[r].speed + SumSpeeds(latest, runs - {r})
    else 0.0
  }

  ghost function Sum(runs: set<int>, f: int -> int): int {
    if exists r :: r in runs then
      var r :| r in runs;
      f(r) + Sum(runs - {r}, f)
    else 0
  }

  /** Any member can be taken out of a sum first. */
  lemma {:induction false} SumSpeedsTake(latest: map<int, Stats>, runs: set<int>, r: int)
    requires r in runs && runs <= latest.Keys
    ensures SumSpeeds(latest, runs) == latest[r].speed + SumSpeeds(latest, runs - {r})
    decreases runs
  {
    var q :| q in runs && SumSpeeds(latest, runs) == latest[q].speed + SumSpeeds(latest, runs - {q});
    if q != r {
      SumSpeedsTake(latest, runs - {q}, r);
      SumSpeedsTake(latest, runs - {r}, q);
      assert runs - {q} - {r} == runs - {r} - {q};
    }
  }

  lemma {:induction false} SumTake(runs: set<int>, f: int -> int, r: int)
    requires r in runs
    ensures Sum(runs, f) == f(r) + Sum(runs - {r}, f)
    decreases runs
  {
    var q :| q in runs && Sum(runs, f) == f(q) + Sum(runs - {q}, f);
    if q != r {
      SumTake(runs - {q}, f, r);
      SumTake(runs - {r}, f, q);
      assert runs - {q} - {r} == runs - {r} - {q};
    }
  }

  lemma {:induction false} SumSame(runs: set<int>, f: int -> int, g: int -> int)
    requires forall r :: r in runs ==> f(r) == g(r)
    ensures Sum(runs, f) == Sum(runs, g)
    decreases runs
  {
    if r :| r in runs {
      SumTake(runs, f, r);
      SumTake(runs, g, r);
      SumSame(runs - {r}, f, g);
    }
  }

  ghost function Total(latest: map<int, Stats>): real {
    SumSpeeds(latest, latest.Keys)
  }

  function Max(a: real, b: real): real { if a < b then b else a }

  // ------------------------------------------------------------------ the operations

  datatype Op = Record(run: int, stats: Stats, at: real) | Forget(run: int, at: real) | Reset

  ghost function Apply(s: Recorder, op: Op): Recorder {
    match op
    case Record(run, stats, at) =>
      var latest := s.latest[run := stats];
      var previous := if run in s.counted then s.counted[run] else 0;
      Recorder(latest,
               s.counted[run := stats.bytesDone],
               s.sessionBytes + if stats.bytesDone >= previous then stats.bytesDone - previous else 0,
               Max(s.sessionMaxSpeed, Total(latest)),
               KeepLast(s.samples + [Sample(at, Total(latest))]))
    case Forget(run, at) =>
      var latest := s.latest - {run};
      var idle := latest == map[];
      Recorder(latest,
               if idle then map[] else s.counted - {run},
               if idle then 0 else s.sessionBytes,
               if idle then 0.0 else s.sessionMaxSpeed,
               KeepLast(s.samples + [Sample(at, Total(latest))]))
    case Reset =>
      s.(sessionBytes := 0, sessionMaxSpeed := 0.0, counted := map r | r in s.latest :: s.latest[r].bytesDone)
  }

  class ActivityRecorder {
    var latest: map<int, Stats>
    var samples: seq<Sample>
    var sessionBytes: int
    var sessionMaxSpeed: real
    var counted: map<int, int>

    ghost function State(): Recorder
      reads this
    {
      Recorder(latest, counted, sessionBytes, sessionMaxSpeed, samples)
    }

    constructor ()
      ensures State() == Empty
    {
      latest, samples, sessionBytes, sessionMaxSpeed, counted := map[], [], 0, 0.0, map[];
    }

    method TotalSpeed() returns (total: real)
      ensures total == Total(latest)
    {
      total := 0.0;
      var left := latest.Keys;
      while exists r :: r in left
        invariant left <= latest.Keys
        invariant total + SumSpeeds(latest, left) == Total(latest)
        decreases left
      {
        var r :| r in left;
        SumSpeedsTake(latest, left, r);
        total := total + latest[r].speed;
        left := left - {r};
      }
    }

    method AddSample(at: real, speed: real)
      requires |samples| <= SAMPLE_MEMORY
      modifies this`samples
      ensures samples == KeepLast(old(samples) + [Sample(at, speed)]) && |samples| <= SAMPLE_MEMORY
    {
      samples := samples + [Sample(at, speed)];
      if |samples| > SAMPLE_MEMORY {
        samples := samples[1..];
      }
    }

    method RecordStats(run: int, stats: Stats, at: real)
      requires |samples| <= SAMPLE_MEMORY
      modifies this
      ensures State() == Apply(old(State()), Record(run, stats, at)) && |samples| <= SAMPLE_MEMORY
    {
      latest := latest[run := stats];
      var previous := if run in counted then counted[run] else 0;
      if stats.bytesDone >= previous {
        sessionBytes := sessionBytes + (stats.bytesDone - previous);
      }
      counted := counted[run := stats.bytesDone];
      var total := TotalSpeed();
      sessionMaxSpeed := Max(sessionMaxSpeed, total);
      AddSample(at, total);
    }

    method ForgetRun(run: int, at: real)
      requires |samples| <= SAMPLE_MEMORY
      modifies this
      ensures State() == Apply(old(State()), Forget(run, at)) && |samples| <= SAMPLE_MEMORY
    {
      latest := latest - {run};
      counted := counted - {run};
      var total := TotalSpeed();
      AddSample(at, total);
      if latest == map[] {
        sessionBytes, sessionMaxSpeed, counted := 0, 0.0, map[];
      }
    }

    method ResetSession()
      modifies this
      ensures State() == Apply(old(State()), Reset)
      ensures samples == old(samples)
    {
      sessionBytes, sessionMaxSpeed := 0, 0.0;
      counted := map r | r in latest :: latest[r].bytesDone;
    }
  }

  // ------------------------------------------------------------------ the history, read on its own

  ghost function Exec(ops: seq<Op>): Recorder {
    if ops == [] then Empty else Apply(Exec(ops[..|ops| - 1]), ops[|ops| - 1])
  }

  /** The runs with a report since they were last forgotten. */
  function ActiveRuns(ops: seq<Op>): set<int> {
    if ops == [] then {}
    else
      var before := ActiveRuns(ops[..|ops| - 1]);
      match ops[|ops| - 1]
      case Record(run, _, _) => before + {run}
      case Forget(run, _) => before - {run}
      case Reset => before
  }

  /** The bytes a run reported last since it was last forgotten, 0 if it has not reported since. */
  function Figure(ops: seq<Op>, run: int): int {
    if ops == [] then 0
    else
      match ops[|ops| - 1]
      case Record(r, stats, _) => if r == run then stats.bytesDone else Figure(ops[..|ops| - 1], run)
      case Forget(r, _) => if r == run then 0 else Figure(ops[..|ops| - 1], run)
      case Reset => Figure(ops[..|ops| - 1], run)
  }

  /** Where the current session began: behind the last reset, or the last forget that left nothing active. */
  function SessionStart(ops: seq<Op>): (n: nat)
    ensures n <= |ops|
  {
    if ops == [] then 0
    else
      var op := ops[|ops| - 1];
      if op.Reset? || (op.Forget? && ActiveRuns(ops) == {}) then |ops| else SessionStart(ops[..|ops| - 1])
  }

  function RecordedIn(ops: seq<Op>): set<int> {
    set i | 0 <= i < |ops| && ops[i].Record? :: ops[i].run
  }

  /** The runs that reported in the current session. */
  function SeenInSession(ops: seq<Op>): set<int> {
    RecordedIn(ops[SessionStart(ops)..])
  }

  /** The figures a run's id was forgotten with in the current session, added up. An id that is used again starts
      from nothing each time. */
  function Banked(ops: seq<Op>, run: int): int {
    if SessionStart(ops) == |ops| then 0
    else
      var before, op := ops[..|ops| - 1], ops[|ops| - 1];
      Banked(before, run) + if op.Forget? && op.run == run then Figure(before, run) else 0
  }

  /** Bytes moved under an id in the current session: what it was forgotten with, and its figure now, minus the
      figure the session began with. */
  function MovedBy(ops: seq<Op>, r: int): int {
    Banked(ops, r) + Figure(ops, r) - Figure(ops[..SessionStart(ops)], r)
  }

  function Moved(ops: seq<Op>): int -> int {
    r => MovedBy(ops, r)
  }

  /** By how much reports of the current session were below the figure before them, added up. */
  function Fallen(ops: seq<Op>): (n: int)
    ensures n >= 0
  {
    if SessionStart(ops) == |ops| then 0
    else
      var before, op := ops[..|ops| - 1], ops[|ops| - 1];
      Fallen(before)
      + if op.Record? && op.stats.bytesDone < Figure(before, op.run) then Figure(before, op.run) - op.stats.bytesDone
        else 0
  }

  /** No report is below the figure before it. */
  ghost predicate Rising(ops: seq<Op>) {
    forall i :: 0 <= i < |ops| && ops[i].Record? ==> ops[i].stats.bytesDone >= Figure(ops[..i], ops[i].run)
  }

  lemma {:induction false} RisingNeverFalls(ops: seq<Op>)
    requires Rising(ops)
    ensures Fallen(ops) == 0
  {
    hide SessionStart, Figure;
    if ops != [] {
      RisingPrefix(ops);
      RisingNeverFalls(ops[..|ops| - 1]);
    }
  }

  lemma RisingPrefix(ops: seq<Op>)
    requires Rising(ops) && ops != []
    ensures Rising(ops[..|ops| - 1])
  {
    forall i | 0 <= i < |ops| - 1 && ops[i].Record?
      ensures ops[i].stats.bytesDone >= Figure(ops[..|ops| - 1][..i], ops[i].run)
    {
      assert ops[..|ops| - 1][..i] == ops[..i];
    }
  }

  /** At every point the counters belong to exactly the active runs and hold what each reported last; and with
      nothing active the session figures are zero. */
  lemma {:induction false} CountersFollow(ops: seq<Op>)
    ensures var s := Exec(ops);
            && s.latest.Keys == s.counted.Keys == ActiveRuns(ops)
            && (forall r :: r in s.latest ==> s.counted[r] == s.latest[r].bytesDone == Figure(ops, r))
            && (forall r :: r !in s.latest ==> Figure(ops, r) == 0)
            && (ActiveRuns(ops) == {} ==> s.sessionBytes == 0 && s.sessionMaxSpeed == 0.0)
            && |s.samples| <= SAMPLE_MEMORY
  {
    if ops != [] {
      var before, op := ops[..|ops| - 1], ops[|ops| - 1];
      CountersFollow(before);
      var s := Exec(before);
      if op.Forget? {
        assert (s.latest - {op.run} == map[]) <==> ActiveRuns(ops) == {} by {
          assert (s.latest - {op.run}).Keys == ActiveRuns(ops);
        }
      }
    }
  }

  /** What a report adds to the session is what its run moved since its last report; all of it, if the run is new or
      its id was forgotten meanwhile; also after a reset. A figure below the last one adds nothing. */
  lemma RecordAddsDifference(before: seq<Op>, op: Op)
    requires op.Record?
    ensures var moved := op.stats.bytesDone - Figure(before, op.run);
            Exec(before + [op]).sessionBytes == Exec(before).sessionBytes + if moved >= 0 then moved else 0
  {
    assert (before + [op])[..|before|] == before;
    CountersFollow(before);
  }

  lemma SessionStartKept(before: seq<Op>, op: Op)
    requires op.Record? || SessionStart(before + [op]) != |before| + 1
    ensures SessionStart(before + [op]) == SessionStart(before)
  {
    assert (before + [op])[..|before|] == before;
  }

  /** Forgetting a run banks its figure. */
  lemma OtherStepKeepsSum(before: seq<Op>, op: Op)
    requires !op.Record? && SessionStart(before + [op]) != |before| + 1
    ensures Sum(SeenInSession(before + [op]), Moved(before + [op])) == Sum(SeenInSession(before), Moved(before))
  {
    hide SessionStart, ActiveRuns, Sum;
    var ops, start := before + [op], SessionStart(before);
    SessionStartKept(before, op);
    SeenGrows(before, op, start);
    forall r
      ensures MovedBy(ops, r) == MovedBy(before, r)
    {
      assert ops[..|before|] == before && ops[..start] == before[..start];
    }
    assert SeenInSession(ops) == SeenInSession(before);
    SumSame(SeenInSession(before), Moved(ops), Moved(before));
  }

  lemma {:induction false} UnseenMovedNothing(ops: seq<Op>, r: int)
    requires r !in SeenInSession(ops)
    ensures MovedBy(ops, r) == 0
  {
    hide ActiveRuns;
    if SessionStart(ops) == |ops| {
      assert ops[..|ops|] == ops;
    } else {
      var before, op := ops[..|ops| - 1], ops[|ops| - 1];
      assert before + [op] == ops;
      SessionStartKept(before, op);
      SeenGrows(before, op, SessionStart(before));
      UnseenMovedNothing(before, r);
      assert ops[..SessionStart(ops)] == before[..SessionStart(before)];
    }
  }

  lemma RecordGrowsSum(before: seq<Op>, op: Op)
    requires op.Record?
    ensures Sum(SeenInSession(before + [op]), Moved(before + [op]))
            == Sum(SeenInSession(before), Moved(before)) + op.stats.bytesDone - Figure(before, op.run)
  {
    hide Sum, ActiveRuns;
    var ops, start, r := before + [op], SessionStart(before), op.run;
    assert ops[..|before|] == before;
    SessionStartKept(before, op);
    assert ops[..start] == before[..start];
    SeenGrows(before, op, start);
    var seen := SeenInSession(before);
    SumSame(seen - {r}, Moved(ops), Moved(before));
    SumTake(SeenInSession(ops), Moved(ops), r);
    assert SeenInSession(ops) - {r} == seen - {r};
    if r in seen {
      SumTake(seen, Moved(before), r);
    } else {
      assert seen - {r} == seen;
      UnseenMovedNothing(before, r);
    }
  }

  /** Conservation: the session's bytes are the sum, over the ids that reported in it, of what was moved under each,
      through any number of resets, idle points, and ids that are forgotten and used again; and what figures fell by in
      between is not taken off again. */
  lemma {:induction false} SessionIsConserved(ops: seq<Op>)
    ensures Exec(ops).sessionBytes == Sum(SeenInSession(ops), Moved(ops)) + Fallen(ops)
    ensures Rising(ops) ==> Exec(ops).sessionBytes == Sum(SeenInSession(ops), Moved(ops))
  {
    if Rising(ops) { RisingNeverFalls(ops); }
    if ops == [] {
      assert SeenInSession(ops) == {};
    } else if SessionStart(ops) == |ops| {
      assert SeenInSession(ops) == {};
      CountersFollow(ops);
    } else {
      var before, op := ops[..|ops| - 1], ops[|ops| - 1];
      assert before + [op] == ops;
      SessionIsConserved(before);
      if op.Record? {
        RecordAddsDifference(before, op);
        RecordGrowsSum(before, op);
      } else {
        OtherStepKeepsSum(before, op);
        CountersFollow(ops);
      }
    }
  }

  lemma SeenGrows(before: seq<Op>, op: Op, start: nat)
    requires start <= |before|
    ensures RecordedIn((before + [op])[start..]) == RecordedIn(before[start..]) + if op.Record? then {op.run} else {}
  {
    var a, b := before[start..], (before + [op])[start..];
    assert b == a + [op];
    forall i | 0 <= i < |a| && a[i].Record?
      ensures a[i].run in RecordedIn(b)
    {
      assert b[i] == a[i];
    }
    if op.Record? {
      assert b[|a|] == op;
    }
  }

  // ------------------------------------------------------------------ the peak

  /** The combined speed of the active runs after the first `n` operations. */
  ghost function TotalAfter(ops: seq<Op>, n: nat): real
    requires n <= |ops|
  {
    Total(Exec(ops[..n]).latest)
  }

  /** Operation `i` is a report of the current session. */
  predicate ReportsInSession(ops: seq<Op>, i: nat) {
    SessionStart(ops) <= i < |ops| && ops[i].Record?
  }

  lemma SessionStartsAtZero(ops: seq<Op>)
    requires SessionStart(ops) == |ops|
    ensures Exec(ops).sessionMaxSpeed == 0.0
  {
    CountersFollow(ops);
  }

  /** Within a session only a report raises the peak. */
  lemma PeakStep(before: seq<Op>, op: Op)
    requires SessionStart(before + [op]) != |before| + 1
    ensures var ops := before + [op];
            Exec(ops).sessionMaxSpeed
            == if op.Record? then Max(Exec(before).sessionMaxSpeed, TotalAfter(ops, |ops|))
              else Exec(before).sessionMaxSpeed
  {
    hide SumSpeeds, Figure;
    var ops := before + [op];
    assert ops[..|before|] == before && ops[..|ops|] == ops;
    CountersFollow(ops);
  }

  /** The peak is the highest combined speed any report of the session produced, and never below zero. */
  lemma {:induction false} PeakIsMaximum(ops: seq<Op>)
    ensures var peak := Exec(ops).sessionMaxSpeed;
            && peak >= 0.0
            && (forall i: nat :: ReportsInSession(ops, i) ==> TotalAfter(ops, i + 1) <= peak)
            && (peak == 0.0 || exists i: nat :: ReportsInSession(ops, i) && TotalAfter(ops, i + 1) == peak)
  {
    hide SumSpeeds, Figure, ActiveRuns;
    if ops != [] && SessionStart(ops) == |ops| {
      SessionStartsAtZero(ops);
    } else if ops != [] {
      var before, op := ops[..|ops| - 1], ops[|ops| - 1];
      PeakIsMaximum(before);
      assert ops == before + [op];
      PeakStep(before, op);
      assert ops[..|ops|] == ops;
      forall i: nat | ReportsInSession(ops, i) && i < |before|
        ensures ReportsInSession(before, i) && TotalAfter(ops, i + 1) == TotalAfter(before, i + 1)
      {
        assert before[..i + 1] == ops[..i + 1];
      }
      var peak := Exec(ops).sessionMaxSpeed;
      if op.Record? && peak == TotalAfter(ops, |ops|) {
        assert ReportsInSession(ops, |before|);
      } else if peak != 0.0 {
        var i: nat :| ReportsInSession(before, i) && TotalAfter(before, i + 1) == peak;
        assert ReportsInSession(ops, i);
      }
    }
  }

  // ------------------------------------------------------------------ the chart

  /** A run's last report since it was last forgotten. */
  function LastReport(ops: seq<Op>, run: int): Option<Stats> {
    if ops == [] then None
    else
      match ops[|ops| - 1]
      case Record(r, stats, _) => if r == run then Some(stats) else LastReport(ops[..|ops| - 1], run)
      case Forget(r, _) => if r == run then None else LastReport(ops[..|ops| - 1], run)
      case Reset => LastReport(ops[..|ops| - 1], run)
  }

  /** What is shown of a run is its last report, speed included. */
  lemma {:induction false} LatestIsLastReport(ops: seq<Op>, run: int)
    ensures LastReport(ops, run) == if run in Exec(ops).latest then Some(Exec(ops).latest[run]) else None
  {
    hide SumSpeeds;
    if ops != [] { LatestIsLastReport(ops[..|ops| - 1], run); }
  }

  /** One point for every report and every run that left: when, and the combined speed of those still active. */
  ghost function Chart(ops: seq<Op>): seq<Sample> {
    if ops == [] then []
    else
      var before, op := Chart(ops[..|ops| - 1]), ops[|ops| - 1];
      if op.Reset? then before else before + [Sample(op.at, TotalAfter(ops, |ops|))]
  }

  /** The samples are the last 720 points of the chart, or all of them; a reset leaves them alone. */
  lemma SamplesExactly(ops: seq<Op>)
    ensures var samples, all := Exec(ops).samples, Chart(ops);
            && |samples| == (if |all| <= SAMPLE_MEMORY then |all| else SAMPLE_MEMORY)
            && samples == all[|all| - |samples|..]
  {
    hide KeepLast;
    SamplesAreKept(ops);
    KeptIsEnd(Chart(ops));
  }

  lemma {:induction false} SamplesAreKept(ops: seq<Op>)
    ensures Exec(ops).samples == KeepLast(Chart(ops))
  {
    hide SumSpeeds, KeepLast, Max;
    if ops == [] {
      KeptIsEnd([]);
    } else {
      var before, op := ops[..|ops| - 1], ops[|ops| - 1];
      SamplesAreKept(before);
      assert ops[..|ops|] == ops;
      if !op.Reset? {
        KeepingOneMore(Chart(before), Sample(op.at, TotalAfter(ops, |ops|)));
      }
    }
  }

  lemma KeptIsEnd(all: seq<Sample>)
    ensures var kept := KeepLast(all);
            && |kept| == (if |all| <= SAMPLE_MEMORY then |all| else SAMPLE_MEMORY)
            && kept == all[|all| - |kept|..]
  {
  }

  lemma KeepingOneMore(all: seq<Sample>, x: Sample)
    ensures KeepLast(KeepLast(all) + [x]) == KeepLast(all + [x])
  {
  }
}

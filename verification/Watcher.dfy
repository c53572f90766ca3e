/** Continuous mode: when to look at a job again (app/jobs/watcher.py), and why a surviving run means a change
    (`_prune_quiet_cycle` in app/jobs/runner.py). Intervals are whole seconds. */
module Watcher {
  import opened Wrappers
  import opened RunTable

  datatype Job = Job(id: int, intervalSeconds: int, idleIntervalSeconds: int)

  datatype WatchState = WatchState(interval: int, consecutiveQuiet: nat)

  function Max(a: int, b: int): int { if a < b then b else a }

  function Min(a: int, b: int): int { if a < b then a else b }

  function Floor(job: Job): (f: int)
    ensures f >= 5 && f >= job.intervalSeconds && (f == 5 || f == job.intervalSeconds)
  {
    Max(5, job.intervalSeconds)
  }

  function Ceiling(job: Job): (c: int)
    ensures c >= Floor(job) && c >= job.idleIntervalSeconds && (c == Floor(job) || c == job.idleIntervalSeconds)
  {
    Max(Floor(job), job.idleIntervalSeconds)
  }

  /** `next_interval`: widen while nothing happens, snap back otherwise. */
  function NextState(job: Job, state: WatchState, changed: bool): WatchState {
    if changed then WatchState(Floor(job), 0)
    else WatchState(Min(Ceiling(job), Max(Floor(job), state.interval * 2)), state.consecutiveQuiet + 1)
  }

  /** `should_keep`. */
  predicate ShouldKeep(row: Row) {
    row.status != Success || row.transferred != 0 || row.deleted != 0 || row.errors != 0
  }

  /** `_changed_since`. */
  predicate ChangedSince(rows: Rows, job: int, since: Option<int>) {
    since.Some? && exists k :: k in rows && EndedSince(rows, k, job, since.value)
  }

  /** A run of the job that has finished at that time or later. */
  predicate EndedSince(rows: Rows, k: nat, job: int, since: int) {
    k in rows && rows[k].job == job && rows[k].finishedAt.Some? && rows[k].finishedAt.value >= since
  }

  // ------------------------------------------------------------------ one tick

  /** What starting a cycle comes to. An exception that is no conflict leaves `_start`, and the tick with it. */
  datatype Creation = Started(run: nat) | Conflict | Raises

  /** What the world answers while a tick handles one job: the run table, the clock, and the attempt at a run. */
  datatype Reading = Reading(rows: Rows, clock: int, creation: Creation)

  /** The watcher's three dictionaries. */
  datatype Memory = Memory(states: map<int, WatchState>, due: map<int, int>, cycleStarted: map<int, int>)

  datatype Tick = Tick(moment: int, jobs: seq<Job>, readings: seq<Reading>)

  /** The jobs come from a query by primary key. */
  predicate IsTick(t: Tick) {
    |t.readings| == |t.jobs| && forall i, j :: 0 <= i < j < |t.jobs| ==> t.jobs[i].id != t.jobs[j].id
  }

  function Ids(jobs: seq<Job>): set<int> { set j | j in jobs :: j.id }

  /** What the watcher remembers of one job. */
  datatype Entry = Entry(state: WatchState, due: int, started: Option<int>)

  /** A job is due when it is new, or its time has come. */
  predicate IsDue(e: Option<Entry>, moment: int) { e.None? || moment >= e.value.due }

  function Get(m: map<int, int>, key: int): Option<int> { if key in m then Some(m[key]) else None }

  /** One job's part of a tick. After an exception the time it is due has not moved. */
  function LookAt(e: Option<Entry>, moment: int, job: Job, reading: Reading): Entry {
    var known := e.GetOr(Entry(WatchState(Floor(job), 0), moment, None));
    if moment < known.due then known
    else
      var state := NextState(job, known.state, ChangedSince(reading.rows, job.id, known.started));
      Entry(state, if reading.creation.Raises? then known.due else moment + state.interval, Some(reading.clock))
  }

  ghost predicate Synced(m: Memory) {
    m.states.Keys == m.due.Keys && m.cycleStarted.Keys <= m.states.Keys
  }

  function EntryOf(m: Memory, id: int): Option<Entry> {
    if id in m.states && id in m.due then Some(Entry(m.states[id], m.due[id], Get(m.cycleStarted, id))) else None
  }

  class ContinuousWatcher {
    var states: map<int, WatchState>
    var due: map<int, int>
    var cycleStarted: map<int, int>

    constructor ()
      ensures Remembered() == Memory(map[], map[], map[])
    {
      states, due, cycleStarted := map[], map[], map[];
    }

    function Remembered(): Memory
      reads this
    {
      Memory(states, due, cycleStarted)
    }

    /** Forgets the jobs that are no longer listed. */
    method ForgetStale(live: set<int>)
      requires Synced(Remembered())
      modifies this
      ensures Synced(Remembered()) && states.Keys == old(states.Keys) * live
      ensures forall id :: EntryOf(Remembered(), id) == if id in live then EntryOf(old(Remembered()), id) else None
    {
      var stale := states.Keys - live;
      states, due, cycleStarted := states - stale, due - stale, cycleStarted - stale;
    }

    /** The body of the loop over the jobs. */
    method Look(moment: int, job: Job, reading: Reading) returns (started: seq<nat>, raised: bool)
      requires Synced(Remembered())
      modifies this
      ensures Synced(Remembered()) && states.Keys == old(states.Keys) + {job.id}
      ensures EntryOf(Remembered(), job.id) == Some(LookAt(old(EntryOf(Remembered(), job.id)), moment, job, reading))
      ensures forall id :: id != job.id ==> EntryOf(Remembered(), id) == EntryOf(old(Remembered()), id)
      ensures started == if IsDue(old(EntryOf(Remembered(), job.id)), moment) && reading.creation.Started?
                         then [reading.creation.run] else []
      ensures raised <==> IsDue(old(EntryOf(Remembered(), job.id)), moment) && reading.creation.Raises?
    {
      started, raised := [], false;
      if job.id !in states {
        states := states[job.id := WatchState(Floor(job), 0)];
      }
      if job.id !in due {
        due := due[job.id := moment];
      }
      if moment < due[job.id] {
        return;
      }
      var changed := ChangedSince(reading.rows, job.id, Get(cycleStarted, job.id));
      states := states[job.id := NextState(job, states[job.id], changed)];
      cycleStarted := cycleStarted[job.id := reading.clock];
      if reading.creation.Raises? {
        return [], true;
      }
      if reading.creation.Started? {
        started := [reading.creation.run];
      }
      due := due[job.id := moment + states[job.id].interval];
    }

    /** Starts every continuous job that is due, up to the first that raises. Afterwards the watched jobs are those it
        remembers, and each job's entry depends on that job alone. */
    method DoTick(t: Tick) returns (started: seq<nat>, raised: bool)
      requires IsTick(t) && Synced(Remembered())
      modifies this
      ensures IsAfter(old(Remembered()), t, Remembered())
      ensures started == StartedRuns(old(Remembered()), t, Reached(old(Remembered()), t, 0))
      ensures raised <==>
                exists i :: 0 <= i < |t.jobs| && IsDue(EntryOf(old(Remembered()), t.jobs[i].id), t.moment)
                            && t.readings[i].creation.Raises?
    {
      hide LookAt, EntryOf, IsDue, Ids, IsPartly;
      ghost var before := Remembered();
      ForgetStale(Ids(t.jobs));
      started, raised := [], false;
      PartStart(before, t, Remembered());
      for i := 0 to |t.jobs|
        invariant !raised && IsPartly(before, t, Remembered(), i)
        invariant forall j :: 0 <= j < i ==> !Stops(before, t, j)
        invariant started == StartedRuns(before, t, i) && Reached(before, t, 0) == Reached(before, t, i)
      {
        ghost var partly := Remembered();
        PartNext(before, t, partly, i);
        var more;
        more, raised := Look(t.moment, t.jobs[i], t.readings[i]);
        PartStep(before, t, partly, Remembered(), i);
        started := started + more;
        if raised {
          assert Stops(before, t, i);
          return;
        }
      }
      assert forall i :: 0 <= i < |t.jobs| && t.readings[i].creation.Raises? ==> !Stops(before, t, i);
    }

    /** The watcher's loop: one tick after another, exceptions swallowed. What it remembers in between is a run as the
        lemmas below speak of it; at the end both tables hold the same jobs, all of them listed last, and every one
        that was if no exception cut the last tick short. */
    method RunTicks(ticks: seq<Tick>) returns (ghost memories: seq<Memory>)
      requires (forall t :: t in ticks ==> IsTick(t)) && Remembered() == Memory(map[], map[], map[])
      modifies this
      ensures IsRun(ticks, memories) && memories[|ticks|] == Remembered()
      ensures states.Keys == due.Keys
      ensures ticks != [] ==>
                var last := ticks[|ticks| - 1];
                && states.Keys <= Ids(last.jobs)
                && (Reached(memories[|ticks| - 1], last, 0) == |last.jobs| ==> states.Keys == Ids(last.jobs))
    {
      hide IsAfter, IsTick, Reached;
      memories := [Remembered()];
      for i := 0 to |ticks|
        invariant Synced(Remembered()) && |memories| == i + 1 && memories[i] == Remembered()
        invariant memories[0] == Memory(map[], map[], map[])
        invariant forall k :: 0 <= k < i ==> IsTick(ticks[k]) && IsAfter(memories[k], ticks[k], memories[k + 1])
      {
        assert ticks[i] in ticks;
        ghost var before := Remembered();
        var started, raised := DoTick(ticks[i]);
        AfterKeys(before, ticks[i], Remembered());
        memories := memories + [Remembered()];
      }
      if ticks != [] {
        AfterKeys(memories[|ticks| - 1], ticks[|ticks| - 1], memories[|ticks|]);
      }
    }
  }

  lemma AfterKeys(before: Memory, t: Tick, after: Memory)
    requires IsTick(t) && IsAfter(before, t, after)
    ensures Synced(after) && after.states.Keys == after.due.Keys <= Ids(t.jobs)
    ensures Reached(before, t, 0) == |t.jobs| ==> after.states.Keys == Ids(t.jobs)
  {
    hide Reached;
    var n := Reached(before, t, 0);
    forall id | id in Ids(t.jobs[..n])
      ensures id in Ids(t.jobs)
    {
      var j :| j in t.jobs[..n] && j.id == id;
      assert j in t.jobs;
    }
    assert n == |t.jobs| ==> t.jobs[..n] == t.jobs;
  }

  lemma PartStart(before: Memory, t: Tick, m: Memory)
    requires IsTick(t) && Synced(m) && m.states.Keys == before.states.Keys * Ids(t.jobs)
    requires forall id :: EntryOf(m, id) == if id in Ids(t.jobs) then EntryOf(before, id) else None
    ensures IsPartly(before, t, m, 0)
  {
    hide EntryOf, Synced, LookAt;
    assert Ids(t.jobs[..0]) == {};
  }

  /** The next job is still as it was. */
  lemma PartNext(before: Memory, t: Tick, m: Memory, i: nat)
    requires IsTick(t) && i < |t.jobs| && IsPartly(before, t, m, i)
    ensures Synced(m) && EntryOf(m, t.jobs[i].id) == EntryOf(before, t.jobs[i].id)
  {
    hide EntryOf, Synced, LookAt, Ids;
    IdsStep(t, i);
  }

  lemma PartStep(before: Memory, t: Tick, m: Memory, m': Memory, i: nat)
    requires IsTick(t) && i < |t.jobs| && IsPartly(before, t, m, i)
    requires Synced(m') && m'.states.Keys == m.states.Keys + {t.jobs[i].id}
    requires EntryOf(m', t.jobs[i].id) == Some(LookAt(EntryOf(m, t.jobs[i].id), t.moment, t.jobs[i], t.readings[i]))
    requires forall id :: id != t.jobs[i].id ==> EntryOf(m', id) == EntryOf(m, id)
    ensures IsPartly(before, t, m', i + 1)
  {
    hide EntryOf, Synced, LookAt, Ids;
    IdsStep(t, i);
    forall j | 0 <= j < i
      ensures t.jobs[j].id != t.jobs[i].id
    {
    }
  }

  lemma IdsStep(t: Tick, i: nat)
    requires IsTick(t) && i < |t.jobs|
    ensures Ids(t.jobs[..i + 1]) == Ids(t.jobs[..i]) + {t.jobs[i].id} && t.jobs[i].id !in Ids(t.jobs[..i])
    ensures t.jobs[i].id in Ids(t.jobs)
  {
    assert t.jobs[..i + 1] == t.jobs[..i] + [t.jobs[i]];
  }

  /** The runs created by the first `count` jobs of a tick: those that were due and did not conflict. */
  function StartedRuns(before: Memory, t: Tick, count: nat): seq<nat>
    requires count <= |t.jobs| == |t.readings|
  {
    if count == 0 then []
    else
      var job, reading := t.jobs[count - 1], t.readings[count - 1];
      StartedRuns(before, t, count - 1)
      + if IsDue(EntryOf(before, job.id), t.moment) && reading.creation.Started? then [reading.creation.run] else []
  }

  /** The runs a tick starts are those of the jobs it gets to that are due and whose creation goes through, one each. */
  lemma {:induction false} StartedRunsExactly(before: Memory, t: Tick, count: nat, run: nat)
    requires count <= |t.jobs| == |t.readings|
    ensures run in StartedRuns(before, t, count)
            <==> exists i :: 0 <= i < count && IsDue(EntryOf(before, t.jobs[i].id), t.moment)
                             && t.readings[i].creation == Started(run)
    ensures |StartedRuns(before, t, count)|
            == |set i | 0 <= i < count && IsDue(EntryOf(before, t.jobs[i].id), t.moment)
                        && t.readings[i].creation.Started?|
  {
    hide EntryOf, IsDue;
    if count > 0 {
      StartedRunsExactly(before, t, count - 1, run);
      var starts := set i | 0 <= i < count - 1 && IsDue(EntryOf(before, t.jobs[i].id), t.moment)
                            && t.readings[i].creation.Started?;
      var more := set i | 0 <= i < count && IsDue(EntryOf(before, t.jobs[i].id), t.moment)
                          && t.readings[i].creation.Started?;
      var last := IsDue(EntryOf(before, t.jobs[count - 1].id), t.moment) && t.readings[count - 1].creation.Started?;
      assert more == if last then starts + {count - 1} else starts;
    }
  }

  /** The tick ends at this job, if it gets there: the job is due and starting its cycle raises. */
  predicate Stops(before: Memory, t: Tick, i: nat)
    requires i < |t.jobs| == |t.readings|
  {
    IsDue(EntryOf(before, t.jobs[i].id), t.moment) && t.readings[i].creation.Raises?
  }

  /** How many jobs the tick looks at, from the i-th on. */
  function Reached(before: Memory, t: Tick, i: nat): (n: nat)
    requires i <= |t.jobs| == |t.readings|
    ensures i <= n <= |t.jobs|
    ensures forall j :: i <= j < n - 1 ==> !Stops(before, t, j)
    ensures n < |t.jobs| ==> n > i && Stops(before, t, n - 1)
    decreases |t.jobs| - i
  {
    if i == |t.jobs| then i else if Stops(before, t, i) then i + 1 else Reached(before, t, i + 1)
  }

  // ------------------------------------------------------------------ whole runs of one job

  /** A tick as one job sees it. */
  datatype Sight = Sight(moment: int, job: Job, reading: Reading)

  /** What the watcher remembers of a job it has been watching for these ticks, and not before. */
  function Watched(sights: seq<Sight>): Option<Entry> {
    if sights == [] then None
    else
      var last := sights[|sights| - 1];
      Some(LookAt(Watched(sights[..|sights| - 1]), last.moment, last.job, last.reading))
  }

  /** The k-th tick considered the job. */
  predicate Considered(sights: seq<Sight>, k: nat)
    requires k < |sights|
  {
    IsDue(Watched(sights[..k]), sights[k].moment)
  }

  /** Starting the cycle of the k-th tick raised. */
  predicate Raised(sights: seq<Sight>, k: nat)
    requires k < |sights|
  {
    Considered(sights, k) && sights[k].reading.creation.Raises?
  }

  /** The last of the first `n` ticks that considered the job. */
  function LastConsidered(sights: seq<Sight>, n: nat): (k: Option<nat>)
    requires n <= |sights|
    ensures k.Some? ==> k.value < n && Considered(sights, k.value)
    ensures forall j :: (if k.Some? then k.value + 1 else 0) <= j < n ==> !Considered(sights, j)
  {
    if n == 0 then None else if Considered(sights, n - 1) then Some(n - 1) else LastConsidered(sights, n - 1)
  }

  /** The last of the first `n` ticks that considered the job and did not raise. */
  function LastStarted(sights: seq<Sight>, n: nat): (k: Option<nat>)
    requires n <= |sights|
    ensures k.Some? ==> k.value < n && Considered(sights, k.value) && !Raised(sights, k.value)
    ensures forall j :: (if k.Some? then k.value + 1 else 0) <= j < n ==> !Considered(sights, j) || Raised(sights, j)
  {
    if n == 0 then None
    else if Considered(sights, n - 1) && !Raised(sights, n - 1) then Some(n - 1)
    else LastStarted(sights, n - 1)
  }

  /** A run of the job has finished since the clock at the tick that last considered it before the k-th. */
  predicate Changed(sights: seq<Sight>, k: nat)
    requires k < |sights|
  {
    match LastConsidered(sights, k)
    case None => false
    case Some(j) =>
      exists row :: row in sights[k].reading.rows
                    && EndedSince(sights[k].reading.rows, row, sights[k].job.id, sights[j].reading.clock)
  }

  /** The interval chosen by the k-th tick, or still in force then. */
  function IntervalAt(sights: seq<Sight>, k: nat): int
    requires k < |sights|
  {
    Watched(sights[..k + 1]).value.state.interval
  }

  lemma WatchedStep(sights: seq<Sight>, k: nat)
    requires k < |sights|
    ensures Watched(sights[..k + 1])
            == Some(LookAt(Watched(sights[..k]), sights[k].moment, sights[k].job, sights[k].reading))
  {
    assert sights[..k + 1][..k] == sights[..k];
  }

  /** Whatever the settings become, an interval lies between the bounds in force when it was chosen. */
  lemma IntervalWithinBounds(sights: seq<Sight>, k: nat)
    requires k < |sights| && Considered(sights, k)
    ensures 5 <= Floor(sights[k].job) <= IntervalAt(sights, k) <= Ceiling(sights[k].job)
  {
    WatchedStep(sights, k);
  }

  /** The time remembered for a job's last cycle is the clock at the tick that considered it last, whether or not its
      start raised; there is none exactly when no tick considered it. */
  lemma {:induction false} StartedExactly(sights: seq<Sight>, n: nat)
    requires 0 < n <= |sights|
    ensures Watched(sights[..n]).value.started
            == match LastConsidered(sights, n) case None => None case Some(k) => Some(sights[k].reading.clock)
  {
    hide ChangedSince, NextState;
    WatchedStep(sights, n - 1);
    if n > 1 {
      StartedExactly(sights, n - 1);
    } else {
      assert sights[..0] == [];
    }
  }

  lemma ChangedIsSeen(sights: seq<Sight>, k: nat)
    requires 0 < k < |sights|
    ensures Changed(sights, k)
            <==> ChangedSince(sights[k].reading.rows, sights[k].job.id, Watched(sights[..k]).value.started)
  {
    hide EndedSince, LookAt;
    StartedExactly(sights, k);
  }

  lemma {:induction false} DueExactly(sights: seq<Sight>, n: nat)
    requires 0 < n <= |sights|
    ensures Watched(sights[..n]).value.due
            == match LastStarted(sights, n)
               case None => sights[0].moment
               case Some(i) => sights[i].moment + IntervalAt(sights, i)
  {
    hide ChangedSince, NextState;
    WatchedStep(sights, n - 1);
    if n > 1 {
      DueExactly(sights, n - 1);
    } else {
      assert sights[..0] == [];
    }
  }

  /** A tick considers the job exactly when the interval chosen by the last cycle whose start did not raise is over;
      before there is any, exactly from the moment of the first tick on. */
  lemma ConsideredExactly(sights: seq<Sight>, k: nat)
    requires k < |sights|
    ensures Considered(sights, k)
            <==> match LastStarted(sights, k)
                 case None => sights[k].moment >= sights[0].moment
                 case Some(i) => sights[k].moment >= sights[i].moment + IntervalAt(sights, i)
  {
    hide LookAt, IntervalAt;
    if k > 0 {
      DueExactly(sights, k);
    } else {
      assert sights[..0] == [];
    }
  }

  /** The interval a considered tick chooses, whatever was edited since the one before: the floor after a change, and
      otherwise twice the last one, within the bounds in force. */
  lemma IntervalFollows(sights: seq<Sight>, k: nat)
    requires k < |sights| && Considered(sights, k)
    ensures var job, before := sights[k].job, if k > 0 then IntervalAt(sights, k - 1) else Floor(sights[k].job);
            var wanted := if Changed(sights, k) then Floor(job) else 2 * before;
            IntervalAt(sights, k)
            == if wanted < Floor(job) then Floor(job) else if wanted > Ceiling(job) then Ceiling(job) else wanted
  {
    hide EndedSince;
    WatchedStep(sights, k);
    if k > 0 {
      ChangedIsSeen(sights, k);
      WatchedStep(sights, k - 1);
    } else {
      assert sights[..0] == [];
    }
  }

  /** Once considered, a job is not due before its interval is over, however often it is considered after that. */
  lemma {:induction false} DueAfter(sights: seq<Sight>, i: nat, j: nat)
    requires i < j <= |sights| && Considered(sights, i) && !Raised(sights, i)
    ensures Watched(sights[..j]).value.due >= sights[i].moment + IntervalAt(sights, i)
    decreases j
  {
    WatchedStep(sights, j - 1);
    if j > i + 1 {
      DueAfter(sights, i, j - 1);
      if Considered(sights, j - 1) { IntervalWithinBounds(sights, j - 1); }
    }
  }

  /** Two considered cycles of a continuously watched job are at least the first one's interval apart, so never
      less than five seconds, unless starting the first one raised; no assumption is made on how the clock runs. */
  lemma CyclesAreSpaced(sights: seq<Sight>, i: nat, j: nat)
    requires i < j < |sights| && Considered(sights, i) && Considered(sights, j) && !Raised(sights, i)
    ensures sights[j].moment >= sights[i].moment + IntervalAt(sights, i) >= sights[i].moment + 5
  {
    DueAfter(sights, i, j);
    IntervalWithinBounds(sights, i);
  }

  /** A job is looked at again at once, exactly when starting its cycle raised: with a clock that does not go back, the
      next tick that gets to it considers it before its interval is over only then. */
  lemma OnlyRaisingRetries(sights: seq<Sight>, i: nat)
    requires i + 1 < |sights| && Considered(sights, i)
    requires sights[i].moment <= sights[i + 1].moment < sights[i].moment + IntervalAt(sights, i)
    ensures Considered(sights, i + 1) <==> Raised(sights, i)
  {
    WatchedStep(sights, i);
  }

  function Power2(k: nat): (p: nat)
    ensures p >= 1
  {
    if k == 0 then 1 else 2 * Power2(k - 1)
  }

  /** How many considered cycles in a row, up to the last, changed nothing. */
  function QuietInARow(sights: seq<Sight>): nat {
    if sights == [] then 0
    else
      var k := |sights| - 1;
      if !Considered(sights, k) then QuietInARow(sights[..k])
      else if Changed(sights, k) then 0
      else 1 + QuietInARow(sights[..k])
  }

  /** With fixed settings the interval is the floor doubled once per quiet cycle since the last change, and never
      more than the ceiling. */
  lemma {:induction false} BackoffIsExponential(sights: seq<Sight>, job: Job)
    requires sights != [] && forall k :: 0 <= k < |sights| ==> sights[k].job == job
    ensures var quiet := QuietInARow(sights);
            Watched(sights).value.state == WatchState(Min(Ceiling(job), Floor(job) * Power2(quiet)), quiet)
    decreases |sights|
  {
    var k := |sights| - 1;
    assert sights[..k + 1] == sights;
    if k > 0 {
      assert forall j :: 0 <= j < k ==> sights[..k][j] == sights[j];
      BackoffIsExponential(sights[..k], job);
      ChangedIsSeen(sights, k);
      Doubled(job, QuietInARow(sights[..k]));
    } else {
      assert sights[..k] == [];
      Doubled(job, 0);
    }
  }

  lemma Doubled(job: Job, k: nat)
    ensures var now := Min(Ceiling(job), Floor(job) * Power2(k));
            Min(Ceiling(job), Max(Floor(job), now * 2)) == Min(Ceiling(job), Floor(job) * Power2(k + 1))
    ensures Min(Ceiling(job), Floor(job) * Power2(0)) == Floor(job)
  {
    assert Floor(job) * Power2(k + 1) == 2 * (Floor(job) * Power2(k));
    assert Floor(job) * Power2(k) >= Floor(job);
  }

  // ------------------------------------------------------------------ whole runs of the watcher

  /** A tick on values, when it has looked at the first `n` of its jobs. */
  ghost predicate IsPartly(before: Memory, t: Tick, after: Memory, n: nat) {
    && Synced(after) && n <= |t.jobs| == |t.readings|
    && after.states.Keys == before.states.Keys * Ids(t.jobs) + Ids(t.jobs[..n])
    && (forall id :: id in Ids(t.jobs) && id !in Ids(t.jobs[..n]) ==> EntryOf(after, id) == EntryOf(before, id))
    && forall i :: 0 <= i < n ==>
         EntryOf(after, t.jobs[i].id)
         == Some(LookAt(EntryOf(before, t.jobs[i].id), t.moment, t.jobs[i], t.readings[i]))
  }

  /** What `DoTick` promises, for every job at once. */
  ghost predicate IsAfter(before: Memory, t: Tick, after: Memory) {
    |t.readings| == |t.jobs| && IsPartly(before, t, after, Reached(before, t, 0))
  }

  /** The memories of a whole run, one more than its ticks. */
  ghost predicate IsRun(ticks: seq<Tick>, memories: seq<Memory>) {
    && |memories| == |ticks| + 1 && memories[0] == Memory(map[], map[], map[])
    && forall k :: 0 <= k < |ticks| ==> IsTick(ticks[k]) && IsAfter(memories[k], ticks[k], memories[k + 1])
  }

  /** What the ticks from the first to the last that got to the job are to it. */
  ghost function SightsOf(ticks: seq<Tick>, memories: seq<Memory>, id: int, first: nat, last: nat): seq<Sight>
    requires IsRun(ticks, memories) && first <= last <= |ticks|
    decreases last
  {
    if first == last then []
    else
      var k := last - 1;
      SightsOf(ticks, memories, id, first, k) + SightIn(memories[k], ticks[k], id)
  }

  ghost function SightIn(before: Memory, t: Tick, id: int): seq<Sight>
    requires |t.readings| == |t.jobs|
  {
    if exists i :: 0 <= i < Reached(before, t, 0) && t.jobs[i].id == id then
      var i :| 0 <= i < Reached(before, t, 0) && t.jobs[i].id == id;
      [Sight(t.moment, t.jobs[i], t.readings[i])]
    else []
  }

  /** One more tick that lists the job, in both machines. */
  lemma IndependentStep(before: Memory, t: Tick, after: Memory, id: int, sights: seq<Sight>)
    requires IsTick(t) && IsAfter(before, t, after) && id in Ids(t.jobs)
    requires EntryOf(before, id) == Watched(sights)
    ensures EntryOf(after, id) == Watched(sights + SightIn(before, t, id))
  {
    hide LookAt, EntryOf, Synced, Reached;
    var n := Reached(before, t, 0);
    var seen := SightIn(before, t, id);
    IdsAreOfJobs(t, n, id);
    if seen == [] {
      assert sights + [] == sights;
    } else {
      assert (sights + seen)[..|sights|] == sights;
    }
  }

  lemma IdsAreOfJobs(t: Tick, n: nat, id: int)
    requires n <= |t.jobs|
    ensures id in Ids(t.jobs[..n]) <==> exists i :: 0 <= i < n && t.jobs[i].id == id
  {
    if id in Ids(t.jobs[..n]) {
      var j :| j in t.jobs[..n] && j.id == id;
      var i :| 0 <= i < n && t.jobs[..n][i] == j;
      assert t.jobs[i].id == id;
    }
    if i :| 0 <= i < n && t.jobs[i].id == id {
      assert t.jobs[..n][i] == t.jobs[i];
    }
  }

  /** A job's entry is the one it would have if it were watched alone: from the tick it appears in, whatever happened
      before that and whatever happens to other jobs, save that a tick one of them ends is not seen. In particular a job
      switched off and on again starts afresh. */
  lemma {:induction false} JobsAreIndependent(ticks: seq<Tick>, memories: seq<Memory>, id: int, first: nat, last: nat)
    requires IsRun(ticks, memories) && first <= last <= |ticks|
    requires id !in memories[first].states
    requires forall k :: first <= k < last ==> id in Ids(ticks[k].jobs)
    ensures EntryOf(memories[last], id) == Watched(SightsOf(ticks, memories, id, first, last))
    decreases last
  {
    hide LookAt, IsTick, IsAfter, Ids;
    if first < last {
      var k := last - 1;
      JobsAreIndependent(ticks, memories, id, first, k);
      IndependentStep(memories[k], ticks[k], memories[k + 1], id, SightsOf(ticks, memories, id, first, k));
    }
  }

  // ------------------------------------------------------------------ a surviving run means a change

  /** A step that ends no run of this job, and takes none out that has ended since: history pruning spares a job's
      newest finished row. */
  predicate Elsewhere(rows: Rows, op: Op, job: int, since: int) {
    match op
    case Create(_, _) => true
    case Fire(other, _, _, _) => other != job
    case Start(_) => true
    case Finish(run, _) => run !in rows || rows[run].job != job
    case Cancel(_) => true
    case PruneQuiet(run, _) => run !in rows || rows[run].job != job
    case PruneHistory(keep) =>
      keep >= 1 && forall k :: k in rows && EndedSince(rows, k, job, since) ==> NewerFinished(rows, k) == {}
    case Restart(_) => false
    case DeleteJob(other, _) => other != job
  }

  ghost predicate AllElsewhere(rows: Rows, ops: seq<Op>, job: int, since: int)
    decreases ops
  {
    || ops == []
    || (&& Proper(rows, ops[0]) && Elsewhere(rows, ops[0], job, since)
        && AllElsewhere(Apply(rows, ops[0]), ops[1..], job, since))
  }

  /** Every finished run of the job, if any, is this one or older. */
  ghost predicate OnlySince(rows: Rows, job: int, since: int, run: nat) {
    forall k :: k in rows && EndedSince(rows, k, job, since) ==> k == run
  }

  /** Such a step leaves the runs of the job that have ended since as they are. */
  lemma StepKeepsAnswer(rows: Rows, op: Op, job: int, since: int)
    requires Proper(rows, op) && Elsewhere(rows, op, job, since)
    ensures ChangedSince(Apply(rows, op), job, Some(since)) <==> ChangedSince(rows, job, Some(since))
  {
    hide Unique;
    EndedStay(rows, op, job, since);
  }

  lemma EndedStay(rows: Rows, op: Op, job: int, since: int)
    requires Proper(rows, op) && Elsewhere(rows, op, job, since)
    ensures forall k :: EndedSince(Apply(rows, op), k, job, since) <==> EndedSince(rows, k, job, since)
  {
    hide Unique;
  }

  lemma {:induction false} StepsKeepAnswer(rows: Rows, ops: seq<Op>, job: int, since: int)
    requires Unique(rows) && AllElsewhere(rows, ops, job, since)
    ensures ChangedSince(Exec(rows, ops), job, Some(since)) <==> ChangedSince(rows, job, Some(since))
    decreases ops
  {
    hide Unique, Apply, ChangedSince, Elsewhere, Proper;
    if ops != [] {
      StepKeepsAnswer(rows, ops[0], job, since);
      ApplyKeepsUnique(rows, ops[0]);
      StepsKeepAnswer(Apply(rows, ops[0]), ops[1..], job, since);
    }
  }

  /** A cycle that was started at `since` and whose run has ended counts as changed exactly when its run is worth
      keeping, which is exactly when the runner left its row in the table; whatever happens to other jobs meanwhile,
      and as long as no other run of the job has ended since. */
  lemma ChangedExactlyWhenKept(rows: Rows, job: int, run: nat, since: int, e: Ending, later: seq<Op>)
    requires Unique(rows) && run in rows && rows[run].job == job && OnlySince(rows, job, since, run)
    requires !IsActive(e.status) && e.at >= since
    requires var pruned := Apply(Apply(rows, Finish(run, e)), PruneQuiet(run, true));
             AllElsewhere(pruned, later, job, since)
    ensures var pruned := Apply(Apply(rows, Finish(run, e)), PruneQuiet(run, true));
            && (run in pruned <==> ShouldKeep(Ended(rows[run], e)))
            && (ChangedSince(Exec(pruned, later), job, Some(since)) <==> ShouldKeep(Ended(rows[run], e)))
  {
    hide Unique;
    var finished := Apply(rows, Finish(run, e));
    OnlyCreateAndStartCanFail(rows, Finish(run, e));
    ApplyKeepsUnique(rows, Finish(run, e));
    OnlyCreateAndStartCanFail(finished, PruneQuiet(run, true));
    ApplyKeepsUnique(finished, PruneQuiet(run, true));
    var pruned := Apply(finished, PruneQuiet(run, true));
    StepsKeepAnswer(pruned, later, job, since);
    if ShouldKeep(Ended(rows[run], e)) {
      assert pruned[run] == Ended(rows[run], e);
    }
  }

  /** A cycle still at work when its job is looked at again counts as quiet, so a long cycle widens the interval. */
  lemma UnfinishedCountsAsQuiet(rows: Rows, job: int, run: nat, since: int)
    requires run in rows && rows[run].finishedAt.None? && OnlySince(rows, job, since, run)
    ensures !ChangedSince(rows, job, Some(since))
  {
  }
}

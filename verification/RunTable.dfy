/** The table of runs and everything that writes to it: creating, firing, starting, finishing, cancelling,
    pruning and restarting (app/models/job.py, app/jobs/planner.py, app/jobs/scheduler.py, app/jobs/watcher.py,
    app/jobs/runner.py, app/jobs/retention.py, app/main.py). A commit fails when it would break the partial
    unique index on active runs. */
module RunTable {
  import opened Wrappers

  datatype Status = Queued | Running | Success | Failed | Cancelled | Skipped

  predicate IsActive(s: Status) { s == Queued || s == Running }

  /** A run. Times are seconds. */
  datatype Row = Row(job: int, status: Status, finishedAt: Option<int>, transferred: nat, deleted: nat, errors: nat)

  type Rows = map<nat, Row>

  /** The index `uq_job_run_active_per_job`. */
  predicate Unique(rows: Rows) {
    forall i, j :: i in rows && j in rows && i != j && rows[i].job == rows[j].job
                   ==> !IsActive(rows[i].status) || !IsActive(rows[j].status)
  }

  predicate HasActive(rows: Rows, job: int) {
    exists i :: i in rows && rows[i].job == job && IsActive(rows[i].status)
  }

  /** SQLite's choice for a new row: one above the greatest id in the table. */
  ghost predicate IsNewId(rows: Rows, id: nat) {
    && id > 0
    && (forall k :: k in rows ==> k < id)
    && (id == 1 || id - 1 in rows)
  }

  /** A commit that goes through, or is rolled back. */
  function Commit(before: Rows, after: Rows): Rows {
    if Unique(after) then after else before
  }

  // ------------------------------------------------------------------ the operations

  /** What a run's end writes. */
  datatype Ending = Ending(status: Status, at: int, transferred: nat, deleted: nat, errors: nat)

  /** `id` is the key the database picks for an inserted row. */
  datatype Op =
    | Create(job: int, id: nat)
    | Fire(job: int, enabled: bool, id: nat, at: int)
    | Start(run: nat)
    | Finish(run: nat, ending: Ending)
    | Cancel(run: nat)
    | PruneQuiet(run: nat, continuous: bool)
    | PruneHistory(keep: nat)
    | Restart(at: int)
    | DeleteJob(job: int, checked: bool)

  function NewRun(job: int): Row { Row(job, Queued, None, 0, 0, 0) }

  function SkippedRun(job: int, at: int): Row { Row(job, Skipped, Some(at), 0, 0, 0) }

  function WithStatus(rows: Rows, run: nat, status: Status): Rows
    requires run in rows
  {
    rows[run := rows[run].(status := status)]
  }

  function Ended(row: Row, e: Ending): Row {
    Row(row.job, e.status, Some(e.at), e.transferred, e.deleted, e.errors)
  }

  /** A continuous cycle that succeeded and moved nothing. */
  predicate IsQuiet(row: Row, continuous: bool) {
    continuous && row.status == Success && row.transferred == 0 && row.deleted == 0 && row.errors == 0
  }

  /** The finished rows of the same job that are newer than `run`. */
  function NewerFinished(rows: Rows, run: nat): set<nat>
    requires run in rows
  {
    set k | k in rows && k > run && rows[k].job == rows[run].job && !IsActive(rows[k].status)
  }

  predicate Kept(rows: Rows, run: nat, keep: nat)
    requires run in rows
  {
    IsActive(rows[run].status) || |NewerFinished(rows, run)| < keep
  }

  function Interrupted(row: Row, at: int): Row {
    if IsActive(row.status)
    then row.(status := Failed, finishedAt := Some(at), errors := if row.errors < 1 then 1 else row.errors)
    else row
  }

  function Apply(rows: Rows, op: Op): Rows {
    match op
    case Create(job, id) => Commit(rows, rows[id := NewRun(job)])
    case Fire(job, enabled, id, at) =>
      if !enabled then rows
      else if Unique(rows[id := NewRun(job)]) then rows[id := NewRun(job)]
      else Commit(rows, rows[id := SkippedRun(job, at)])
    case Start(run) => if run !in rows then rows else Commit(rows, WithStatus(rows, run, Running))
    case Finish(run, e) => if run !in rows then rows else Commit(rows, rows[run := Ended(rows[run], e)])
    case Cancel(run) =>
      if run !in rows || !IsActive(rows[run].status) then rows else Commit(rows, WithStatus(rows, run, Cancelled))
    case PruneQuiet(run, continuous) =>
      if run in rows && IsQuiet(rows[run], continuous) then Commit(rows, rows - {run}) else rows
    case PruneHistory(keep) => Commit(rows, map k | k in rows && Kept(rows, k, keep) :: rows[k])
    case Restart(at) => Commit(rows, map k | k in rows :: Interrupted(rows[k], at))
    case DeleteJob(job, checked) =>
      if checked && HasActive(rows, job) then rows else Commit(rows, map k | k in rows && rows[k].job != job :: rows[k])
  }

  /** The database picks fresh ids, and a run's end is a final state. */
  ghost predicate Proper(rows: Rows, op: Op) {
    && (op.Create? || op.Fire? ==> IsNewId(rows, op.id))
    && (op.Finish? ==> !IsActive(op.ending.status))
  }

  /** No worker has a run that was skipped, and none ends as one. */
  predicate ProperWorker(rows: Rows, op: Op) {
    && (op.Finish? ==> op.ending.status != Skipped)
    && (op.Start? || op.Finish? ==> op.run in rows ==> rows[op.run].status != Skipped)
  }

  ghost predicate ProperRun(rows: Rows, ops: seq<Op>)
    decreases ops
  {
    ops == [] || (Proper(rows, ops[0]) && ProperWorker(rows, ops[0]) && ProperRun(Apply(rows, ops[0]), ops[1..]))
  }

  function Exec(rows: Rows, ops: seq<Op>): Rows
    decreases ops
  {
    if ops == [] then rows else Exec(Apply(rows, ops[0]), ops[1..])
  }

  // ------------------------------------------------------------------ the table

  class Table {
    var rows: Rows

    constructor ()
      ensures rows == map[]
    {
      rows := map[];
    }

    method NewId() returns (id: nat)
      ensures IsNewId(rows, id)
    {
      id := 1;
      var left := rows.Keys;
      while exists k :: k in left
        invariant left <= rows.Keys && id > 0
        invariant forall k :: k in rows && k !in left ==> k < id
        invariant id == 1 || id - 1 in rows
        decreases left
      {
        var k :| k in left;
        if k >= id {
          id := k + 1;
        }
        left := left - {k};
      }
    }

    /** `planner.create_run`: a queued run, or a conflict. */
    method CreateRun(job: int) returns (id: nat, conflict: bool)
      modifies this
      ensures IsNewId(old(rows), id)
      ensures rows == Apply(old(rows), Create(job, id))
      ensures conflict <==> id !in rows
      ensures rows == if conflict then old(rows) else old(rows)[id := Row(job, Queued, None, 0, 0, 0)]
      ensures Unique(old(rows)) ==> (conflict <==> HasActive(old(rows), job))
    {
      id := NewId();
      if Unique(rows) { CreateConflictsExactly(rows, job, id); }
      var attempt := rows[id := NewRun(job)];
      conflict := !Unique(attempt);
      if !conflict {
        rows := attempt;
      }
    }

    /** `scheduler._fire`: a collision is recorded as a skipped run. */
    method FireJob(job: int, enabled: bool, at: int) returns (id: nat, started: bool)
      modifies this
      ensures IsNewId(old(rows), id)
      ensures Unique(old(rows)) ==> rows == Apply(old(rows), Fire(job, enabled, id, at))
      ensures started <==> enabled && id in rows && rows[id].status == Queued
      ensures rows == if !enabled then old(rows)
                      else old(rows)[id := if started then Row(job, Queued, None, 0, 0, 0)
                                           else Row(job, Skipped, Some(at), 0, 0, 0)]
      ensures Unique(old(rows)) && enabled ==> (started <==> !HasActive(old(rows), job))
    {
      var conflict: bool;
      if !enabled {
        id := NewId();
        return id, false;
      }
      id, conflict := CreateRun(job);
      started := !conflict;
      if conflict {
        var skippedId := NewId();
        assert skippedId == id;
        InsertFinishedUnique(rows, id, SkippedRun(job, at));
        rows := rows[id := SkippedRun(job, at)];
      }
    }

    /** The worker's first commit. False when the index refuses it, which nothing in the worker expects. */
    method StartRun(run: nat) returns (ok: bool)
      modifies this
      ensures rows == Apply(old(rows), Start(run))
      ensures ok <==> run in old(rows) && Unique(WithStatus(old(rows), run, Running))
      ensures rows == if ok then old(rows)[run := old(rows)[run].(status := Running)] else old(rows)
    {
      ok := run in rows && Unique(WithStatus(rows, run, Running));
      if ok {
        rows := WithStatus(rows, run, Running);
      }
    }

    method FinishRun(run: nat, e: Ending)
      requires !IsActive(e.status)
      modifies this
      ensures Unique(old(rows)) ==> rows == Apply(old(rows), Finish(run, e))
      ensures rows == if run in old(rows)
                      then old(rows)[run := Row(old(rows)[run].job, e.status, Some(e.at), e.transferred, e.deleted,
                                                e.errors)]
                      else old(rows)
    {
      if run in rows {
        InsertFinishedUnique(rows, run, Ended(rows[run], e));
        rows := rows[run := Ended(rows[run], e)];
      }
    }

    method CancelRun(run: nat) returns (cancelled: bool)
      modifies this
      ensures Unique(old(rows)) ==> rows == Apply(old(rows), Cancel(run))
      ensures cancelled <==> run in old(rows) && old(rows)[run].status in {Queued, Running}
      ensures rows == if cancelled then old(rows)[run := old(rows)[run].(status := Cancelled)] else old(rows)
    {
      cancelled := run in rows && IsActive(rows[run].status);
      if cancelled {
        InsertFinishedUnique(rows, run, rows[run].(status := Cancelled));
        rows := WithStatus(rows, run, Cancelled);
      }
    }

    method PruneQuietCycle(run: nat, continuous: bool) returns (pruned: bool)
      modifies this
      ensures Unique(old(rows)) ==> rows == Apply(old(rows), PruneQuiet(run, continuous))
      ensures pruned <==> && continuous && run in old(rows) && old(rows)[run].status == Success
                          && old(rows)[run].transferred == old(rows)[run].deleted == old(rows)[run].errors == 0
      ensures rows == if pruned then old(rows) - {run} else old(rows)
    {
      pruned := run in rows && IsQuiet(rows[run], continuous);
      if pruned {
        rows := rows - {run};
      }
    }

    /** `retention.prune_runs`: per job, every finished run behind the newest `keep`. */
    method PruneRuns(keep: nat) returns (removed: nat)
      modifies this
      ensures Unique(old(rows)) ==> rows == Apply(old(rows), PruneHistory(keep))
      ensures removed == |old(rows)| - |rows|
    {
      hide Unique, Kept;
      var before := rows;
      var jobs := set k | k in rows :: rows[k].job;
      ghost var done: set<int> := {};
      removed := 0;
      while exists j :: j in jobs
        invariant jobs !! done
        invariant forall k :: k in before ==> before[k].job in jobs || before[k].job in done
        invariant rows == PrunedIn(before, done, keep)
        invariant removed == |before| - |rows|
        decreases jobs
      {
        var j :| j in jobs;
        var doomed := Doomed(j, keep);
        PruneOneMore(before, done, j, keep, doomed);
        MapMinusSize(rows, doomed);
        rows := rows - doomed;
        removed := removed + |doomed|;
        jobs := jobs - {j};
        done := done + {j};
      }
      assert rows == map k | k in before && Kept(before, k, keep) :: before[k];
      if Unique(before) { SubsetUnique(before, rows); }
    }

    /** The ids `order_by(id desc).offset(keep)` returns for one job. */
    method Doomed(job: int, keep: nat) returns (doomed: set<nat>)
      ensures forall k :: k in doomed <==> k in rows && rows[k].job == job && !Kept(rows, k, keep)
    {
      var finished := Finished(rows, job);
      var ids := Descending(finished);
      doomed := if keep < |ids| then Elements(ids[keep..]) else {};
      forall k | k in finished
        ensures k in doomed <==> !Kept(rows, k, keep)
      {
        var i :| 0 <= i < |ids| && ids[i] == k;
        RankInOrder(ids, finished, i);
        assert NewerFinished(rows, k) == Above(finished, k);
        OffsetHolds(ids, keep, i);
      }
    }

    /** Removing a job takes its history with it. The form refuses while a run is in flight, the API does not. */
    method RemoveJob(job: int, checked: bool) returns (removed: bool)
      modifies this
      ensures Unique(old(rows)) ==> rows == Apply(old(rows), DeleteJob(job, checked))
      ensures removed <==> !checked || !HasActive(old(rows), job)
      ensures !removed ==> rows == old(rows)
      ensures removed ==> forall k :: k in rows <==> k in old(rows) && old(rows)[k].job != job
      ensures forall k :: k in rows ==> k in old(rows) && rows[k] == old(rows)[k]
    {
      removed := !checked || !HasActive(rows, job);
      if removed {
        if Unique(rows) { SubsetUnique(rows, map k | k in rows && rows[k].job != job :: rows[k]); }
        rows := map k | k in rows && rows[k].job != job :: rows[k];
      }
    }

    method ReleaseInterrupted(at: int)
      modifies this
      ensures Unique(old(rows)) ==> rows == Apply(old(rows), Restart(at))
      ensures rows.Keys == old(rows).Keys
      ensures forall k :: k in rows ==>
                var was, now := old(rows)[k], rows[k];
                if was.status in {Queued, Running} then
                  && now.status == Failed && now.finishedAt == Some(at) && now.errors >= 1 && now.errors >= was.errors
                  && (was.errors >= 1 ==> now.errors == was.errors) && (was.errors == 0 ==> now.errors == 1)
                  && now.job == was.job && now.transferred == was.transferred && now.deleted == was.deleted
                else now == was
    {
      var left := rows.Keys;
      var before := rows;
      while exists k :: k in left
        invariant left <= before.Keys && rows.Keys == before.Keys
        invariant forall k :: k in rows ==> rows[k] == if k in left then before[k] else Interrupted(before[k], at)
        decreases left
      {
        var k :| k in left;
        if IsActive(rows[k].status) {
          rows := rows[k := rows[k].(status := Failed, finishedAt := Some(at),
                                     errors := if rows[k].errors < 1 then 1 else rows[k].errors)];
        }
        left := left - {k};
      }
    }
  }

  predicate StrictlyDescending(s: seq<nat>) {
    forall i, j :: 0 <= i < j < |s| ==> s[i] > s[j]
  }

  method Descending(items: set<nat>) returns (r: seq<nat>)
    ensures StrictlyDescending(r) && forall x :: x in r <==> x in items
  {
    r := [];
    var left := items;
    while exists x :: x in left
      invariant left <= items && StrictlyDescending(r)
      invariant forall x :: x in r <==> x in items - left
      decreases left
    {
      var x :| x in left;
      r := Inserted(r, x);
      left := left - {x};
    }
  }

  method Inserted(s: seq<nat>, x: nat) returns (r: seq<nat>)
    requires StrictlyDescending(s) && x !in s
    ensures StrictlyDescending(r) && forall y :: y in r <==> y in s || y == x
  {
    var i := 0;
    while i < |s| && s[i] > x
      invariant 0 <= i <= |s|
      invariant forall k :: 0 <= k < i ==> s[k] > x
    {
      i := i + 1;
    }
    InsertDescending(s, i, x);
    r := s[..i] + [x] + s[i..];
  }

  lemma InsertDescending(s: seq<nat>, i: nat, x: nat)
    requires StrictlyDescending(s) && i <= |s| && x !in s
    requires (forall k :: 0 <= k < i ==> s[k] > x) && (i < |s| ==> s[i] <= x)
    ensures var r := s[..i] + [x] + s[i..];
            StrictlyDescending(r) && forall y :: y in r <==> y in s || y == x
  {
    InsertMembers(s, i, x);
    InsertOrder(s, i, x);
  }

  lemma InsertMembers(s: seq<nat>, i: nat, x: nat)
    requires i <= |s|
    ensures forall y :: y in s[..i] + [x] + s[i..] <==> y in s || y == x
  {
    assert s == s[..i] + s[i..];
  }

  lemma InsertOrder(s: seq<nat>, i: nat, x: nat)
    requires StrictlyDescending(s) && i <= |s| && x !in s
    requires (forall k :: 0 <= k < i ==> s[k] > x) && (i < |s| ==> s[i] <= x)
    ensures StrictlyDescending(s[..i] + [x] + s[i..])
  {
    assert i < |s| ==> s[i] in s;
    var r := s[..i] + [x] + s[i..];
    forall j, k | 0 <= j < k < |r|
      ensures r[j] > r[k]
    {
      assert r[j] == if j < i then s[j] else if j == i then x else s[j - 1];
      assert r[k] == if k < i then s[k] else if k == i then x else s[k - 1];
    }
  }

  function Elements(s: seq<nat>): set<nat> {
    set k: nat | k in s
  }

  lemma {:induction false} DistinctSize(s: seq<nat>)
    requires StrictlyDescending(s)
    ensures |Elements(s)| == |s|
  {
    if s == [] {
      assert Elements(s) == {};
    } else {
      var init, last := s[..|s| - 1], s[|s| - 1];
      DistinctSize(init);
      assert s == init + [last];
      assert last !in init;
      assert Elements(s) == Elements(init) + {last};
    }
  }

  /** An element's position in the descending order is the number of greater ones. */
  lemma RankInOrder(ids: seq<nat>, items: set<nat>, i: nat)
    requires StrictlyDescending(ids) && (forall x :: x in ids <==> x in items) && i < |ids|
    ensures |Above(items, ids[i])| == i
  {
    DistinctSize(ids[..i]);
    assert forall k :: k in ids[..i] ==> k in ids && k > ids[i];
    forall k | k in Above(items, ids[i])
      ensures k in ids[..i]
    {
      var j :| 0 <= j < |ids| && ids[j] == k;
      assert j < i;
      assert ids[..i][j] == k;
    }
    assert Above(items, ids[i]) == Elements(ids[..i]);
  }

  lemma OffsetHolds(ids: seq<nat>, keep: nat, i: nat)
    requires StrictlyDescending(ids) && i < |ids|
    ensures keep < |ids| ==> (ids[i] in Elements(ids[keep..]) <==> i >= keep)
  {
    if keep < |ids| && i >= keep {
      assert ids[keep..][i - keep] == ids[i];
    }
  }

  lemma MapMinusSize(rows: Rows, gone: set<nat>)
    requires gone <= rows.Keys
    ensures |rows - gone| == |rows| - |gone|
  {
    assert (rows - gone).Keys == rows.Keys - gone;
    assert |rows.Keys| == |rows.Keys - gone| + |gone| by {
      assert rows.Keys == (rows.Keys - gone) + gone;
    }
  }

  /** The table with the jobs in `done` pruned. */
  function PrunedIn(before: Rows, done: set<int>, keep: nat): Rows {
    map k | k in before && (before[k].job !in done || Kept(before, k, keep)) :: before[k]
  }

  /** Pruning other jobs first does not change what is pruned of one job. */
  lemma PruneOneMore(before: Rows, done: set<int>, job: int, keep: nat, doomed: set<nat>)
    requires job !in done
    requires var rows := PrunedIn(before, done, keep);
             forall k :: k in doomed <==> k in rows && rows[k].job == job && !Kept(rows, k, keep)
    ensures PrunedIn(before, done, keep) - doomed == PrunedIn(before, done + {job}, keep)
    ensures doomed <= PrunedIn(before, done, keep).Keys
  {
    var rows := PrunedIn(before, done, keep);
    forall k | k in rows && rows[k].job == job
      ensures Kept(rows, k, keep) == Kept(before, k, keep)
    {
      assert NewerFinished(rows, k) == NewerFinished(before, k);
    }
  }

  lemma SubsetUnique(rows: Rows, part: Rows)
    requires Unique(rows) && forall k :: k in part ==> k in rows && part[k] == rows[k]
    ensures Unique(part)
  {
  }

  /** A row in a final state never conflicts. */
  lemma InsertFinishedUnique(rows: Rows, run: nat, row: Row)
    requires !IsActive(row.status)
    ensures Unique(rows) ==> Unique(rows[run := row])
  {
  }

  // ------------------------------------------------------------------ what every history keeps

  lemma ApplyKeepsUnique(rows: Rows, op: Op)
    requires Unique(rows)
    ensures Unique(Apply(rows, op))
  {
  }

  /** Whatever is done to the table in whatever order, a job has at most one queued or running row. */
  lemma {:induction false} AtMostOneActive(rows: Rows, ops: seq<Op>)
    requires Unique(rows)
    ensures Unique(Exec(rows, ops))
    decreases ops
  {
    if ops != [] {
      ApplyKeepsUnique(rows, ops[0]);
      AtMostOneActive(Apply(rows, ops[0]), ops[1..]);
    }
  }

  /** Only creating a run and starting one can be refused by the index: every other write goes through. */
  lemma OnlyCreateAndStartCanFail(rows: Rows, op: Op)
    requires Unique(rows) && Proper(rows, op)
    ensures op.Fire? && op.enabled ==> Apply(rows, op) == rows[op.id := Apply(rows, op)[op.id]]
                                       && op.id in Apply(rows, op)
    ensures op.Finish? && op.run in rows ==> Apply(rows, op) == rows[op.run := Ended(rows[op.run], op.ending)]
    ensures op.Cancel? && op.run in rows && IsActive(rows[op.run].status) ==>
              Apply(rows, op) == WithStatus(rows, op.run, Cancelled)
    ensures op.PruneQuiet? && op.run in rows && IsQuiet(rows[op.run], op.continuous)
            ==> Apply(rows, op) == rows - {op.run}
    ensures op.PruneHistory? ==> Apply(rows, op) == map k | k in rows && Kept(rows, k, op.keep) :: rows[k]
    ensures op.Restart? ==> Apply(rows, op) == map k | k in rows :: Interrupted(rows[k], op.at)
    ensures op.DeleteJob? && (op.checked ==> !HasActive(rows, op.job)) ==>
              Apply(rows, op) == map k | k in rows && rows[k].job != op.job :: rows[k]
  {
    match op
    case Fire(job, enabled, id, at) => InsertFinishedUnique(rows, id, SkippedRun(job, at));
    case Finish(run, e) => if run in rows { InsertFinishedUnique(rows, run, Ended(rows[run], e)); }
    case Cancel(run) => if run in rows { InsertFinishedUnique(rows, run, rows[run].(status := Cancelled)); }
    case _ =>
  }

  /** Creating a run conflicts exactly when the job has an active run. */
  lemma CreateConflictsExactly(rows: Rows, job: int, id: nat)
    requires Unique(rows) && IsNewId(rows, id)
    ensures Unique(rows[id := NewRun(job)]) <==> !HasActive(rows, job)
  {
    var after := rows[id := NewRun(job)];
    if HasActive(rows, job) {
      var i :| i in rows && rows[i].job == job && IsActive(rows[i].status);
      assert i != id && after[i] == rows[i] && after[id].job == job;
    }
  }

  /** A worker's start is refused exactly when its row is no longer active, as after a cancel, and the job has
      got another active run meanwhile. */
  lemma StartFailsExactly(rows: Rows, run: nat)
    requires Unique(rows) && run in rows
    ensures !Unique(WithStatus(rows, run, Running))
            <==> !IsActive(rows[run].status) && HasActive(rows, rows[run].job)
  {
    var after := WithStatus(rows, run, Running);
    if !IsActive(rows[run].status) && HasActive(rows, rows[run].job) {
      var i :| i in rows && rows[i].job == rows[run].job && IsActive(rows[i].status);
      assert i != run && after[i] == rows[i] && after[run].job == rows[run].job && IsActive(after[run].status);
    }
  }

  /** A fire that collides adds exactly one skipped row; one that does not adds exactly one queued row. A watcher
      cycle, or any other creation, that collides adds none. */
  lemma CollisionsLeave(rows: Rows, job: int, id: nat, at: int)
    requires Unique(rows) && IsNewId(rows, id)
    ensures Apply(rows, Fire(job, true, id, at))
            == rows[id := if HasActive(rows, job) then SkippedRun(job, at) else NewRun(job)]
    ensures Apply(rows, Create(job, id)) == if HasActive(rows, job) then rows else rows[id := NewRun(job)]
    ensures id !in rows
  {
    CreateConflictsExactly(rows, job, id);
    InsertFinishedUnique(rows, id, SkippedRun(job, at));
  }

  /** The finished runs of a job. */
  function Finished(rows: Rows, job: int): set<nat> {
    set k | k in rows && rows[k].job == job && !IsActive(rows[k].status)
  }

  /** History pruning keeps every active row, and of each job's finished rows exactly the newest `keep`: as many
      as there are up to `keep`, and none older than one it removed. */
  lemma PruningKeepsNewest(rows: Rows, keep: nat, job: int)
    requires Unique(rows)
    ensures var after := Apply(rows, PruneHistory(keep));
            && after.Keys <= rows.Keys
            && (forall k :: k in after ==> after[k] == rows[k])
            && (forall k :: k in rows && IsActive(rows[k].status) ==> k in after)
            && |Finished(after, job)| == (if |Finished(rows, job)| < keep then |Finished(rows, job)| else keep)
            && (forall k, d :: k in Finished(after, job) && d in Finished(rows, job) - Finished(after, job) ==> d < k)
  {
    OnlyCreateAndStartCanFail(rows, PruneHistory(keep));
    var after := Apply(rows, PruneHistory(keep));
    var finished := Finished(rows, job);
    assert Finished(after, job) == set k | k in finished && |Above(finished, k)| < keep by {
      forall k | k in finished
        ensures NewerFinished(rows, k) == Above(finished, k)
      {
      }
    }
    TopCount(finished, keep);
    forall k, d | k in Finished(after, job) && d in finished - Finished(after, job)
      ensures d < k
    {
      if d > k {
        AboveSize(finished, k, d);
      }
    }
  }

  function Above(s: set<nat>, k: nat): set<nat> {
    set x | x in s && x > k
  }

  lemma AboveSize(s: set<nat>, k: nat, d: nat)
    requires k < d && d in s
    ensures |Above(s, d)| < |Above(s, k)|
  {
    var rest := Above(s, k) - Above(s, d) - {d};
    assert Above(s, k) == Above(s, d) + {d} + rest;
    assert |Above(s, d) + {d}| == |Above(s, d)| + 1;
    assert |Above(s, d) + {d} + rest| == |Above(s, d)| + 1 + |rest|;
  }

  lemma {:induction false} TopCount(s: set<nat>, keep: nat)
    ensures |set k | k in s && |Above(s, k)| < keep| == if |s| < keep then |s| else keep
    decreases |s|
  {
    var top := set k | k in s && |Above(s, k)| < keep;
    if s == {} {
      assert top == {};
    } else {
      var m := Least(s);
      var rest := s - {m};
      TopCount(rest, keep);
      assert Above(s, m) == rest;
      forall k | k in rest
        ensures Above(rest, k) == Above(s, k)
      {
      }
      var topRest := set k | k in rest && |Above(rest, k)| < keep;
      assert top == topRest + if |rest| < keep then {m} else {};
    }
  }

  lemma {:induction false} Least(s: set<nat>) returns (m: nat)
    requires s != {}
    ensures m in s && forall k :: k in s ==> m <= k
    decreases |s|
  {
    var x :| x in s;
    if s == {x} {
      m := x;
    } else {
      var n := Least(s - {x});
      m := if n < x then n else x;
      assert forall k :: k in s ==> k == x || k in s - {x};
    }
  }

  /** A restart leaves no active row, so every job can run again; finished rows stay as they were. */
  lemma RestartReleases(rows: Rows, at: int, job: int, id: nat)
    requires Unique(rows) && IsNewId(rows, id)
    ensures var after := Apply(rows, Restart(at));
            && after.Keys == rows.Keys
            && (forall k :: k in after ==> !IsActive(after[k].status))
            && (forall k :: k in rows && !IsActive(rows[k].status) ==> after[k] == rows[k])
            && Unique(after[id := NewRun(job)])
  {
    OnlyCreateAndStartCanFail(rows, Restart(at));
    var after := Apply(rows, Restart(at));
    assert IsNewId(after, id);
    ApplyKeepsUnique(rows, Restart(at));
    CreateConflictsExactly(after, job, id);
  }

  /** A finished row is final: only starting its own worker late, or finishing that, ever rewrites it. */
  lemma FinishedRowsAreFinal(rows: Rows, op: Op, k: nat)
    requires Unique(rows) && Proper(rows, op) && k in rows && !IsActive(rows[k].status)
    requires op != Start(k) && (op.Finish? ==> op.run != k)
    ensures k in Apply(rows, op) ==> Apply(rows, op)[k] == rows[k]
    ensures k !in Apply(rows, op) ==> op.PruneQuiet? || op.PruneHistory? || (op.DeleteJob? && op.job == rows[k].job)
  {
  }

  // ------------------------------------------------------------------ what skipped rows count

  /** The skipped rows of a job. */
  function Skips(rows: Rows, job: int): set<nat> {
    set k | k in rows && rows[k].job == job && rows[k].status == Skipped
  }

  /** A scheduled fire finds the job's previous run still active. */
  predicate Collides(rows: Rows, op: Op, job: int) {
    op.Fire? && op.enabled && op.job == job && HasActive(rows, job)
  }

  function Collisions(rows: Rows, ops: seq<Op>, job: int): nat
    decreases ops
  {
    if ops == [] then 0
    else (if Collides(rows, ops[0], job) then 1 else 0) + Collisions(Apply(rows, ops[0]), ops[1..], job)
  }

  /** How many skipped rows of the job are taken out of the table again. */
  function Dropped(rows: Rows, ops: seq<Op>, job: int): nat
    decreases ops
  {
    if ops == [] then 0
    else |Skips(rows, job) - Apply(rows, ops[0]).Keys| + Dropped(Apply(rows, ops[0]), ops[1..], job)
  }

  lemma SkipsStep(rows: Rows, op: Op, job: int)
    requires Unique(rows) && Proper(rows, op) && ProperWorker(rows, op)
    ensures var after := Apply(rows, op);
            |Skips(after, job)| + |Skips(rows, job) - after.Keys|
            == |Skips(rows, job)| + if Collides(rows, op, job) then 1 else 0
  {
    hide Unique;
    var after, before := Apply(rows, op), Skips(rows, job);
    SkipsAfter(rows, op, job);
    assert before == (before * after.Keys) + (before - after.Keys);
    assert |before| == |before * after.Keys| + |before - after.Keys|;
    if Collides(rows, op, job) {
      assert before * after.Keys == before && before - after.Keys == {};
      assert |before + {op.id}| == |before| + 1;
    }
  }

  lemma SkipsAfter(rows: Rows, op: Op, job: int)
    requires Unique(rows) && Proper(rows, op) && ProperWorker(rows, op)
    ensures var after := Apply(rows, op);
            if Collides(rows, op, job)
            then
              && Skips(after, job) == Skips(rows, job) + {op.id}
              && op.id !in Skips(rows, job) && Skips(rows, job) <= after.Keys
            else Skips(after, job) == Skips(rows, job) * after.Keys
  {
    if op.Fire? && op.enabled {
      CollisionsLeave(rows, op.job, op.id, op.at);
    }
  }

  /** Over any history the skipped rows of a job are its collisions, save those that were taken out again: every fire
      that finds the previous run active leaves exactly one, and nothing else does. */
  lemma {:induction false} SkippedAreCollisions(rows: Rows, ops: seq<Op>, job: int)
    requires Unique(rows) && ProperRun(rows, ops)
    ensures |Skips(Exec(rows, ops), job)| + Dropped(rows, ops, job) == |Skips(rows, job)| + Collisions(rows, ops, job)
    decreases ops
  {
    hide Unique, Apply, Proper, ProperWorker, Collides;
    if ops != [] {
      SkipsStep(rows, ops[0], job);
      ApplyKeepsUnique(rows, ops[0]);
      SkippedAreCollisions(Apply(rows, ops[0]), ops[1..], job);
    }
  }

  /** Only history pruning and deleting the job take skipped rows out. */
  lemma {:induction false} OnlyPruningDrops(rows: Rows, ops: seq<Op>, job: int)
    requires Unique(rows) && ProperRun(rows, ops)
    requires forall op :: op in ops ==> !op.PruneHistory? && !op.DeleteJob?
    ensures Dropped(rows, ops, job) == 0
    decreases ops
  {
    hide Unique;
    if ops != [] {
      assert ops[0] in ops;
      SkipsStay(rows, ops[0], job);
      ApplyKeepsUnique(rows, ops[0]);
      OnlyPruningDrops(Apply(rows, ops[0]), ops[1..], job);
    }
  }

  lemma SkipsStay(rows: Rows, op: Op, job: int)
    requires !op.PruneHistory? && !op.DeleteJob?
    ensures Skips(rows, job) - Apply(rows, op).Keys == {}
  {
    hide Unique;
  }

  /** A pruned quiet cycle gives its id back: the next run of any job can carry the same one. */
  lemma QuietCycleIdIsReused(rows: Rows, job: int, id: nat, at: int)
    requires Unique(rows) && IsNewId(rows, id) && !HasActive(rows, job)
    ensures var e := Ending(Success, at, 0, 0, 0);
            Exec(rows, [Create(job, id), Start(id), Finish(id, e), PruneQuiet(id, true)]) == rows
  {
    hide Unique, Apply, Exec;
    var e := Ending(Success, at, 0, 0, 0);
    CollisionsLeave(rows, job, id, at);
    ApplyKeepsUnique(rows, Create(job, id));
    QuietCycleRuns(rows[id := NewRun(job)], id, e);
    assert rows[id := NewRun(job)][id := Ended(NewRun(job), e)] == rows[id := Ended(NewRun(job), e)];
    QuietCycleEnds(rows, rows[id := Ended(NewRun(job), e)], id);
    ExecFour(rows, Create(job, id), Start(id), Finish(id, e), PruneQuiet(id, true));
  }

  /** Starting and finishing an active run. */
  lemma QuietCycleRuns(rows: Rows, id: nat, e: Ending)
    requires Unique(rows) && id in rows && IsActive(rows[id].status) && !IsActive(e.status)
    ensures Apply(Apply(rows, Start(id)), Finish(id, e)) == rows[id := Ended(rows[id], e)]
    ensures Unique(rows[id := Ended(rows[id], e)])
  {
    hide Unique;
    StartFailsExactly(rows, id);
    var started := WithStatus(rows, id, Running);
    ApplyKeepsUnique(rows, Start(id));
    OnlyCreateAndStartCanFail(started, Finish(id, e));
    InsertFinishedUnique(rows, id, Ended(rows[id], e));
    assert started[id := Ended(started[id], e)] == rows[id := Ended(rows[id], e)];
  }

  lemma QuietCycleEnds(rows: Rows, after: Rows, id: nat)
    requires Unique(after) && id !in rows && id in after && after == rows[id := after[id]] && IsQuiet(after[id], true)
    ensures Apply(after, PruneQuiet(id, true)) == rows
  {
    OnlyCreateAndStartCanFail(after, PruneQuiet(id, true));
    assert after - {id} == rows;
  }

  lemma ExecFour(rows: Rows, a: Op, b: Op, c: Op, d: Op)
    ensures Exec(rows, [a, b, c, d]) == Apply(Apply(Apply(Apply(rows, a), b), c), d)
  {
    assert [a, b, c, d][1..] == [b, c, d] && [b, c, d][1..] == [c, d] && [c, d][1..] == [d];
    assert [d][1..] == [];
    var r1 := Apply(rows, a);
    var r2 := Apply(r1, b);
    var r3 := Apply(r2, c);
    assert Exec(r3, [d]) == Apply(r3, d);
    assert Exec(r2, [c, d]) == Exec(r3, [d]);
    assert Exec(r1, [b, c, d]) == Exec(r2, [c, d]);
  }
}

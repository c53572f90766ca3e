/** The delete brake over whole histories of a job: plan, veto, approval, execution
    (`_execute_one_way`, `_preflight`, `_bisync_preflight`, `_fail` in app/jobs/runner.py, `resolve_max_delete` and
    `operation_for` in app/engines/rclone.py, `force_run_form` in app/web/__init__.py).

    rclone is an oracle: a dry run and a check say what they say, a sync removes at most `--max-delete` files
    and a copy removes none. */
module DeleteBrake {
  import opened Wrappers
  import opened Text
  import opened Planning

  datatype DeleteMode = NoDelete | Delete | Archive

  datatype Command = Copy | Sync | Bisync

  datatype Job = Job(bidirectional: bool, deleteMode: DeleteMode, maxDeletePct: int, sentinelFile: string,
                     sourceIsLocal: bool)

  /** `copy` or `sync`. */
  function OperationFor(job: Job): Command {
    if job.deleteMode == NoDelete then Copy else Sync
  }

  /** `math.ceil(a / 100)`. */
  function CeilHundredths(a: int): int { -((-a) / 100) }

  function ResolveMaxDelete(pct: int, destFileCount: int): int {
    if destFileCount <= 0 then 1
    else
      var n := CeilHundredths(destFileCount * pct);
      if n < 1 then 1 else n
  }

  /** The resolved brake is the smallest count, and at least one, that is not below the percentage. */
  lemma ResolvedIsLeast(pct: int, n: nat, k: int)
    requires pct >= 0
    ensures ResolveMaxDelete(pct, n) >= 1 && 100 * ResolveMaxDelete(pct, n) >= n * pct
    ensures k >= 1 && 100 * k >= n * pct ==> ResolveMaxDelete(pct, n) <= k
  {
    var a := n * pct;
    assert n <= 0 ==> a == 0;
    assert (-a) / 100 * 100 <= -a < (-a) / 100 * 100 + 100;
  }

  lemma ResolvedGrows(pct: int, m: nat, n: nat)
    requires 0 <= pct && m <= n
    ensures ResolveMaxDelete(pct, m) <= ResolveMaxDelete(pct, n)
  {
    ResolvedIsLeast(pct, n, 1);
    assert m * pct <= n * pct;
    ResolvedIsLeast(pct, m, ResolveMaxDelete(pct, n));
  }

  // ------------------------------------------------------------------ one run

  /** How a run ended, as far as deletions go. A refusal about no count has nothing to approve. */
  datatype Outcome =
    | RefusedPlainly
    | RefusedForCount(deletions: int)
    | NotStarted
    | Executed(command: Command, limit: Option<int>)

  /** What the outside world answers during a one-way run. `setupFails` is a configuration error between
      the pre-flight and the start of rclone. */
  datatype Answers = Answers(presence: Presence, operations: seq<Operation>, errors: seq<string>, maxDeleteHit: bool,
                             sentinelFound: bool, planFails: bool, setupFails: bool, after: set<string>)

  function Threshold(job: Job, forced: Option<int>, plan: Plan): int {
    if forced.Some? then forced.value else ResolveMaxDelete(job.maxDeletePct, plan.destFileCount)
  }

  /** `_preflight`: None lets the run go on. */
  function Preflight(job: Job, plan: Plan, threshold: int, sentinelFound: bool): Option<Outcome> {
    if Strip(job.sentinelFile, SPACES) != "" && job.sourceIsLocal && !sentinelFound then Some(RefusedPlainly)
    else if plan.Count(Deleted) > threshold then Some(RefusedForCount(plan.Count(Deleted)))
    else None
  }

  /** rclone's promise about one command. */
  predicate Obeys(command: Command, maxDelete: int, before: set<string>, after: set<string>) {
    match command
    case Copy => before <= after
    case Sync => maxDelete >= 0 ==> |before - after| <= maxDelete
    case Bisync => true
  }

  /** What rclone and its dry run may answer about a destination holding `dest`. */
  ghost predicate Possible(job: Job, forced: Option<int>, dest: set<string>, plan: Plan, a: Answers) {
    && IsPlan(plan, a.presence, a.operations, a.errors, a.maxDeleteHit)
    && a.presence.OnDest() <= dest
    && (OperationFor(job) == Copy ==> Removals(a.operations) == [])
    && Obeys(OperationFor(job), Threshold(job, forced, plan), dest, a.after)
  }

  /** `_execute_one_way`: the outcome, and the destination afterwards. */
  function OneWay(job: Job, forced: Option<int>, dest: set<string>, plan: Plan, a: Answers): (Outcome, set<string>) {
    if a.planFails then (NotStarted, dest)
    else
      var threshold := Threshold(job, forced, plan);
      match Preflight(job, plan, threshold, a.sentinelFound)
      case Some(refusal) => (refusal, dest)
      case None => if a.setupFails then (NotStarted, dest) else (Executed(OperationFor(job), Some(threshold)), a.after)
  }

  /** What a bidirectional dry run reports. */
  datatype BisyncAnswers = BisyncAnswers(initialized: bool, isResync: bool, needsResync: bool, totalDeleted: nat,
                                         safetyAbort: bool, after: set<string>)

  /** `_execute_bisync` up to its start: rclone enforces its own percentage afterwards. */
  function TwoWay(forced: Option<int>, dest: set<string>, a: BisyncAnswers): (Outcome, set<string>) {
    if !a.initialized && !a.isResync then (RefusedPlainly, dest)
    else if a.isResync || a.needsResync then (Executed(Bisync, None), a.after)
    else if forced.Some? && a.totalDeleted <= forced.value then (Executed(Bisync, None), a.after)
    else if a.safetyAbort then (RefusedForCount(a.totalDeleted), dest)
    else (Executed(Bisync, None), a.after)
  }

  // ------------------------------------------------------------------ the history of a job

  /** What a run was told by the outside world. */
  datatype Told = OneWayTold(answers: Answers) | TwoWayTold(bisync: BisyncAnswers)

  /** One live run. `approves` is the refused run whose count it carries. */
  datatype Record = Record(job: Job, forced: Option<int>, approves: Option<nat>, told: Told, planned: int,
                           destFileCount: int, outcome: Outcome, before: set<string>, after: set<string>)

  datatype History = History(job: Job, dest: set<string>, runs: seq<Record>)

  /** `approve` names the refused run the operator approves, None for an ordinary run. */
  datatype Event =
    | Edit(job: Job)
    | Outside(dest: set<string>)
    | RunOneWay(approve: Option<nat>, plan: Plan, answers: Answers)
    | RunTwoWay(approve: Option<nat>, bisync: BisyncAnswers)

  /** The count an approval of run `k` carries; None when there is nothing to approve. */
  function Approval(h: History, k: nat): Option<int> {
    if k < |h.runs| && h.runs[k].outcome.RefusedForCount? then Some(h.runs[k].outcome.deletions) else None
  }

  function Forced(h: History, approve: Option<nat>): Option<int> {
    match approve case None => None case Some(k) => Approval(h, k)
  }

  /** An approval of a run with nothing to approve starts no run. */
  predicate Starts(h: History, approve: Option<nat>) {
    approve.Some? ==> Approval(h, approve.value).Some?
  }

  ghost predicate Enabled(h: History, e: Event) {
    match e
    case Edit(job) => job.maxDeletePct >= 0
    case Outside(_) => true
    case RunOneWay(approve, plan, a) =>
      && !h.job.bidirectional && Starts(h, approve)
      && Possible(h.job, Forced(h, approve), h.dest, plan, a)
    case RunTwoWay(approve, _) => h.job.bidirectional && Starts(h, approve)
  }

  function Next(h: History, e: Event): History {
    match e
    case Edit(job) => h.(job := job)
    case Outside(dest) => h.(dest := dest)
    case RunOneWay(approve, plan, a) =>
      var forced := Forced(h, approve);
      var (outcome, after) := OneWay(h.job, forced, h.dest, plan, a);
      h.(dest := after,
         runs := h.runs + [Record(h.job, forced, approve, OneWayTold(a), plan.Count(Deleted), plan.destFileCount,
                                  outcome, h.dest, after)])
    case RunTwoWay(approve, a) =>
      var forced := Forced(h, approve);
      var (outcome, after) := TwoWay(forced, h.dest, a);
      h.(dest := after,
         runs := h.runs + [Record(h.job, forced, approve, TwoWayTold(a), a.totalDeleted, 0, outcome, h.dest,
                                  after)])
  }

  ghost predicate Follows(h: History, events: seq<Event>)
    decreases events
  {
    events == [] || (Enabled(h, events[0]) && Follows(Next(h, events[0]), events[1..]))
  }

  function Exec(h: History, events: seq<Event>): History
    decreases events
  {
    if events == [] then h else Exec(Next(h, events[0]), events[1..])
  }

  // ------------------------------------------------------------------ when a run is refused

  /** The job names a sentinel file, keeps its source on this machine, and the file is not there. */
  predicate SourceLooksUnmounted(job: Job, sentinelFound: bool) {
    job.sourceIsLocal && !sentinelFound && exists c :: c in job.sentinelFile && c !in SPACES
  }

  /** How a one-way run has to end: refused plainly exactly when its source looks unmounted, for its count exactly when
      more removals are planned than the operator approved or, without an approval, than the brake allows, and
      otherwise executed with exactly that limit, as a copy exactly when the job deletes nothing. Without a plan, or
      when it cannot be set up, it does not start. */
  predicate EndsAsOneWay(r: Record, a: Answers) {
    var limit := if r.forced.Some? then r.forced.value else ResolveMaxDelete(r.job.maxDeletePct, r.destFileCount);
    var unmounted := SourceLooksUnmounted(r.job, a.sentinelFound);
    && (r.outcome == RefusedPlainly <==> !a.planFails && unmounted)
    && (r.outcome.RefusedForCount? <==> !a.planFails && !unmounted && r.planned > limit)
    && (r.outcome.RefusedForCount? ==> r.outcome.deletions == r.planned)
    && (r.outcome.Executed? <==> !a.planFails && !unmounted && r.planned <= limit && !a.setupFails)
    && (r.outcome.Executed? ==>
          && r.outcome.limit == Some(limit)
          && r.outcome.command == if r.job.deleteMode in {Delete, Archive} then Sync else Copy)
    && r.after == if r.outcome.Executed? then a.after else r.before
  }

  /** How a two-way run has to end, as far as its pre-flight goes: refused plainly exactly before its first sync, and
      for its count exactly when rclone's own check aborts and no approval covers the deletions. */
  predicate EndsAsTwoWay(r: Record, a: BisyncAnswers) {
    var checked := a.initialized && !a.isResync && !a.needsResync;
    && (r.outcome == RefusedPlainly <==> !a.initialized && !a.isResync)
    && (r.outcome.RefusedForCount?
        <==> checked && a.safetyAbort && (r.forced.None? || a.totalDeleted > r.forced.value))
    && (r.outcome.RefusedForCount? ==> r.outcome.deletions == r.planned == a.totalDeleted)
    && r.outcome != NotStarted && (r.outcome.Executed? ==> r.outcome == Executed(Bisync, None))
    && r.after == if r.outcome.Executed? then a.after else r.before
  }

  predicate Ends(r: Record) {
    match r.told
    case OneWayTold(a) => EndsAsOneWay(r, a)
    case TwoWayTold(a) => EndsAsTwoWay(r, a)
  }

  /** Every one-way run ends so, whatever it is told. */
  lemma OneWayEnds(job: Job, forced: Option<int>, approve: Option<nat>, dest: set<string>, plan: Plan, a: Answers)
    ensures var (outcome, after) := OneWay(job, forced, dest, plan, a);
            EndsAsOneWay(Record(job, forced, approve, OneWayTold(a), plan.Count(Deleted), plan.destFileCount, outcome,
                                dest, after), a)
  {
    hide CountIn, ResolveMaxDelete, Strip;
    StripBlank(job.sentinelFile, SPACES);
  }

  /** The same steps as an object's own: one job, its destination and its runs, changed in place. */
  class LiveRunner {
    var job: Job
    var dest: set<string>
    var runs: seq<Record>

    ghost function State(): History
      reads this
    {
      History(job, dest, runs)
    }

    constructor (job: Job, dest: set<string>)
      ensures State() == History(job, dest, [])
    {
      this.job, this.dest, this.runs := job, dest, [];
    }

    /** A one-way run; an approval with nothing behind it starts none. */
    method ExecuteOneWay(approve: Option<nat>, plan: Plan, a: Answers) returns (started: bool)
      modifies this
      ensures started <==> (approve.Some? ==>
                              approve.value < |old(runs)| && old(runs)[approve.value].outcome.RefusedForCount?)
      ensures State() == if started then Next(old(State()), RunOneWay(approve, plan, a)) else old(State())
      ensures started ==>
                && |runs| == |old(runs)| + 1 && runs[..|old(runs)|] == old(runs) && job == old(job)
                && var r := runs[|old(runs)|];
                   && r.job == job && r.approves == approve && r.told == OneWayTold(a)
                   && (r.forced.Some? <==> approve.Some?)
                   && (r.forced.Some? ==> r.forced.value == old(runs)[approve.value].outcome.deletions)
                   && r.planned == plan.Count(Deleted) && r.destFileCount == plan.destFileCount
                   && r.before == old(dest) && r.after == dest
                   && EndsAsOneWay(r, a)
    {
      hide CountIn, Strip, ResolveMaxDelete, EndsAsOneWay;
      OneWayEnds(job, Forced(State(), approve), approve, dest, plan, a);
      var forced: Option<int> := None;
      if approve.Some? {
        if |runs| <= approve.value || !runs[approve.value].outcome.RefusedForCount? {
          return false;
        }
        forced := Some(runs[approve.value].outcome.deletions);
      }
      var before, outcome := dest, NotStarted;
      if !a.planFails {
        var threshold := if forced.Some? then forced.value else ResolveMaxDelete(job.maxDeletePct, plan.destFileCount);
        if Strip(job.sentinelFile, SPACES) != "" && job.sourceIsLocal && !a.sentinelFound {
          outcome := RefusedPlainly;
        } else if plan.Count(Deleted) > threshold {
          outcome := RefusedForCount(plan.Count(Deleted));
        } else if !a.setupFails {
          dest := a.after;
          outcome := Executed(OperationFor(job), Some(threshold));
        }
      }
      runs := runs + [Record(job, forced, approve, OneWayTold(a), plan.Count(Deleted), plan.destFileCount, outcome,
                             before, dest)];
      started := true;
    }
  }

  // ------------------------------------------------------------------ what every history keeps

  /** What holds of run `k` of a history. */
  ghost predicate RunSafe(runs: seq<Record>, k: nat)
    requires k < |runs|
  {
    var r := runs[k];
    // An approval carries exactly the count of an earlier refusal.
    && (r.forced.Some? <==> r.approves.Some?)
    && (r.forced.Some? ==>
          && r.approves.value < k && runs[r.approves.value].outcome.RefusedForCount?
          && runs[r.approves.value].outcome.deletions == r.forced.value)
    // It is refused, executed or not started exactly as the plan, the brake, the approval and the sentinel say.
    && Ends(r)
    && (r.told.TwoWayTold? <==> r.job.bidirectional)
    // The plan's figures are those of its dry run and its check.
    && r.planned >= 0
    && (r.told.OneWayTold? ==>
          && r.planned == |Paths(Removals(r.told.answers.operations))|
          && r.destFileCount == |r.told.answers.presence.OnDest()|)
    // A copy is never refused for its count and never removes anything.
    && (!r.job.bidirectional && r.job.deleteMode == NoDelete ==> !r.outcome.RefusedForCount? && r.before <= r.after)
    // An executed one-way run removes no more than the brake, or than what was approved.
    && (!r.job.bidirectional && r.outcome.Executed? ==>
          |r.before - r.after|
          <= if r.forced.Some? then r.forced.value else ResolveMaxDelete(r.job.maxDeletePct, r.destFileCount))
    && (!r.job.bidirectional ==> 0 <= r.destFileCount <= |r.before|)
    && r.job.maxDeletePct >= 0
  }

  ghost predicate Safe(h: History) {
    h.job.maxDeletePct >= 0 && forall k :: 0 <= k < |h.runs| ==> RunSafe(h.runs, k)
  }

  lemma RunSafeStays(runs: seq<Record>, r: Record, k: nat)
    requires k < |runs| && RunSafe(runs, k)
    ensures RunSafe(runs + [r], k)
  {
    assert runs[k].approves.Some? && runs[k].approves.value < k ==>
        (runs + [r])[runs[k].approves.value] == runs[runs[k].approves.value];
  }

  lemma ApprovalIsEarlier(h: History, approve: Option<nat>)
    requires Safe(h) && Starts(h, approve)
    ensures var forced := Forced(h, approve);
            && (forced.Some? <==> approve.Some?)
            && (forced.Some? ==> forced.value >= 0 && approve.value < |h.runs|
                                 && h.runs[approve.value].outcome.RefusedForCount?
                                 && h.runs[approve.value].outcome.deletions == forced.value)
  {
    if approve.Some? {
      assert RunSafe(h.runs, approve.value);
    }
  }

  lemma OneWayIsSafe(h: History, approve: Option<nat>, plan: Plan, a: Answers)
    requires Safe(h) && Enabled(h, RunOneWay(approve, plan, a))
    ensures RunSafe(Next(h, RunOneWay(approve, plan, a)).runs, |h.runs|)
  {
    hide IsPlan, CountIn, ResolveMaxDelete, OneWay, Forced, Possible, Safe, Paths, Removals, SourceLooksUnmounted;
    SafeJob(h);
    ApprovalIsEarlier(h, approve);
    OneWayEnds(h.job, Forced(h, approve), approve, h.dest, plan, a);
    OneWayEffect(h.job, Forced(h, approve), h.dest, plan, a);
  }

  lemma SafeJob(h: History)
    requires Safe(h)
    ensures h.job.maxDeletePct >= 0
  {
  }

  /** What rclone's promises make of it. */
  lemma OneWayEffect(job: Job, forced: Option<int>, dest: set<string>, plan: Plan, a: Answers)
    requires Possible(job, forced, dest, plan, a) && job.maxDeletePct >= 0 && (forced.Some? ==> forced.value >= 0)
    ensures var limit := if forced.Some? then forced.value else ResolveMaxDelete(job.maxDeletePct, plan.destFileCount);
            && Threshold(job, forced, plan) == limit >= 0
            && |dest - a.after| <= limit
            && plan.Count(Deleted) == |Paths(Removals(a.operations))|
            && plan.destFileCount == |a.presence.OnDest()| <= |dest|
            && (job.deleteMode == NoDelete ==> plan.Count(Deleted) == 0 && dest <= a.after)
  {
    hide IsPlan, CountIn, ResolveMaxDelete;
    PlanPartitions(plan, a.presence, a.operations, a.errors, a.maxDeleteHit);
    PlanDestCount(plan, a.presence, a.operations, a.errors, a.maxDeleteHit);
    ResolvedIsLeast(job.maxDeletePct, plan.destFileCount, 1);
    SubsetSize(a.presence.OnDest(), dest);
    if OperationFor(job) == Copy {
      assert Paths(Removals(a.operations)) == {};
      assert dest - a.after == {};
    }
  }

  lemma PlanDestCount(plan: Plan, presence: Presence, ops: seq<Operation>, errors: seq<string>, hit: bool)
    requires IsPlan(plan, presence, ops, errors, hit)
    ensures plan.destFileCount == |presence.OnDest()|
  {
  }

  lemma {:induction false} SubsetSize(a: set<string>, b: set<string>)
    requires a <= b
    ensures |a| <= |b|
  {
    assert |b| == |a| + |b - a| by {
      assert b == a + (b - a);
    }
  }

  lemma StepIsSafe(h: History, e: Event)
    requires Safe(h) && Enabled(h, e)
    ensures Safe(Next(h, e))
  {
    hide RunSafe, IsPlan, CountIn, OneWay, TwoWay;
    var h' := Next(h, e);
    forall k | 0 <= k < |h'.runs|
      ensures RunSafe(h'.runs, k)
    {
      if k < |h.runs| {
        if e.RunOneWay? || e.RunTwoWay? {
          RunSafeStays(h.runs, h'.runs[|h.runs|], k);
        }
      } else if e.RunOneWay? {
        OneWayIsSafe(h, e.approve, e.plan, e.answers);
      } else {
        TwoWayIsSafe(h, e.approve, e.bisync);
      }
    }
  }

  lemma TwoWayIsSafe(h: History, approve: Option<nat>, a: BisyncAnswers)
    requires Safe(h) && Enabled(h, RunTwoWay(approve, a))
    ensures RunSafe(Next(h, RunTwoWay(approve, a)).runs, |h.runs|)
  {
    hide ResolveMaxDelete;
    ApprovalIsEarlier(h, approve);
  }

  /** Every run of every history is safe. */
  lemma {:induction false} HistoriesAreSafe(h: History, events: seq<Event>)
    requires Safe(h) && Follows(h, events)
    ensures Safe(Exec(h, events))
    decreases events
  {
    if events != [] {
      StepIsSafe(h, events[0]);
      HistoriesAreSafe(Next(h, events[0]), events[1..]);
    }
  }

  lemma {:induction false} ExecConcat(h: History, a: seq<Event>, b: seq<Event>)
    ensures Exec(h, a + b) == Exec(Exec(h, a), b)
    decreases a
  {
    if a == [] {
      assert a + b == b;
    } else {
      assert (a + b)[1..] == a[1..] + b;
      ExecConcat(Next(h, a[0]), a[1..], b);
    }
  }

  lemma {:induction false} RunsAreKept(h: History, events: seq<Event>)
    ensures h.runs <= Exec(h, events).runs
    decreases events
  {
    if events != [] {
      RunsAreKept(Next(h, events[0]), events[1..]);
    }
  }

  // ------------------------------------------------------------------ the main claims

  /** Every run of a history leaves one record that stays: of the job as it then was, the approval it was started by,
      what it was told, and the destination before and after it. Whatever is no run leaves none. */
  lemma EveryRunIsRecorded(h: History, events: seq<Event>, i: nat)
    requires i < |events|
    ensures var at, after := Exec(h, events[..i]), Exec(h, events[..i + 1]);
            && at.runs <= after.runs <= Exec(h, events).runs
            && match events[i] {
                 case Edit(job) => after == History(job, at.dest, at.runs)
                 case Outside(dest) => after == History(at.job, dest, at.runs)
                 case RunOneWay(approve, plan, a) =>
                   && |after.runs| == |at.runs| + 1 && after.job == at.job
                   && var r := after.runs[|at.runs|];
                      && r.job == at.job && r.approves == approve && r.told == OneWayTold(a)
                      && r.planned == plan.Count(Deleted) && r.destFileCount == plan.destFileCount
                      && r.before == at.dest && r.after == after.dest
                 case RunTwoWay(approve, a) =>
                   && |after.runs| == |at.runs| + 1 && after.job == at.job
                   && var r := after.runs[|at.runs|];
                      && r.job == at.job && r.approves == approve && r.told == TwoWayTold(a)
                      && r.before == at.dest && r.after == after.dest
               }
  {
    hide CountIn, OneWay, TwoWay;
    var now, rest := events[..i], events[i + 1..];
    assert events[..i + 1] == now + [events[i]];
    ExecConcat(h, now, [events[i]]);
    assert events == events[..i + 1] + rest;
    ExecConcat(h, events[..i + 1], rest);
    RunsAreKept(Exec(h, events[..i + 1]), rest);
    var at := Exec(h, now);
    assert [events[i]][1..] == [];
    assert Exec(at, [events[i]]) == Next(at, events[i]);
  }

  /** Over any history that starts without runs: an executed one-way run removes at most the percentage of the
      files the destination held (rounded up, at least one), or at most a count an operator approved from an
      earlier refusal. */
  lemma RemovalsAreBounded(job: Job, dest: set<string>, events: seq<Event>, k: nat)
    requires job.maxDeletePct >= 0 && Follows(History(job, dest, []), events)
    requires k < |Exec(History(job, dest, []), events).runs|
    ensures var runs := Exec(History(job, dest, []), events).runs; var r := runs[k];
            !r.job.bidirectional ==>
              || |r.before - r.after| <= ResolveMaxDelete(r.job.maxDeletePct, |r.before|)
              || exists j :: 0 <= j < k && runs[j].outcome.RefusedForCount?
                             && |r.before - r.after| <= runs[j].outcome.deletions == runs[k].forced.GetOr(-1)
  {
    HistoriesAreSafe(History(job, dest, []), events);
    var runs := Exec(History(job, dest, []), events).runs;
    var r := runs[k];
    assert RunSafe(runs, k);
    if !r.job.bidirectional {
      ResolvedIsLeast(r.job.maxDeletePct, |r.before|, 1);
      ResolvedGrows(r.job.maxDeletePct, r.destFileCount, |r.before|);
      if !r.outcome.Executed? {
        assert r.before - r.after == {};
      } else if r.forced.Some? {
        assert runs[r.approves.value].outcome.deletions == r.forced.value;
      }
    }
  }

  /** `chain` is a sequence of refusals, each of a run started by approving the one before. */
  predicate ApprovalChain(runs: seq<Record>, chain: seq<nat>) {
    && (forall i :: 0 <= i < |chain| ==> chain[i] < |runs| && runs[chain[i]].outcome.RefusedForCount?)
    && (forall i :: 0 < i < |chain| ==> runs[chain[i]].approves == Some(chain[i - 1]))
  }

  /** Along a chain of approvals the refused counts strictly increase. */
  lemma {:induction false} RefusedCountsIncrease(h: History, chain: seq<nat>, i: nat, j: nat)
    requires Safe(h) && ApprovalChain(h.runs, chain) && i < j < |chain|
    ensures h.runs[chain[i]].outcome.deletions < h.runs[chain[j]].outcome.deletions
    decreases j
  {
    assert RunSafe(h.runs, chain[j]);
    if i < j - 1 {
      RefusedCountsIncrease(h, chain, i, j - 1);
    }
  }

  /** Approving a refusal of a one-way run passes the count check exactly when no more deletions turn up than
      were approved; with the plan unchanged it always does. */
  lemma ApprovalPassesExactly(h: History, k: nat, plan: Plan, a: Answers)
    requires Safe(h) && k < |h.runs| && h.runs[k].outcome.RefusedForCount?
    requires Enabled(h, RunOneWay(Some(k), plan, a)) && !a.planFails
    ensures var r := Next(h, RunOneWay(Some(k), plan, a)).runs[|h.runs|];
            && (!r.outcome.RefusedPlainly? ==>
                  (r.outcome.RefusedForCount? <==> plan.Count(Deleted) > h.runs[k].outcome.deletions))
            && (plan.Count(Deleted) == h.runs[k].planned && a.sentinelFound && !a.setupFails ==> r.outcome.Executed?)
  {
    assert RunSafe(h.runs, k);
  }

  /** A refused run leaves the destination as it was, and a job that only copies is never refused for a count. */
  lemma RefusalsChangeNothing(job: Job, dest: set<string>, events: seq<Event>, k: nat)
    requires job.maxDeletePct >= 0 && Follows(History(job, dest, []), events)
    requires k < |Exec(History(job, dest, []), events).runs|
    ensures var r := Exec(History(job, dest, []), events).runs[k];
            && (r.outcome.RefusedPlainly? || r.outcome.RefusedForCount? ==> r.after == r.before)
            && (!r.job.bidirectional && OperationFor(r.job) == Copy ==>
                  !r.outcome.RefusedForCount? && r.before <= r.after)
  {
    HistoriesAreSafe(History(job, dest, []), events);
    assert RunSafe(Exec(History(job, dest, []), events).runs, k);
  }
}

/** Turning a presence check and a dry run into a plan
    (app/engines/parsers.py, app/engines/base.py, `_reconcile` in app/engines/rclone.py). */
module Planning {
  import opened Wrappers
  import opened Text

  const SKIPPED_COPY := "copy"
  const SKIPPED_DELETE := "delete"
  const SKIPPED_ARCHIVE := "move into backup dir"

  /** One operation rclone reported. `replaced` is None when a log cannot tell. */
  datatype Operation = Operation(path: string, operation: string, size: Option<int>, replaced: Option<bool>)

  function Select(ops: seq<Operation>, kind: string): seq<Operation> {
    if ops == [] then []
    else Select(ops[..|ops| - 1], kind) + if ops[|ops| - 1].operation == kind then [ops[|ops| - 1]] else []
  }

  function Copies(ops: seq<Operation>): seq<Operation> { Select(ops, SKIPPED_COPY) }

  function Deletes(ops: seq<Operation>): seq<Operation> { Select(ops, SKIPPED_DELETE) }

  function Archived(ops: seq<Operation>): seq<Operation> { Select(ops, SKIPPED_ARCHIVE) }

  /** Everything that left the destination. */
  function Removals(ops: seq<Operation>): seq<Operation> { Deletes(ops) + Archived(ops) }

  function Paths(ops: seq<Operation>): set<string> {
    set i | 0 <= i < |ops| :: ops[i].path
  }

  /** `{op.path: op for op in ops}`: the last operation on a path wins. */
  function ByPath(ops: seq<Operation>): (m: map<string, Operation>)
    ensures m.Keys == Paths(ops)
    ensures forall p :: p in m ==> m[p].path == p && m[p] in ops
  {
    if ops == [] then map[]
    else
      var init, last := ops[..|ops| - 1], ops[|ops| - 1];
      assert forall i :: 0 <= i < |init| ==> init[i] == ops[i];
      assert Paths(ops) == Paths(init) + {last.path} by {
        assert forall p :: p in Paths(ops) ==> p in Paths(init) + {last.path};
        forall p | p in Paths(init)
          ensures p in Paths(ops)
        {
          var i :| 0 <= i < |init| && init[i].path == p;
          assert ops[i].path == p;
        }
        assert ops[|ops| - 1].path == last.path;
      }
      ByPath(init)[last.path := last]
  }

  // ------------------------------------------------------------------ plans

  datatype Action = New | Updated | Deleted | ArchivedAway | Error

  datatype Change = Change(action: Action, path: string, size: Option<int>, message: Option<string>)

  const NOT_COMPARED := "This file could not be compared."

  datatype Plan = Plan(changes: seq<Change>, unchangedCount: int, bytesToTransfer: int, destFileCount: int,
                       errors: seq<string>, truncated: bool)
  {
    function Count(action: Action): nat {
      CountIn(changes, action)
    }
  }

  function CountIn(changes: seq<Change>, action: Action): nat {
    if changes == [] then 0
    else CountIn(changes[..|changes| - 1], action) + if changes[|changes| - 1].action == action then 1 else 0
  }

  lemma {:induction false} CountInConcat(a: seq<Change>, b: seq<Change>, action: Action)
    ensures CountIn(a + b, action) == CountIn(a, action) + CountIn(b, action)
  {
    if b == [] {
      assert a + b == a;
    } else {
      assert (a + b)[..|a + b| - 1] == a + b[..|b| - 1];
      CountInConcat(a, b[..|b| - 1], action);
    }
  }

  const ERROR_LIMIT := 20

  /** The lines that say something, each once, where it first appears. */
  function DistinctLines(lines: seq<string>): (r: seq<string>)
    ensures |r| <= |lines|
  {
    if lines == [] then []
    else
      var before, last := DistinctLines(lines[..|lines| - 1]), lines[|lines| - 1];
      if last == "" || last in before then before else before + [last]
  }

  /** `summarise_errors`. */
  function Summarised(lines: seq<string>): seq<string> {
    var collected := DistinctLines(lines);
    if |collected| <= ERROR_LIMIT then collected
    else collected[..ERROR_LIMIT] + ["and " + Decimal(|collected| - ERROR_LIMIT) + " more errors"]
  }

  /** The distinct lines themselves, or the first 20 and how many more there are. */
  lemma SummaryCounts(lines: seq<string>)
    ensures var r, all := Summarised(lines), DistinctLines(lines);
            && (|all| <= ERROR_LIMIT ==> r == all)
            && (|all| > ERROR_LIMIT ==>
                  && |r| == ERROR_LIMIT + 1 && r[..ERROR_LIMIT] == all[..ERROR_LIMIT]
                  && r[ERROR_LIMIT] == "and " + Decimal(|all| - ERROR_LIMIT) + " more errors")
  {
    hide DistinctLines, Decimal;
  }

  predicate NoneTwice(lines: seq<string>) {
    forall i, j :: 0 <= i < j < |lines| ==> lines[i] != lines[j]
  }

  lemma {:induction false} DistinctLinesExactly(lines: seq<string>)
    ensures forall line :: line in DistinctLines(lines) <==> line in lines && line != ""
    ensures NoneTwice(DistinctLines(lines))
  {
    if lines != [] {
      DistinctLinesExactly(lines[..|lines| - 1]);
      assert lines == lines[..|lines| - 1] + [lines[|lines| - 1]];
    }
  }

  /** Lines stay in the order in which they first appear. */
  lemma {:induction false} DistinctLinesGrow(lines: seq<string>, n: nat)
    requires n <= |lines|
    ensures DistinctLines(lines[..n]) <= DistinctLines(lines)
  {
    if n < |lines| {
      assert lines[..|lines| - 1][..n] == lines[..n];
      DistinctLinesGrow(lines[..|lines| - 1], n);
    } else {
      assert lines[..n] == lines;
    }
  }

  /** A summary never has more than 21 lines: all of the distinct ones up to 20, and otherwise the first 20 and a line
      that counts the rest. */
  lemma SummaryIsBounded(lines: seq<string>)
    ensures var r, all := Summarised(lines), DistinctLines(lines);
            && |r| == (if |all| <= ERROR_LIMIT then |all| else ERROR_LIMIT + 1)
            && (|all| <= ERROR_LIMIT ==> forall line :: line in r <==> line in lines && line != "")
            && (forall i :: 0 <= i < |r| && i < ERROR_LIMIT ==> r[i] in lines && r[i] != "")
            && NoneTwice(if |r| <= ERROR_LIMIT then r else r[..ERROR_LIMIT])
  {
    hide DistinctLines, Decimal;
    DistinctLinesExactly(lines);
    var all := DistinctLines(lines);
    assert forall i :: 0 <= i < |all| ==> all[i] in all;
  }

  /** Which paths exist on which side. */
  datatype Presence = Presence(missingOnDest: set<string>, missingOnSource: set<string>, differing: set<string>,
                               matching: set<string>, errored: set<string>)
  {
    function OnSource(): set<string> { matching + differing + missingOnDest }

    function OnDest(): set<string> { matching + differing + missingOnSource }

    function DestFileCount(): nat { |OnDest()| }
  }

  function SizeOf(size: Option<int>): int {
    match size case Some(n) => n case None => 0
  }

  /** Total size of the copies of a list of paths. */
  function Bytes(copies: map<string, Operation>, paths: seq<string>): int
    requires forall p :: p in paths ==> p in copies
  {
    if paths == [] then 0
    else Bytes(copies, paths[..|paths| - 1]) + SizeOf(copies[paths[|paths| - 1]].size)
  }

  function CopyChanges(copies: map<string, Operation>, missing: set<string>, paths: seq<string>): seq<Change>
    requires forall p :: p in paths ==> p in copies
  {
    if paths == [] then []
    else
      var p := paths[|paths| - 1];
      CopyChanges(copies, missing, paths[..|paths| - 1])
      + [Change(if p in missing then New else Updated, p, copies[p].size, None)]
  }

  function RemovalChanges(removals: map<string, Operation>, paths: seq<string>): seq<Change>
    requires forall p :: p in paths ==> p in removals
  {
    if paths == [] then []
    else
      var p := paths[|paths| - 1];
      RemovalChanges(removals, paths[..|paths| - 1]) + [Change(Deleted, p, removals[p].size, None)]
  }

  function ErrorChanges(paths: seq<string>): seq<Change> {
    if paths == [] then []
    else ErrorChanges(paths[..|paths| - 1]) + [Change(Error, paths[|paths| - 1], None, Some(NOT_COMPARED))]
  }

  /** `plan` is what `_reconcile` makes of a presence check and a dry run's operations: the copies, the
      removals and the unreadable files, each in path order. */
  ghost predicate IsPlan(plan: Plan, presence: Presence, ops: seq<Operation>, errors: seq<string>, maxDeleteHit: bool) {
    exists cs, rs, es ::
      && Enumerates(cs, ByPath(Copies(ops)).Keys)
      && Enumerates(rs, ByPath(Removals(ops)).Keys)
      && Enumerates(es, presence.errored)
      && plan == PlanInOrder(presence, ByPath(Copies(ops)), ByPath(Removals(ops)), errors, maxDeleteHit, cs, rs, es)
  }

  function PlanInOrder(presence: Presence, copies: map<string, Operation>, removals: map<string, Operation>,
                       errors: seq<string>, maxDeleteHit: bool, cs: seq<string>, rs: seq<string>, es: seq<string>): Plan
    requires (forall p :: p in cs ==> p in copies) && (forall p :: p in rs ==> p in removals)
  {
    Plan(CopyChanges(copies, presence.missingOnDest, cs) + RemovalChanges(removals, rs) + ErrorChanges(es),
         |presence.OnSource() - copies.Keys|,
         Bytes(copies, cs),
         presence.DestFileCount(),
         Summarised(errors),
         maxDeleteHit)
  }

  method ListCopies(copies: map<string, Operation>, missing: set<string>, paths: seq<string>)
    returns (changes: seq<Change>, bytes: int)
    requires forall p :: p in paths ==> p in copies
    ensures changes == CopyChanges(copies, missing, paths) && bytes == Bytes(copies, paths)
  {
    changes, bytes := [], 0;
    for i := 0 to |paths|
      invariant changes == CopyChanges(copies, missing, paths[..i]) && bytes == Bytes(copies, paths[..i])
    {
      assert paths[..i + 1][..i] == paths[..i];
      var action := if paths[i] in missing then New else Updated;
      changes := changes + [Change(action, paths[i], copies[paths[i]].size, None)];
      bytes := bytes + SizeOf(copies[paths[i]].size);
    }
    assert paths[..|paths|] == paths;
  }

  method ListRemovals(removals: map<string, Operation>, paths: seq<string>) returns (changes: seq<Change>)
    requires forall p :: p in paths ==> p in removals
    ensures changes == RemovalChanges(removals, paths)
  {
    changes := [];
    for i := 0 to |paths|
      invariant changes == RemovalChanges(removals, paths[..i])
    {
      assert paths[..i + 1][..i] == paths[..i];
      changes := changes + [Change(Deleted, paths[i], removals[paths[i]].size, None)];
    }
    assert paths[..|paths|] == paths;
  }

  method ListErrors(paths: seq<string>) returns (changes: seq<Change>)
    ensures changes == ErrorChanges(paths)
  {
    changes := [];
    for i := 0 to |paths|
      invariant changes == ErrorChanges(paths[..i])
    {
      assert paths[..i + 1][..i] == paths[..i];
      changes := changes + [Change(Error, paths[i], None, Some(NOT_COMPARED))];
    }
    assert paths[..|paths|] == paths;
  }

  /** Combine presence with intent. */
  method Reconcile(presence: Presence, ops: seq<Operation>, errors: seq<string>, maxDeleteHit: bool)
    returns (plan: Plan)
    ensures IsPlan(plan, presence, ops, errors, maxDeleteHit)
  {
    hide Select, Paths, ByPath;
    var copies, removals := ByPath(Copies(ops)), ByPath(Removals(ops));
    var cs := Sorted(copies.Keys);
    var rs := Sorted(removals.Keys);
    var es := Sorted(presence.errored);
    var copied, bytes := ListCopies(copies, presence.missingOnDest, cs);
    var removed := ListRemovals(removals, rs);
    var failed := ListErrors(es);
    plan := Plan(copied + removed + failed, |presence.OnSource() - copies.Keys|, bytes, presence.DestFileCount(),
                 Summarised(errors), maxDeleteHit);
    assert plan == PlanInOrder(presence, copies, removals, errors, maxDeleteHit, cs, rs, es);
  }

  // ------------------------------------------------------------------ what a plan lists

  /** The copies first, then the removals, then what could not be compared. */
  function Rank(action: Action): nat {
    match action
    case Deleted => 1
    case Error => 2
    case _ => 0
  }

  /** By kind and, within a kind, by path; none twice. */
  predicate InOrder(changes: seq<Change>) {
    forall i, j :: 0 <= i < j < |changes| ==>
      || Rank(changes[i].action) < Rank(changes[j].action)
      || (&& Rank(changes[i].action) == Rank(changes[j].action)
          && AtMost(changes[i].path, changes[j].path) && changes[i].path != changes[j].path)
  }

  /** The last operation on its path. */
  predicate IsLast(ops: seq<Operation>, op: Operation) {
    exists i :: 0 <= i < |ops| && ops[i] == op && forall j :: i < j < |ops| ==> ops[j].path != op.path
  }

  /** What a presence check and a dry run say about one change: a copied path is new exactly when the destination lacks
      it, a path that goes is deleted however it goes, and both carry the size reported last. */
  predicate IsAnnounced(c: Change, presence: Presence, ops: seq<Operation>) {
    match c.action
    case New => c.path in presence.missingOnDest && c.message == None && IsSized(c, Copies(ops))
    case Updated => c.path !in presence.missingOnDest && c.message == None && IsSized(c, Copies(ops))
    case Deleted => c.message == None && IsSized(c, Removals(ops))
    case Error => c.path in presence.errored && c.size == None && c.message == Some(NOT_COMPARED)
    case ArchivedAway => false
  }

  predicate IsSized(c: Change, ops: seq<Operation>) {
    exists i :: 0 <= i < |ops| && ops[i].path == c.path && ops[i].size == c.size && IsLast(ops, ops[i])
  }

  lemma {:induction false} ByPathIsSized(c: Change, ops: seq<Operation>)
    ensures IsSized(c, ops) <==> c.path in ByPath(ops) && ByPath(ops)[c.path].size == c.size
  {
    if c.path in ByPath(ops) {
      var op := ByPath(ops)[c.path];
      ByPathIsTheLast(ops, c.path);
      var i :| 0 <= i < |ops| && ops[i] == op;
    }
    if i :| 0 <= i < |ops| && ops[i].path == c.path && ops[i].size == c.size && IsLast(ops, ops[i]) {
      var k :| 0 <= k < |ops| && ops[k] == ops[i] && forall j :: k < j < |ops| ==> ops[j].path != ops[i].path;
      ByPathIsLast(ops, k);
    }
  }

  lemma {:induction false} ByPathIsTheLast(ops: seq<Operation>, path: string)
    requires path in ByPath(ops)
    ensures IsLast(ops, ByPath(ops)[path])
  {
    if ops[|ops| - 1].path != path {
      var init := ops[..|ops| - 1];
      ByPathIsTheLast(init, path);
      LastStays(init, ops, ByPath(init)[path]);
    } else {
      LastIsLast(ops);
    }
  }

  lemma LastIsLast(ops: seq<Operation>)
    requires ops != []
    ensures IsLast(ops, ops[|ops| - 1])
  {
  }

  lemma LastStays(init: seq<Operation>, ops: seq<Operation>, op: Operation)
    requires ops != [] && init == ops[..|ops| - 1] && IsLast(init, op) && ops[|ops| - 1].path != op.path
    ensures IsLast(ops, op)
  {
    var i :| 0 <= i < |init| && init[i] == op && forall j :: i < j < |init| ==> init[j].path != op.path;
    assert ops[i] == op;
    forall j | i < j < |ops|
      ensures ops[j].path != op.path
    {
      assert j < |init| ==> init[j] == ops[j];
    }
  }

  lemma {:induction false} CopiesListed(copies: map<string, Operation>, missing: set<string>, paths: seq<string>)
    requires forall p :: p in paths ==> p in copies
    ensures var cs := CopyChanges(copies, missing, paths);
            && |cs| == |paths|
            && forall i :: 0 <= i < |cs| ==>
                 cs[i] == Change(if paths[i] in missing then New else Updated, paths[i], copies[paths[i]].size, None)
  {
    if paths != [] { CopiesListed(copies, missing, paths[..|paths| - 1]); }
  }

  lemma {:induction false} RemovalsListed(removals: map<string, Operation>, paths: seq<string>)
    requires forall p :: p in paths ==> p in removals
    ensures var cs := RemovalChanges(removals, paths);
            && |cs| == |paths|
            && forall i :: 0 <= i < |cs| ==> cs[i] == Change(Deleted, paths[i], removals[paths[i]].size, None)
  {
    if paths != [] { RemovalsListed(removals, paths[..|paths| - 1]); }
  }

  lemma {:induction false} ErrorsListed(paths: seq<string>)
    ensures var cs := ErrorChanges(paths);
            && |cs| == |paths|
            && forall i :: 0 <= i < |cs| ==> cs[i] == Change(Error, paths[i], None, Some(NOT_COMPARED))
  {
    if paths != [] { ErrorsListed(paths[..|paths| - 1]); }
  }

  /** A plan lists exactly what was announced, each change once, in order. */
  lemma PlanListsExactly(plan: Plan, presence: Presence, ops: seq<Operation>, errors: seq<string>, maxDeleteHit: bool)
    requires IsPlan(plan, presence, ops, errors, maxDeleteHit)
    ensures InOrder(plan.changes)
    ensures forall c :: c in plan.changes <==> IsAnnounced(c, presence, ops)
  {
    hide Select, ByPath, CopyChanges, RemovalChanges, ErrorChanges, Bytes, Ascending, Summarised, IsAnnounced, InOrder;
    var copies, removals := ByPath(Copies(ops)), ByPath(Removals(ops));
    var cs, rs, es :| Enumerates(cs, copies.Keys) && Enumerates(rs, removals.Keys) && Enumerates(es, presence.errored)
                      && plan == PlanInOrder(presence, copies, removals, errors, maxDeleteHit, cs, rs, es);
    ListedInOrder(copies, removals, presence, cs, rs, es);
    forall c
      ensures c in plan.changes <==> IsAnnounced(c, presence, ops)
    {
      ListedExactly(c, presence, ops, cs, rs, es);
    }
  }

  /** Its other figures: the files on the destination, the summarised errors, and whether rclone stopped early. */
  lemma PlanFigures(plan: Plan, presence: Presence, ops: seq<Operation>, errors: seq<string>, maxDeleteHit: bool)
    requires IsPlan(plan, presence, ops, errors, maxDeleteHit)
    ensures plan.destFileCount == |presence.matching + presence.differing + presence.missingOnSource|
    ensures plan.errors == Summarised(errors)
    ensures plan.truncated == maxDeleteHit
  {
    hide Select, ByPath, CopyChanges, RemovalChanges, ErrorChanges, Bytes, Ascending, Summarised;
  }

  lemma ListedInOrder(copies: map<string, Operation>, removals: map<string, Operation>, presence: Presence,
                      cs: seq<string>, rs: seq<string>, es: seq<string>)
    requires Enumerates(cs, copies.Keys) && Enumerates(rs, removals.Keys) && Enumerates(es, presence.errored)
    ensures InOrder(CopyChanges(copies, presence.missingOnDest, cs) + RemovalChanges(removals, rs) + ErrorChanges(es))
  {
    hide CopyChanges, RemovalChanges, ErrorChanges, InOrder, Ascending;
    CopiesListed(copies, presence.missingOnDest, cs);
    RemovalsListed(removals, rs);
    ErrorsListed(es);
    KindInOrder(CopyChanges(copies, presence.missingOnDest, cs), cs, 0);
    KindInOrder(RemovalChanges(removals, rs), rs, 1);
    KindInOrder(ErrorChanges(es), es, 2);
    KindsInOrder(CopyChanges(copies, presence.missingOnDest, cs), RemovalChanges(removals, rs), ErrorChanges(es));
  }

  lemma ListedExactly(c: Change, presence: Presence, ops: seq<Operation>, cs: seq<string>, rs: seq<string>,
                      es: seq<string>)
    requires Enumerates(cs, ByPath(Copies(ops)).Keys) && Enumerates(rs, ByPath(Removals(ops)).Keys)
    requires Enumerates(es, presence.errored)
    ensures c in CopyChanges(ByPath(Copies(ops)), presence.missingOnDest, cs)
                 + RemovalChanges(ByPath(Removals(ops)), rs) + ErrorChanges(es)
            <==> IsAnnounced(c, presence, ops)
  {
    hide Copies, Removals, ByPath, CopyChanges, RemovalChanges, ErrorChanges, Ascending, IsAnnounced;
    var copies, removals := ByPath(Copies(ops)), ByPath(Removals(ops));
    var a, b, d := CopyChanges(copies, presence.missingOnDest, cs), RemovalChanges(removals, rs), ErrorChanges(es);
    CopiesListed(copies, presence.missingOnDest, cs);
    RemovalsListed(removals, rs);
    ErrorsListed(es);
    AnnouncedCopy(c, copies, presence.missingOnDest, cs, a);
    AnnouncedRemoval(c, removals, rs, b);
    AnnouncedError(c, es, d);
    AnnouncedIn(c, presence, ops, a, b, d);
  }

  lemma AnnouncedIn(c: Change, presence: Presence, ops: seq<Operation>, a: seq<Change>, b: seq<Change>, d: seq<Change>)
    requires var copies := ByPath(Copies(ops));
             c in a <==> && c.path in copies && c.size == copies[c.path].size && c.message == None
                         && c.action == if c.path in presence.missingOnDest then New else Updated
    requires var removals := ByPath(Removals(ops));
             c in b <==> && c.path in removals && c.size == removals[c.path].size && c.message == None
                         && c.action == Deleted
    requires c in d <==> c.path in presence.errored && c == Change(Error, c.path, None, Some(NOT_COMPARED))
    ensures c in a + b + d <==> IsAnnounced(c, presence, ops)
  {
    hide Copies, Removals, ByPath, IsSized;
    ByPathIsSized(c, Copies(ops));
    ByPathIsSized(c, Removals(ops));
  }

  lemma KindInOrder(changes: seq<Change>, paths: seq<string>, rank: nat)
    requires |changes| == |paths| && Ascending(paths)
    requires forall i :: 0 <= i < |changes| ==> changes[i].path == paths[i] && Rank(changes[i].action) == rank
    ensures InOrder(changes)
  {
    hide AtMost, Rank;
  }

  lemma KindsInOrder(a: seq<Change>, b: seq<Change>, d: seq<Change>)
    requires forall i :: 0 <= i < |a| ==> Rank(a[i].action) == 0
    requires forall i :: 0 <= i < |b| ==> Rank(b[i].action) == 1
    requires forall i :: 0 <= i < |d| ==> Rank(d[i].action) == 2
    requires InOrder(a) && InOrder(b) && InOrder(d)
    ensures InOrder(a + b + d)
  {
    hide AtMost, Rank;
    var all := a + b + d;
    forall i, j | 0 <= i < j < |all|
      ensures || Rank(all[i].action) < Rank(all[j].action)
              || (&& Rank(all[i].action) == Rank(all[j].action)
                  && AtMost(all[i].path, all[j].path) && all[i].path != all[j].path)
    {
    }
  }

  lemma AnnouncedCopy(c: Change, copies: map<string, Operation>, missing: set<string>, cs: seq<string>, a: seq<Change>)
    requires Enumerates(cs, copies.Keys) && |a| == |cs|
    requires forall i :: 0 <= i < |a| ==>
               a[i] == Change(if cs[i] in missing then New else Updated, cs[i], copies[cs[i]].size, None)
    ensures c in a
            <==> && c.path in copies && c.size == copies[c.path].size && c.message == None
                 && c.action == if c.path in missing then New else Updated
  {
    hide AtMost;
    if c.path in copies {
      assert c.path in cs;
      var i :| 0 <= i < |cs| && cs[i] == c.path;
      assert a[i] in a;
    }
  }

  lemma AnnouncedRemoval(c: Change, removals: map<string, Operation>, rs: seq<string>, b: seq<Change>)
    requires Enumerates(rs, removals.Keys) && |b| == |rs|
    requires forall i :: 0 <= i < |b| ==> b[i] == Change(Deleted, rs[i], removals[rs[i]].size, None)
    ensures c in b
            <==> c.path in removals && c.size == removals[c.path].size && c.message == None && c.action == Deleted
  {
    hide AtMost;
    if c.path in removals {
      assert c.path in rs;
      var i :| 0 <= i < |rs| && rs[i] == c.path;
      assert b[i] in b;
    }
  }

  lemma AnnouncedError(c: Change, es: seq<string>, d: seq<Change>)
    requires |d| == |es| && forall i :: 0 <= i < |d| ==> d[i] == Change(Error, es[i], None, Some(NOT_COMPARED))
    ensures c in d <==> c.path in es && c == Change(Error, c.path, None, Some(NOT_COMPARED))
  {
    if c.path in es {
      var i :| 0 <= i < |es| && es[i] == c.path;
      assert d[i] in d;
    }
  }

  // ------------------------------------------------------------------ what the counts mean

  lemma {:induction false} CopyCounts(copies: map<string, Operation>, missing: set<string>, paths: seq<string>)
    requires (forall p :: p in paths ==> p in copies) && Ascending(paths)
    ensures var cs := CopyChanges(copies, missing, paths);
            && CountIn(cs, New) + CountIn(cs, Updated) == |paths|
            && CountIn(cs, Deleted) == CountIn(cs, Error) == 0
  {
    if paths != [] {
      var init, last := paths[..|paths| - 1], paths[|paths| - 1];
      CopyCounts(copies, missing, init);
      var before := CopyChanges(copies, missing, init);
      assert CopyChanges(copies, missing, paths)[..|before|] == before;
    }
  }

  lemma {:induction false} NewCounts(copies: map<string, Operation>, missing: set<string>, paths: seq<string>)
    requires (forall p :: p in paths ==> p in copies) && Ascending(paths)
    ensures CountIn(CopyChanges(copies, missing, paths), New) == |set p | p in paths && p in missing|
  {
    if paths == [] {
      assert (set p | p in paths && p in missing) == {};
    } else {
      var init, last := paths[..|paths| - 1], paths[|paths| - 1];
      NewCounts(copies, missing, init);
      var before := CopyChanges(copies, missing, init);
      assert CopyChanges(copies, missing, paths)[..|before|] == before;
      assert init + [last] == paths && last !in init;
      NewPaths(init, last, missing);
    }
  }

  lemma NewPaths(init: seq<string>, last: string, missing: set<string>)
    requires last !in init
    ensures |set p | p in init + [last] && p in missing|
            == |set p | p in init && p in missing| + if last in missing then 1 else 0
  {
    var before := set p | p in init && p in missing;
    assert (set p | p in init + [last] && p in missing) == before + if last in missing then {last} else {};
  }

  lemma {:induction false} RemovalCounts(removals: map<string, Operation>, paths: seq<string>)
    requires forall p :: p in paths ==> p in removals
    ensures var cs := RemovalChanges(removals, paths);
            CountIn(cs, Deleted) == |paths| && CountIn(cs, New) == CountIn(cs, Updated) == CountIn(cs, Error) == 0
  {
    if paths != [] {
      RemovalCounts(removals, paths[..|paths| - 1]);
      var before := RemovalChanges(removals, paths[..|paths| - 1]);
      assert RemovalChanges(removals, paths)[..|before|] == before;
    }
  }

  lemma {:induction false} ErrorCounts(paths: seq<string>)
    ensures var cs := ErrorChanges(paths);
            CountIn(cs, Error) == |paths| && CountIn(cs, New) == CountIn(cs, Updated) == CountIn(cs, Deleted) == 0
  {
    if paths != [] {
      ErrorCounts(paths[..|paths| - 1]);
      var before := ErrorChanges(paths[..|paths| - 1]);
      assert ErrorChanges(paths)[..|before|] == before;
    }
  }

  lemma CountsAddUp(a: seq<Change>, b: seq<Change>, c: seq<Change>, action: Action)
    ensures CountIn(a + b + c, action) == CountIn(a, action) + CountIn(b, action) + CountIn(c, action)
  {
    CountInConcat(a + b, c, action);
    CountInConcat(a, b, action);
  }

  /** The plan partitions what rclone announced: every copied path is new or updated, new exactly when the
      destination lacks it; each removed path counts once; every source file is unchanged or copied. */
  lemma PlanPartitions(plan: Plan, presence: Presence, ops: seq<Operation>, errors: seq<string>, maxDeleteHit: bool)
    requires IsPlan(plan, presence, ops, errors, maxDeleteHit)
    ensures plan.Count(New) == |Paths(Copies(ops)) * presence.missingOnDest|
    ensures plan.Count(New) + plan.Count(Updated) == |Paths(Copies(ops))|
    ensures plan.Count(Deleted) == |Paths(Removals(ops))|
    ensures plan.Count(Error) == |presence.errored|
    ensures var source := presence.matching + presence.differing + presence.missingOnDest;
            plan.unchangedCount + |source * Paths(Copies(ops))| == |source|
  {
    hide CountIn, CopyChanges, RemovalChanges, ErrorChanges, Select, ByPath, Ascending, Bytes, Summarised;
    var copies, removals := ByPath(Copies(ops)), ByPath(Removals(ops));
    var cs, rs, es :| Enumerates(cs, copies.Keys) && Enumerates(rs, removals.Keys) && Enumerates(es, presence.errored)
                      && plan == PlanInOrder(presence, copies, removals, errors, maxDeleteHit, cs, rs, es);
    ChangeCounts(plan.changes, presence, copies, removals, cs, rs, es);
    var touched := presence.OnSource() * Paths(Copies(ops));
    assert presence.OnSource() - copies.Keys == presence.OnSource() - touched;
  }

  /** The changes of a plan, counted by action. */
  lemma ChangeCounts(changes: seq<Change>, presence: Presence, copies: map<string, Operation>,
                     removals: map<string, Operation>, cs: seq<string>, rs: seq<string>, es: seq<string>)
    requires Enumerates(cs, copies.Keys) && Enumerates(rs, removals.Keys) && Enumerates(es, presence.errored)
    requires changes == CopyChanges(copies, presence.missingOnDest, cs) + RemovalChanges(removals, rs)
             + ErrorChanges(es)
    ensures CountIn(changes, New) == |copies.Keys * presence.missingOnDest|
    ensures CountIn(changes, New) + CountIn(changes, Updated) == |copies.Keys|
    ensures CountIn(changes, Deleted) == |removals.Keys| && CountIn(changes, Error) == |presence.errored|
  {
    hide CountIn, CopyChanges, RemovalChanges, ErrorChanges, Ascending;
    var a, b, c := CopyChanges(copies, presence.missingOnDest, cs), RemovalChanges(removals, rs), ErrorChanges(es);
    CopyCounts(copies, presence.missingOnDest, cs);
    NewCounts(copies, presence.missingOnDest, cs);
    RemovalCounts(removals, rs);
    ErrorCounts(es);
    CountsAddUp(a, b, c, New);
    CountsAddUp(a, b, c, Updated);
    CountsAddUp(a, b, c, Deleted);
    CountsAddUp(a, b, c, Error);
    assert (set p | p in cs && p in presence.missingOnDest) == copies.Keys * presence.missingOnDest;
  }

  /** One plan only: the order of the log does not show in it beyond which report of a path came last. */
  lemma PlanIsUnique(p: Plan, q: Plan, presence: Presence, ops: seq<Operation>, errors: seq<string>, maxDeleteHit: bool)
    requires IsPlan(p, presence, ops, errors, maxDeleteHit) && IsPlan(q, presence, ops, errors, maxDeleteHit)
    ensures p == q
  {
    var copies, removals := ByPath(Copies(ops)), ByPath(Removals(ops));
    var cs, rs, es :| Enumerates(cs, copies.Keys) && Enumerates(rs, removals.Keys) && Enumerates(es, presence.errored)
                      && p == PlanInOrder(presence, copies, removals, errors, maxDeleteHit, cs, rs, es);
    var cs', rs', es' :| Enumerates(cs', copies.Keys) && Enumerates(rs', removals.Keys)
                         && Enumerates(es', presence.errored)
                         && q == PlanInOrder(presence, copies, removals, errors, maxDeleteHit, cs', rs', es');
    AscendingUnique(cs, cs', copies.Keys);
    AscendingUnique(rs, rs', removals.Keys);
    AscendingUnique(es, es', presence.errored);
  }

  /** The sum of the sizes over a set of paths, in any order. */
  ghost function BytesOf(copies: map<string, Operation>, paths: set<string>): int
    requires paths <= copies.Keys
  {
    if exists p :: p in paths then
      var p :| p in paths;
      SizeOf(copies[p].size) + BytesOf(copies, paths - {p})
    else 0
  }

  lemma {:induction false} BytesOfTake(copies: map<string, Operation>, paths: set<string>, p: string)
    requires p in paths && paths <= copies.Keys
    ensures BytesOf(copies, paths) == SizeOf(copies[p].size) + BytesOf(copies, paths - {p})
    decreases paths
  {
    var q :| q in paths && BytesOf(copies, paths) == SizeOf(copies[q].size) + BytesOf(copies, paths - {q});
    if q != p {
      BytesOfTake(copies, paths - {q}, p);
      BytesOfTake(copies, paths - {p}, q);
      assert paths - {q} - {p} == paths - {p} - {q};
    }
  }

  lemma {:induction false} BytesIsSum(copies: map<string, Operation>, paths: seq<string>)
    requires Ascending(paths) && forall p :: p in paths ==> p in copies
    ensures Bytes(copies, paths) == BytesOf(copies, set p | p in paths)
  {
    if paths == [] {
      assert (set p | p in paths) == {};
    } else {
      hide AtMost, BytesOf;
      var init, last := paths[..|paths| - 1], paths[|paths| - 1];
      BytesIsSum(copies, init);
      BytesOfTake(copies, (set p | p in paths), last);
      assert init + [last] == paths && last !in init;
      assert (set p | p in paths) - {last} == set p | p in init;
    }
  }

  /** The bytes to transfer are the sum, over the distinct copied paths, of the size reported last. */
  lemma PlanBytes(plan: Plan, presence: Presence, ops: seq<Operation>, errors: seq<string>, maxDeleteHit: bool)
    requires IsPlan(plan, presence, ops, errors, maxDeleteHit)
    ensures plan.bytesToTransfer == BytesOf(ByPath(Copies(ops)), Paths(Copies(ops)))
  {
    hide Select, ByPath, CopyChanges, RemovalChanges, ErrorChanges, Bytes, BytesOf, AtMost;
    var copies := ByPath(Copies(ops));
    var cs, rs, es :| Enumerates(cs, copies.Keys) && Enumerates(rs, ByPath(Removals(ops)).Keys)
                      && Enumerates(es, presence.errored)
                      && plan == PlanInOrder(presence, copies, ByPath(Removals(ops)), errors, maxDeleteHit, cs, rs, es);
    BytesIsSum(copies, cs);
    assert (set p | p in cs) == copies.Keys;
  }

  /** The last report of a path is the one that counts. */
  lemma {:induction false} ByPathIsLast(ops: seq<Operation>, i: nat)
    requires i < |ops| && forall j :: i < j < |ops| ==> ops[j].path != ops[i].path
    ensures ops[i].path in ByPath(ops) && ByPath(ops)[ops[i].path] == ops[i]
  {
    if i < |ops| - 1 {
      ByPathIsLast(ops[..|ops| - 1], i);
    }
  }

  /** With disjoint check categories, as rclone writes them, the brake's denominator is a plain sum. */
  lemma DestFileCountIsSum(p: Presence)
    requires p.matching !! p.differing && p.matching !! p.missingOnSource && p.differing !! p.missingOnSource
    ensures p.DestFileCount() == |p.matching| + |p.differing| + |p.missingOnSource|
  {
    assert |p.matching + p.differing| == |p.matching| + |p.differing|;
    assert |(p.matching + p.differing) + p.missingOnSource| == |p.matching + p.differing| + |p.missingOnSource|;
  }
}

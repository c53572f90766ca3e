/** The names of run directories: written by `plan_for` in app/jobs/archive.py, read back by `plan_archive` in
    app/jobs/retention.py to decide which are old enough to remove. */
module Stamps {
  import opened Wrappers
  import opened Text
  import opened ArchivePaths

  /** A time to the second, in UTC. */
  datatype Moment = Moment(year: int, month: int, day: int, hour: int, minute: int, second: int)

  predicate IsLeap(year: int) { year % 4 == 0 && (year % 100 != 0 || year % 400 == 0) }

  function DaysIn(year: int, month: int): int {
    if month == 2 then if IsLeap(year) then 29 else 28
    else if month in {4, 6, 9, 11} then 30
    else 31
  }

  /** What a datetime can hold. */
  predicate IsMoment(m: Moment) {
    && 1 <= m.year <= 9999 && 1 <= m.month <= 12 && 1 <= m.day <= DaysIn(m.year, m.month)
    && 0 <= m.hour < 24 && 0 <= m.minute < 60 && 0 <= m.second < 60
  }

  /** The days before a year, and from its first of March to the first of a month of that year or the next, as the
      Gregorian calendar counts them. */
  function DaysBefore(year: int): int { 365 * (year - 1) + (year - 1) / 4 - (year - 1) / 100 + (year - 1) / 400 }

  function SinceMarch(month: int): int { (153 * ((month + 9) % 12) + 2) / 5 }

  /** Months and years are as long as in the Gregorian calendar. */
  lemma CalendarIsGregorian(year: int, month: int)
    requires year >= 1 && 1 <= month <= 12
    ensures month != 2 ==>
              DaysIn(year, month) == (if month == 12 then SinceMarch(1) else if month == 1 then SinceMarch(2)
                                      else SinceMarch(month + 1)) - SinceMarch(month)
    ensures SinceMarch(1) + DaysIn(year, 1) + DaysIn(year, 2) == DaysBefore(year + 1) - DaysBefore(year)
  {
    hide IsLeap, DaysBefore;
    YearIsGregorian(year);
  }

  lemma YearIsGregorian(year: int)
    requires year >= 1
    ensures DaysBefore(year + 1) - DaysBefore(year) == if IsLeap(year) then 366 else 365
  {
    hide IsLeap;
    Multiples(year, 4);
    Multiples(year, 100);
    Multiples(year, 400);
    LeapByDivisors(year);
  }

  function One(yes: bool): int { if yes then 1 else 0 }

  lemma LeapByDivisors(year: int)
    ensures One(IsLeap(year)) == One(year % 4 == 0) - One(year % 100 == 0) + One(year % 400 == 0)
  {
    Divisible(year, 4, 25);
    Divisible(year, 100, 4);
  }

  lemma Divisible(n: int, k: int, m: int)
    requires k >= 1 && m >= 1
    ensures n % (k * m) == 0 ==> n % k == 0
  {
    var q := n / (k * m);
    if n % (k * m) == 0 {
      assert n == k * (m * q) + 0;
      Quotient(n, k, m * q, 0);
    }
  }

  lemma Multiples(n: int, k: int)
    requires n >= 1 && k >= 2
    ensures n / k - (n - 1) / k == One(n % k == 0)
  {
    var q, r := n / k, n % k;
    assert n == k * q + r;
    if r == 0 {
      assert n - 1 == k * (q - 1) + (k - 1);
      Quotient(n - 1, k, q - 1, k - 1);
    } else {
      Quotient(n - 1, k, q, r - 1);
    }
  }

  lemma Quotient(n: int, k: int, q: int, r: int)
    requires k >= 1 && n == k * q + r && 0 <= r < k
    ensures n / k == q
  {
    var d := n / k - q;
    assert k * d == r - n % k;
    assert d <= -1 ==> k * d <= -k;
    assert d >= 1 ==> k * d >= k;
  }

  predicate Earlier(a: Moment, b: Moment) {
    if a.year != b.year then a.year < b.year
    else if a.month != b.month then a.month < b.month
    else if a.day != b.day then a.day < b.day
    else if a.hour != b.hour then a.hour < b.hour
    else if a.minute != b.minute then a.minute < b.minute
    else a.second < b.second
  }

  // ------------------------------------------------------------------ writing and reading

  function Digit(n: int): char
    requires 0 <= n < 10
  {
    n as char + '0'
  }

  predicate IsDigit(c: char) { '0' <= c <= '9' }

  function Value(c: char): int { c as int - '0' as int }

  /** The two-digit groups of a stamp, in order. */
  function Groups(m: Moment): (g: seq<int>)
    ensures |g| == 7
    ensures IsMoment(m) ==> forall f :: 0 <= f < 7 ==> 0 <= g[f] < 100
  {
    [m.year / 100, m.year % 100, m.month, m.day, m.hour, m.minute, m.second]
  }

  /** Where each group starts. */
  function Start(f: nat): (k: nat)
    requires f < 7
    ensures k <= 17
  {
    if f < 2 then 2 * f else 3 * f - 1
  }

  /** The format `%Y-%m-%dT%H-%M-%SZ`. */
  function Format(m: Moment): (s: string)
    requires IsMoment(m)
    ensures |s| == 20
  {
    var g := Groups(m);
    [Digit(g[0] / 10), Digit(g[0] % 10), Digit(g[1] / 10), Digit(g[1] % 10), '-',
     Digit(g[2] / 10), Digit(g[2] % 10), '-', Digit(g[3] / 10), Digit(g[3] % 10), 'T',
     Digit(g[4] / 10), Digit(g[4] % 10), '-', Digit(g[5] / 10), Digit(g[5] % 10), '-',
     Digit(g[6] / 10), Digit(g[6] % 10), 'Z']
  }

  /** A stamp is its groups at their places. */
  lemma FormatAt(m: Moment, f: nat)
    requires IsMoment(m) && f < 7
    ensures Format(m)[Start(f)] == Digit(Groups(m)[f] / 10) && Format(m)[Start(f) + 1] == Digit(Groups(m)[f] % 10)
  {
    hide Digit, Groups;
  }

  predicate HasLayout(s: string) {
    && |s| == 20
    && IsDigit(s[0]) && IsDigit(s[1]) && IsDigit(s[2]) && IsDigit(s[3]) && s[4] == '-'
    && IsDigit(s[5]) && IsDigit(s[6]) && s[7] == '-' && IsDigit(s[8]) && IsDigit(s[9]) && s[10] == 'T'
    && IsDigit(s[11]) && IsDigit(s[12]) && s[13] == '-' && IsDigit(s[14]) && IsDigit(s[15]) && s[16] == '-'
    && IsDigit(s[17]) && IsDigit(s[18]) && s[19] == 'Z'
  }

  /** The pattern `STAMP`; its `$` also matches before a trailing newline. */
  predicate MatchesStamp(name: string) {
    HasLayout(name) || (|name| == 21 && name[20] == '\n' && HasLayout(name[..20]))
  }

  function Two(s: string, i: nat): int
    requires i + 1 < |s|
  {
    10 * Value(s[i]) + Value(s[i + 1])
  }

  /** `strptime` with the same format. None where it raises: no such date, or something left over. */
  function Parse(name: string): Option<Moment> {
    if !HasLayout(name) then None
    else
      var m := Moment(100 * Two(name, 0) + Two(name, 2), Two(name, 5), Two(name, 8), Two(name, 11), Two(name, 14),
                      Two(name, 17));
      if IsMoment(m) then Some(m) else None
  }

  lemma DigitsRead(n: int, s: string, i: nat)
    requires 0 <= n < 100 && i + 1 < |s| && s[i] == Digit(n / 10) && s[i + 1] == Digit(n % 10)
    ensures Two(s, i) == n && IsDigit(s[i]) && IsDigit(s[i + 1])
  {
  }

  lemma DigitsWritten(s: string, i: nat)
    requires i + 1 < |s| && IsDigit(s[i]) && IsDigit(s[i + 1])
    ensures var n := Two(s, i); 0 <= n < 100 && s[i] == Digit(n / 10) && s[i + 1] == Digit(n % 10)
  {
  }

  lemma GroupsRead(m: Moment)
    requires IsMoment(m)
    ensures var s := Format(m);
            HasLayout(s) && forall f :: 0 <= f < 7 ==> Two(s, Start(f)) == Groups(m)[f]
  {
    hide Two, Digit, Groups, IsDigit;
    forall f | 0 <= f < 7
      ensures var s := Format(m); var k := Start(f); Two(s, k) == Groups(m)[f] && IsDigit(s[k]) && IsDigit(s[k + 1])
    {
      FormatAt(m, f);
      DigitsRead(Groups(m)[f], Format(m), Start(f));
    }
    var s := Format(m);
    assert Start(0) == 0 && Start(1) == 2 && Start(2) == 5 && Start(3) == 8 && Start(4) == 11 && Start(5) == 14
      && Start(6) == 17;
  }

  /** Every name a run writes is one retention recognises, reads back to the same second, and is a plain path
      element. */
  lemma WrittenIsRead(m: Moment)
    requires IsMoment(m)
    ensures MatchesStamp(Format(m)) && Parse(Format(m)) == Some(m) && IsStamp(Format(m))
  {
    hide Format, Two, IsMoment;
    GroupsRead(m);
    var s := Format(m);
    assert Start(0) == 0 && Start(1) == 2 && Start(2) == 5 && Start(3) == 8 && Start(4) == 11 && Start(5) == 14
      && Start(6) == 17;
    assert Groups(m)[0] == m.year / 100 && Groups(m)[1] == m.year % 100;
    LayoutIsPlain(s);
  }

  lemma LayoutIsPlain(s: string)
    requires HasLayout(s)
    ensures IsStamp(s)
  {
    forall i | 0 <= i < |s|
      ensures s[i] !in {'/', ':', '\n'}
    {
      assert IsDigit(s[i]) || s[i] in {'-', 'T', 'Z'};
    }
  }

  /** And a name reads as a moment only if it is the one written for it. */
  lemma ReadIsWritten(name: string, m: Moment)
    requires Parse(name) == Some(m)
    ensures IsMoment(m) && name == Format(m)
  {
    hide Digit, Groups, IsMoment, Format, DaysIn;
    GroupsAre(name, m);
    SameGroups(name, m);
  }

  lemma GroupsAre(name: string, m: Moment)
    requires Parse(name) == Some(m)
    ensures IsMoment(m) && HasLayout(name) && forall f :: 0 <= f < 7 ==> Groups(m)[f] == Two(name, Start(f))
  {
    hide IsMoment, HasLayout, Two;
    ParsedParts(name, m);
    var low := Two(name, 2);
    assert m.year / 100 == Two(name, 0) && m.year % 100 == low;
  }

  lemma ParsedParts(name: string, m: Moment)
    requires Parse(name) == Some(m)
    ensures IsMoment(m) && HasLayout(name) && |name| == 20
    ensures 0 <= Two(name, 2) < 100
    ensures m == Moment(100 * Two(name, 0) + Two(name, 2), Two(name, 5), Two(name, 8), Two(name, 11), Two(name, 14),
                        Two(name, 17))
  {
    hide IsMoment;
    DigitsWritten(name, 2);
  }

  lemma SameGroups(name: string, m: Moment)
    requires IsMoment(m) && HasLayout(name) && forall f :: 0 <= f < 7 ==> Groups(m)[f] == Two(name, Start(f))
    ensures name == Format(m)
  {
    hide Two, Digit, Groups, IsMoment;
    forall f | 0 <= f < 7
      ensures var k := Start(f); name[k] == Format(m)[k] && name[k + 1] == Format(m)[k + 1]
    {
      FormatAt(m, f);
      DigitsWritten(name, Start(f));
    }
    var s := Format(m);
    assert Start(0) == 0 && Start(1) == 2 && Start(2) == 5 && Start(3) == 8 && Start(4) == 11 && Start(5) == 14
      && Start(6) == 17;
    assert forall i :: 0 <= i < 20 ==> name[i] == s[i];
  }

  // ------------------------------------------------------------------ names sort by age

  lemma {:induction false} FirstDifference(a: string, b: string, k: nat)
    requires k < |a| && k < |b| && a[..k] == b[..k] && a[k] < b[k]
    ensures AtMost(a, b) && !AtMost(b, a)
    decreases k
  {
    if k > 0 {
      assert a[0] == a[..k][0] == b[..k][0] == b[0];
      assert a[1..][..k - 1] == a[..k][1..] && b[1..][..k - 1] == b[..k][1..];
      FirstDifference(a[1..], b[1..], k - 1);
    }
  }

  /** Before the first group that differs, two stamps agree. */
  lemma AgreeBefore(a: Moment, b: Moment, f: nat)
    requires IsMoment(a) && IsMoment(b) && f < 7 && Groups(a)[..f] == Groups(b)[..f]
    ensures Format(a)[..Start(f)] == Format(b)[..Start(f)]
  {
    hide Digit, Groups, IsMoment;
    var g, h := Groups(a), Groups(b);
    forall i | 0 <= i < f
      ensures g[i] == h[i]
    {
      assert g[..f][i] == h[..f][i];
    }
    assert forall i :: 0 <= i < Start(f) ==> Format(a)[i] == Format(b)[i];
  }

  lemma DivergesThere(a: Moment, b: Moment, f: nat)
    requires IsMoment(a) && IsMoment(b) && f < 7 && Groups(a)[..f] == Groups(b)[..f] && Groups(a)[f] < Groups(b)[f]
    ensures AtMost(Format(a), Format(b)) && !AtMost(Format(b), Format(a))
  {
    hide Groups, Format, IsMoment, AtMost;
    var x, y, k := Groups(a)[f], Groups(b)[f], Start(f);
    AgreeBefore(a, b, f);
    FormatAt(a, f);
    FormatAt(b, f);
    if x / 10 == y / 10 {
      assert Format(a)[..k + 1] == Format(a)[..k] + [Format(a)[k]];
      assert Format(b)[..k + 1] == Format(b)[..k] + [Format(b)[k]];
      FirstDifference(Format(a), Format(b), k + 1);
    } else {
      FirstDifference(Format(a), Format(b), k);
    }
  }

  /** The first group in which a moment is smaller than a later one. */
  lemma EarlierGroup(a: Moment, b: Moment) returns (f: nat)
    requires Earlier(a, b)
    ensures f < 7 && Groups(a)[..f] == Groups(b)[..f] && Groups(a)[f] < Groups(b)[f]
  {
    f := if a.year / 100 != b.year / 100 then 0
         else if a.year != b.year then 1
         else if a.month != b.month then 2
         else if a.day != b.day then 3
         else if a.hour != b.hour then 4
         else if a.minute != b.minute then 5
         else 6;
  }

  /** Sorted by name is sorted by time. */
  lemma NamesSortByAge(a: Moment, b: Moment)
    requires IsMoment(a) && IsMoment(b)
    ensures AtMost(Format(a), Format(b)) <==> a == b || Earlier(a, b)
  {
    hide Format, Groups, IsMoment, AtMost;
    if Earlier(a, b) {
      var f := EarlierGroup(a, b);
      DivergesThere(a, b, f);
    } else if a == b {
      AtMostTotal(Format(a), Format(b));
    } else {
      var f := EarlierGroup(b, a);
      DivergesThere(b, a, f);
    }
  }

  // ------------------------------------------------------------------ what retention plans to remove

  datatype Entry = Entry(name: string, isDir: bool, size: nat)

  /** The cutoff: a moment and the microseconds past it. */
  datatype Cutoff = Cutoff(moment: Moment, micros: nat)

  predicate IsAged(m: Moment, cutoff: Cutoff) {
    Earlier(m, cutoff.moment) || (m == cutoff.moment && cutoff.micros > 0)
  }

  /** Too old by its name alone: it sorts before the cutoff's, or is the cutoff's and the cutoff lies past it. */
  lemma AgedByName(m: Moment, cutoff: Cutoff)
    requires IsMoment(m) && IsMoment(cutoff.moment)
    ensures IsAged(m, cutoff)
            <==> && AtMost(Format(m), Format(cutoff.moment))
                 && (Format(m) == Format(cutoff.moment) ==> cutoff.micros > 0)
  {
    hide Format, IsMoment, AtMost, Earlier;
    NamesSortByAge(m, cutoff.moment);
    WrittenIsRead(m);
    WrittenIsRead(cutoff.moment);
    assert !Earlier(m, m) by { NeverEarlier(m); }
  }

  lemma NeverEarlier(m: Moment)
    ensures !Earlier(m, m)
  {
  }

  /** A directory that looks like a run's but whose name is no date. */
  predicate IsImpostor(e: Entry) { e.isDir && MatchesStamp(e.name) && Parse(e.name).None? }

  predicate IsRemoved(e: Entry, cutoff: Cutoff) {
    e.isDir && Parse(e.name).Some? && IsAged(Parse(e.name).value, cutoff)
  }

  function Removed(entries: seq<Entry>, cutoff: Cutoff): seq<Entry> {
    if entries == [] then []
    else
      var last := entries[|entries| - 1];
      Removed(entries[..|entries| - 1], cutoff) + if IsRemoved(last, cutoff) then [last] else []
  }

  function TotalSize(entries: seq<Entry>): nat {
    if entries == [] then 0 else TotalSize(entries[..|entries| - 1]) + entries[|entries| - 1].size
  }

  /** Sizes add up, in any grouping. */
  lemma {:induction false} TotalSizeConcat(a: seq<Entry>, b: seq<Entry>)
    ensures TotalSize(a + b) == TotalSize(a) + TotalSize(b)
    ensures forall e: Entry :: TotalSize([e]) == e.size
  {
    forall e: Entry
      ensures TotalSize([e]) == e.size
    {
      assert [e][..0] == [];
    }
    if b == [] {
      assert a + b == a;
    } else {
      assert (a + b)[..|a + b| - 1] == a + b[..|b| - 1];
      TotalSizeConcat(a, b[..|b| - 1]);
    }
  }

  datatype Unreadable = Unreadable(name: string)

  /** The loop of `plan_archive`, over the entries of the job's directory in order. An impossible date raises, and
      the plan is lost. */
  method PlanRemovals(entries: seq<Entry>, cutoff: Cutoff) returns (plan: Result<(seq<Entry>, nat), Unreadable>)
    ensures plan.Ok? <==> forall e :: e in entries ==> !IsImpostor(e)
    ensures plan.Ok? ==> plan.value.0 == Removed(entries, cutoff) && plan.value.1 == TotalSize(plan.value.0)
  {
    hide Parse, MatchesStamp, IsAged;
    var directories: seq<Entry> := [];
    var bytesFreed := 0;
    for i := 0 to |entries|
      invariant forall e :: e in entries[..i] ==> !IsImpostor(e)
      invariant directories == Removed(entries[..i], cutoff) && bytesFreed == TotalSize(directories)
    {
      var entry := entries[i];
      assert entries[..i + 1] == entries[..i] + [entry];
      ParsedMatches(entry.name);
      if !entry.isDir || !MatchesStamp(entry.name) {
        continue;
      }
      var stamped := Parse(entry.name);
      if stamped.None? {
        assert IsImpostor(entries[i]);
        return Err(Unreadable(entry.name));
      }
      if IsAged(stamped.value, cutoff) {
        directories := directories + [entry];
        bytesFreed := bytesFreed + entry.size;
      }
    }
    assert entries[..|entries|] == entries;
    plan := Ok((directories, bytesFreed));
  }

  lemma ParsedMatches(name: string)
    ensures Parse(name).Some? ==> MatchesStamp(name)
  {
  }

  /** A planned directory was written by a run, at a time before the cutoff, and is listed by the plan if it is
      there. */
  lemma {:induction false} RemovedExactly(entries: seq<Entry>, cutoff: Cutoff, e: Entry)
    ensures e in Removed(entries, cutoff)
            <==> e in entries && e.isDir && exists m :: IsMoment(m) && e.name == Format(m) && IsAged(m, cutoff)
  {
    hide IsMoment, Format, Parse, IsAged, Earlier;
    InRemoved(entries, cutoff, e);
    if Parse(e.name).Some? {
      ReadIsWritten(e.name, Parse(e.name).value);
    }
    if exists m :: IsMoment(m) && e.name == Format(m) && IsAged(m, cutoff) {
      var m :| IsMoment(m) && e.name == Format(m) && IsAged(m, cutoff);
      WrittenIsRead(m);
    }
  }

  lemma {:induction false} InRemoved(entries: seq<Entry>, cutoff: Cutoff, e: Entry)
    ensures e in Removed(entries, cutoff) <==> e in entries && IsRemoved(e, cutoff)
  {
    hide IsRemoved;
    if entries != [] { InRemoved(entries[..|entries| - 1], cutoff, e); }
  }

  /** A name laid out like a stamp is an impostor exactly when it is not the name of any moment, as with a thirteenth
      month: then one directory stops the plan for the whole job. */
  lemma ImpostorExactly(name: string, size: nat)
    requires MatchesStamp(name)
    ensures IsImpostor(Entry(name, true, size)) <==> !exists m :: IsMoment(m) && name == Format(m)
    ensures HasLayout(name) && Two(name, 5) == 13 ==> IsImpostor(Entry(name, true, size))
    ensures HasLayout(name) <==> name[|name| - 1] != '\n'
  {
    LayoutEnds(name);
    hide IsMoment, Format, HasLayout, MatchesStamp, Two, Parse;
    ThirteenthMonth(name);
    if Parse(name).Some? {
      ReadIsWritten(name, Parse(name).value);
    }
    if exists m :: IsMoment(m) && name == Format(m) {
      var m :| IsMoment(m) && name == Format(m);
      WrittenIsRead(m);
    }
  }

  /** A stamp with a newline behind it is laid out like one too, as the pattern reads it, and is no moment's. */
  lemma NewlineIsImpostor(m: Moment, size: nat)
    requires IsMoment(m)
    ensures IsImpostor(Entry(Format(m) + "\n", true, size))
  {
    hide Format, IsMoment, HasLayout;
    WrittenIsRead(m);
    var name := Format(m) + "\n";
    assert name[..20] == Format(m);
    LayoutEnds(Format(m));
    assert !HasLayout(name) by { LayoutLength(name); }
  }

  lemma LayoutLength(s: string)
    requires |s| != 20
    ensures !HasLayout(s)
  {
  }

  lemma LayoutEnds(name: string)
    requires MatchesStamp(name)
    ensures HasLayout(name) <==> name[|name| - 1] != '\n'
    ensures HasLayout(name) || (name[|name| - 1] == '\n' && HasLayout(name[..|name| - 1]))
  {
  }

  lemma ThirteenthMonth(name: string)
    ensures HasLayout(name) && Two(name, 5) == 13 ==> Parse(name).None?
  {
    hide HasLayout, Two;
  }

  // ------------------------------------------------------------------ a maintenance pass

  /** One job as the pass finds it: whether it archives what it deletes, its retention (its own or the default one),
      where its destination resolves to, the run directories found there, and how old is too old. */
  datatype JobArchive = JobArchive(archives: bool, retentionDays: Option<int>, job: Job, destination: Option<string>,
                                   found: Option<seq<Entry>>, cutoff: Cutoff)

  /** A path on this machine's filesystem. */
  predicate IsLocal(base: string) { SplitRemote(base).remote == "" && IsAbsolute(SplitRemote(base).path) }

  /** The guards of `plan_archive`: everything else is left alone, with a reason. */
  predicate IsAgedOut(j: JobArchive, stamp: string) {
    && j.archives && j.retentionDays.Some? && j.retentionDays.value != 0
    && j.job.layout == TimestampedDir && j.destination.Some?
    && PlanFor(j.job, j.destination.value, stamp).Ok?
    && IsLocal(PlanFor(j.job, j.destination.value, stamp).value.base)
    && j.found.Some?
  }

  /** A job is pruned exactly when it archives what it deletes, by timestamp, with a retention other than zero, into an
      accepted directory that is addressed from the root of this machine and is there. */
  lemma AgedOutExactly(j: JobArchive, stamp: string)
    ensures IsAgedOut(j, stamp)
            <==> && j.archives && j.retentionDays.GetOr(0) != 0 && j.job.layout == TimestampedDir
                 && j.found.Some? && j.destination.Some? && PlanFor(j.job, j.destination.value, stamp).Ok?
                 && var base := PlanFor(j.job, j.destination.value, stamp).value.base; base != "" && base[0] == '/'
  {
    hide PlanFor, SplitRemote;
    if j.destination.Some? && PlanFor(j.job, j.destination.value, stamp).Ok? {
      var base := PlanFor(j.job, j.destination.value, stamp).value.base;
      SplitSound(base);
      if IsAbsolute(base) { AbsoluteIsPlain(base); }
      assert base != "" ==> base[..1] == [base[0]];
    }
  }

  /** What one job's plan removes. */
  function PlanOf(j: JobArchive, stamp: string): seq<Entry> {
    if IsAgedOut(j, stamp) then Removed(j.found.value, j.cutoff) else []
  }

  /** The job's directory holds one laid out like a run's whose name is no date. */
  predicate Stumbles(j: JobArchive, stamp: string) {
    IsAgedOut(j, stamp) && exists e :: e in j.found.value && IsImpostor(e)
  }

  /** `plan`: every job is planned before anything is done. */
  method PlanJobs(jobs: seq<JobArchive>, stamp: string) returns (plans: Result<seq<seq<Entry>>, Unreadable>)
    ensures plans.Ok? <==> forall j :: j in jobs ==> !Stumbles(j, stamp)
    ensures plans.Ok? ==> |plans.value| == |jobs|
    ensures plans.Ok? ==> forall i :: 0 <= i < |jobs| ==> plans.value[i] == PlanOf(jobs[i], stamp)
  {
    hide PlanFor, Removed, IsImpostor;
    var planned: seq<seq<Entry>> := [];
    for i := 0 to |jobs|
      invariant |planned| == i
      invariant forall k :: 0 <= k < i ==> planned[k] == PlanOf(jobs[k], stamp) && !Stumbles(jobs[k], stamp)
    {
      var j := jobs[i];
      if IsAgedOut(j, stamp) {
        var plan := PlanRemovals(j.found.value, j.cutoff);
        if plan.Err? {
          assert Stumbles(jobs[i], stamp);
          return Err(plan.error);
        }
        planned := planned + [plan.value.0];
      } else {
        planned := planned + [[]];
      }
    }
    plans := Ok(planned);
  }

  /** What a pass has left behind: the run directories of each job, and whether logs and run history were pruned. */
  class Maintenance {
    var jobs: seq<JobArchive>
    var logsPruned: bool
    var runsPruned: bool

    constructor (jobs: seq<JobArchive>)
      ensures this.jobs == jobs && !logsPruned && !runsPruned
    {
      this.jobs, logsPruned, runsPruned := jobs, false, false;
    }

    /** `run`: plan, then act. One directory with an impossible date, in whatever job, and the whole pass does nothing:
        no archive is pruned, no log, no run. Otherwise each job loses exactly what its own plan lists. */
    method RunPass(stamp: string) returns (ok: bool)
      modifies this
      ensures ok <==> forall j :: j in old(jobs) ==> !Stumbles(j, stamp)
      ensures !ok ==> jobs == old(jobs) && logsPruned == old(logsPruned) && runsPruned == old(runsPruned)
      ensures ok ==> logsPruned && runsPruned && |jobs| == |old(jobs)|
      ensures ok ==> forall i :: 0 <= i < |jobs| ==> jobs[i] == Pruned(old(jobs)[i], stamp)
    {
      hide PlanOf, Pruned, Stumbles;
      var plans := PlanJobs(jobs, stamp);
      if plans.Err? {
        return false;
      }
      var before := jobs;
      for i := 0 to |before|
        invariant |jobs| == |before|
        invariant forall k :: 0 <= k < i ==> jobs[k] == Pruned(before[k], stamp)
        invariant forall k :: i <= k < |before| ==> jobs[k] == before[k]
      {
        PrunedByPlan(before[i], stamp);
        var left := before[i].found;
        if left.Some? {
          var kept := Without(left.value, plans.value[i]);
          jobs := jobs[i := before[i].(found := Some(kept))];
        }
      }
      logsPruned, runsPruned := true, true;
      ok := true;
    }
  }

  function Without(entries: seq<Entry>, gone: seq<Entry>): seq<Entry> {
    if entries == [] then []
    else
      var last := entries[|entries| - 1];
      Without(entries[..|entries| - 1], gone) + if last in gone then [] else [last]
  }

  /** The job after a pass. */
  function Pruned(j: JobArchive, stamp: string): JobArchive {
    if j.found.None? then j else j.(found := Some(Without(j.found.value, PlanOf(j, stamp))))
  }

  lemma PrunedByPlan(j: JobArchive, stamp: string)
    ensures Pruned(j, stamp) == if j.found.Some? then j.(found := Some(Without(j.found.value, PlanOf(j, stamp)))) else j
  {
  }

  /** After a pass exactly the aged run directories are gone, and only of jobs that are pruned at all. */
  lemma {:induction false} PassRemovesExactly(j: JobArchive, stamp: string, e: Entry)
    requires j.found.Some?
    ensures e in Pruned(j, stamp).found.value
            <==> && e in j.found.value
                 && !(&& j.archives && j.retentionDays.GetOr(0) != 0 && j.job.layout == TimestampedDir
                      && j.destination.Some? && PlanFor(j.job, j.destination.value, stamp).Ok?
                      && (var base := PlanFor(j.job, j.destination.value, stamp).value.base;
                          base != "" && base[0] == '/')
                      && e.isDir && exists m :: IsMoment(m) && e.name == Format(m) && IsAged(m, j.cutoff))
  {
    hide IsAgedOut, IsMoment, Format, IsAged, Removed, PlanFor;
    AgedOutExactly(j, stamp);
    InWithout(j.found.value, PlanOf(j, stamp), e);
    RemovedExactly(j.found.value, j.cutoff, e);
  }

  lemma {:induction false} InWithout(entries: seq<Entry>, gone: seq<Entry>, e: Entry)
    ensures e in Without(entries, gone) <==> e in entries && e !in gone
  {
    if entries != [] { InWithout(entries[..|entries| - 1], gone, e); }
  }
}

/** Login rate limiting over the attempt table (app/ratelimit.py, and the login route in app/api/auth.py).
    Times are in microseconds. */
module RateLimit {
  import opened Wrappers
  import opened Slugs

  const SECOND := 1_000_000
  /** Failures older than seven days are swept on write. */
  const RETENTION := 7 * 24 * 3600 * SECOND

  datatype Scope = Username | Address

  datatype Attempt = Attempt(scope: Scope, value: string, at: int)

  datatype Settings = Settings(maxAttempts: int, lockout: int)

  datatype Verdict = Allowed | Refused(retryAfterSeconds: int, scope: Scope)

  // ------------------------------------------------------------------ queries over the table

  predicate Matches(row: Attempt, scope: Scope, value: string, since: int) {
    row.scope == scope && row.value == value && row.at >= since
  }

  /** `_recent`: how many failures of this value since then. */
  function Recent(rows: seq<Attempt>, scope: Scope, value: string, since: int): nat {
    if rows == [] then 0
    else (if Matches(rows[0], scope, value, since) then 1 else 0) + Recent(rows[1..], scope, value, since)
  }

  /** `_oldest_in_window`. */
  function Oldest(rows: seq<Attempt>, scope: Scope, value: string, since: int): (r: Option<int>)
    ensures r.Some? ==> r.value >= since
  {
    if rows == [] then None
    else
      var rest := Oldest(rows[1..], scope, value, since);
      if !Matches(rows[0], scope, value, since) then rest
      else if rest.None? || rows[0].at < rest.value then Some(rows[0].at)
      else rest
  }

  predicate Blocks(rows: seq<Attempt>, settings: Settings, scope: Scope, value: string, now: int) {
    && value != ""
    && Recent(rows, scope, value, now - settings.lockout) >= settings.maxAttempts
    && Oldest(rows, scope, value, now - settings.lockout).Some?
  }

  /** The refusal for a scope that blocks, with the wait computed a little later. */
  function RefusalFor(rows: seq<Attempt>, settings: Settings, scope: Scope, value: string, now: int,
                      later: int): Verdict
    requires Blocks(rows, settings, scope, value, now)
  {
    var oldest := Oldest(rows, scope, value, now - settings.lockout).value;
    var remaining := (oldest + settings.lockout - later) / SECOND;
    Refused(if remaining > 1 then remaining else 1, scope)
  }

  /** What the check answers at `now`: the username is looked at first. */
  function CheckOf(rows: seq<Attempt>, settings: Settings, username: string, address: string, now: int,
                   later: int): Verdict {
    if Blocks(rows, settings, Username, Lower(username), now) then
      RefusalFor(rows, settings, Username, Lower(username), now, later)
    else if Blocks(rows, settings, Address, address, now) then
      RefusalFor(rows, settings, Address, address, now, later)
    else Allowed
  }

  /** The rows a failure adds. */
  function Added(username: string, address: string, now: int): seq<Attempt> {
    (if username != "" then [Attempt(Username, Lower(username), now)] else [])
    + if address != "" then [Attempt(Address, address, now)] else []
  }

  predicate IsStale(row: Attempt, now: int) { row.at < now - RETENTION }

  function Swept(rows: seq<Attempt>, now: int): seq<Attempt> {
    if rows == [] then [] else (if IsStale(rows[0], now) then [] else [rows[0]]) + Swept(rows[1..], now)
  }

  predicate IsFor(row: Attempt, username: string, address: string) {
    (row.scope == Username && row.value == Lower(username)) || (row.scope == Address && row.value == address)
  }

  function Cleared(rows: seq<Attempt>, username: string, address: string): seq<Attempt> {
    if rows == [] then []
    else (if IsFor(rows[0], username, address) then [] else [rows[0]]) + Cleared(rows[1..], username, address)
  }

  // ------------------------------------------------------------------ the limiter and the route that uses it

  /** One sign-in: who, from where, with the right password or not, and the clock readings along the way. */
  datatype Login = Login(username: string, address: string, correct: bool, checkedAt: int, answeredAt: int,
                         recordedAt: int)

  predicate IsAllowed(rows: seq<Attempt>, settings: Settings, l: Login) {
    CheckOf(rows, settings, l.username, l.address, l.checkedAt, l.answeredAt) == Allowed
  }

  /** The table after a login. A refused one leaves it alone, right password or not. */
  function After(rows: seq<Attempt>, settings: Settings, l: Login): seq<Attempt> {
    if !IsAllowed(rows, settings, l) then rows
    else if l.correct then Cleared(rows, l.username, l.address)
    else Swept(rows + Added(l.username, l.address, l.recordedAt), l.recordedAt)
  }

  class Limiter {
    const settings: Settings
    var attempts: seq<Attempt>

    constructor (settings: Settings)
      ensures this.settings == settings && attempts == []
    {
      this.settings := settings;
      attempts := [];
    }

    method Check(username: string, address: string, now: int, later: int) returns (verdict: Verdict)
      ensures verdict == CheckOf(attempts, settings, username, address, now, later)
      ensures verdict.Allowed? <==>
                !Blocks(attempts, settings, Username, Lower(username), now)
                && !Blocks(attempts, settings, Address, address, now)
      ensures verdict.Refused? ==>
                && verdict.retryAfterSeconds >= 1
                && verdict.scope
                   == if Blocks(attempts, settings, Username, Lower(username), now) then Username else Address
    {
      var since := now - settings.lockout;
      var scopes := [(Username, Lower(username)), (Address, address)];
      for i := 0 to |scopes|
        invariant forall j :: 0 <= j < i ==> !Blocks(attempts, settings, scopes[j].0, scopes[j].1, now)
      {
        var (scope, value) := scopes[i];
        if value == "" || Recent(attempts, scope, value, since) < settings.maxAttempts {
          continue;
        }
        var oldest := Oldest(attempts, scope, value, since);
        if oldest.None? {
          continue;
        }
        var remaining := (oldest.value + settings.lockout - later) / SECOND;
        assert i == 1 ==> !Blocks(attempts, settings, scopes[0].0, scopes[0].1, now);
        return Refused(if remaining > 1 then remaining else 1, scope);
      }
      assert !Blocks(attempts, settings, scopes[0].0, scopes[0].1, now);
      assert !Blocks(attempts, settings, scopes[1].0, scopes[1].1, now);
      verdict := Allowed;
    }

    method RecordFailure(username: string, address: string, now: int)
      modifies this
      ensures attempts == Swept(old(attempts) + Added(username, address, now), now)
    {
      if username != "" {
        attempts := attempts + [Attempt(Username, Lower(username), now)];
      }
      if address != "" {
        attempts := attempts + [Attempt(Address, address, now)];
      }
      assert attempts == old(attempts) + Added(username, address, now);
      attempts := Swept(attempts, now);
    }

    method Clear(username: string, address: string)
      modifies this
      ensures attempts == Cleared(old(attempts), username, address)
    {
      attempts := Cleared(attempts, username, address);
    }

    method SignIn(l: Login) returns (signedIn: bool)
      modifies this
      ensures attempts == After(old(attempts), settings, l)
      ensures signedIn <==> IsAllowed(old(attempts), settings, l) && l.correct
      ensures !IsAllowed(old(attempts), settings, l) ==> attempts == old(attempts)
    {
      var verdict := Check(l.username, l.address, l.checkedAt, l.answeredAt);
      if verdict.Refused? {
        return false;
      }
      if !l.correct {
        RecordFailure(l.username, l.address, l.recordedAt);
        return false;
      }
      Clear(l.username, l.address);
      return true;
    }
  }

  // ------------------------------------------------------------------ whole runs

  /** The table after a sequence of logins. */
  function Run(settings: Settings, logins: seq<Login>): seq<Attempt> {
    if logins == [] then [] else After(Run(settings, logins[..|logins| - 1]), settings, logins[|logins| - 1])
  }

  /** Every failure since the last success for its username or address: what the table would hold without the sweep. */
  function Log(settings: Settings, logins: seq<Login>): seq<Attempt> {
    if logins == [] then []
    else
      var before, l := logins[..|logins| - 1], logins[|logins| - 1];
      if !IsAllowed(Run(settings, before), settings, l) then Log(settings, before)
      else if l.correct then Cleared(Log(settings, before), l.username, l.address)
      else Log(settings, before) + Added(l.username, l.address, l.recordedAt)
  }

  /** Logins one after another, with a clock that never goes back. */
  predicate InOrder(logins: seq<Login>) {
    && (forall i :: 0 <= i < |logins| ==> logins[i].checkedAt <= logins[i].answeredAt <= logins[i].recordedAt)
    && forall i, j :: 0 <= i < j < |logins| ==> logins[i].recordedAt <= logins[j].checkedAt
  }

  /** A clock reading after all of them. */
  predicate Ends(logins: seq<Login>, now: int) {
    forall i :: 0 <= i < |logins| ==> logins[i].recordedAt <= now
  }

  /** The failures of a value dated within one lockout of `from`, both ends included. */
  function InWindow(rows: seq<Attempt>, lockout: int, scope: Scope, value: string, from: int): int {
    Recent(rows, scope, value, from) - Recent(rows, scope, value, from + lockout + 1)
  }

  /** At least one attempt is always let through: without a failure on record there is nothing to wait for. */
  function Most(settings: Settings): int {
    if settings.maxAttempts > 1 then settings.maxAttempts else 1
  }

  predicate NoLater(rows: seq<Attempt>, now: int) {
    forall r :: r in rows ==> r.at <= now
  }

  lemma {:induction false} RecentConcat(a: seq<Attempt>, b: seq<Attempt>, scope: Scope, value: string, since: int)
    ensures Recent(a + b, scope, value, since) == Recent(a, scope, value, since) + Recent(b, scope, value, since)
  {
    if a == [] {
      assert a + b == b;
    } else {
      assert (a + b)[1..] == a[1..] + b;
      RecentConcat(a[1..], b, scope, value, since);
    }
  }

  /** The sweep is invisible to every window that starts after its cut. */
  lemma {:induction false} RecentSwept(rows: seq<Attempt>, now: int, scope: Scope, value: string, since: int)
    requires since >= now - RETENTION
    ensures Recent(Swept(rows, now), scope, value, since) == Recent(rows, scope, value, since)
  {
    if rows != [] {
      RecentSwept(rows[1..], now, scope, value, since);
      RecentConcat(if IsStale(rows[0], now) then [] else [rows[0]], Swept(rows[1..], now), scope, value, since);
    }
  }

  /** A sign-in forgets the failures of its own username and address, and no others. */
  lemma {:induction false} RecentCleared(rows: seq<Attempt>, username: string, address: string, scope: Scope,
                                         value: string, since: int)
    ensures Recent(Cleared(rows, username, address), scope, value, since)
            == if value == (if scope == Username then Lower(username) else address) then 0
               else Recent(rows, scope, value, since)
  {
    if rows != [] {
      RecentCleared(rows[1..], username, address, scope, value, since);
      RecentConcat(if IsFor(rows[0], username, address) then [] else [rows[0]], Cleared(rows[1..], username, address),
                   scope, value, since);
    }
  }

  lemma {:induction false} RecentOrder(rows: seq<Attempt>, scope: Scope, value: string, since: int, later: int)
    requires since <= later
    ensures Recent(rows, scope, value, later) <= Recent(rows, scope, value, since)
  {
    if rows != [] { RecentOrder(rows[1..], scope, value, since, later); }
  }

  lemma {:induction false} RecentPast(rows: seq<Attempt>, scope: Scope, value: string, since: int)
    requires forall r :: r in rows ==> r.at < since
    ensures Recent(rows, scope, value, since) == 0
  {
    if rows != [] { RecentPast(rows[1..], scope, value, since); }
  }

  /** A failure adds one row for its username and one for its address. */
  lemma RecentAdded(username: string, address: string, now: int, scope: Scope, value: string, since: int)
    requires value != ""
    ensures Recent(Added(username, address, now), scope, value, since)
            == if since <= now && value == (if scope == Username then Lower(username) else address) then 1 else 0
  {
    var users := if username != "" then [Attempt(Username, Lower(username), now)] else [];
    var addresses := if address != "" then [Attempt(Address, address, now)] else [];
    assert Lower(username) != "" ==> username != "";
    RecentConcat(users, addresses, scope, value, since);
    assert Recent([], scope, value, since) == 0;
    assert users != [] ==> users[1..] == [];
    assert addresses != [] ==> addresses[1..] == [];
  }

  lemma {:induction false} ClearedIn(rows: seq<Attempt>, username: string, address: string)
    ensures forall r :: r in Cleared(rows, username, address) ==> r in rows
  {
    if rows != [] { ClearedIn(rows[1..], username, address); }
  }

  /** What holds after every login: the table agrees with the full log on every window still of interest, nothing is
      dated in the future, and no window of the lockout's length holds more failures than allowed. */
  ghost predicate Sound(settings: Settings, logins: seq<Login>, now: int) {
    var rows, log := Run(settings, logins), Log(settings, logins);
    && NoLater(log, now)
    && (forall scope, value, since :: since >= now - RETENTION ==>
          Recent(rows, scope, value, since) == Recent(log, scope, value, since))
    && (forall scope, value, t :: value != "" ==> InWindow(log, settings.lockout, scope, value, t) <= Most(settings))
  }

  lemma {:induction false} RunIsSound(settings: Settings, logins: seq<Login>, now: int)
    requires InOrder(logins) && Ends(logins, now) && 0 <= settings.lockout <= RETENTION
    ensures Sound(settings, logins, now)
    decreases |logins|
  {
    hide After, IsAllowed;
    if logins != [] {
      var before, l := logins[..|logins| - 1], logins[|logins| - 1];
      RunIsSound(settings, before, l.checkedAt);
      if !IsAllowed(Run(settings, before), settings, l) {
        RefusedStaysSound(settings, logins, now);
      } else if l.correct {
        ClearedStaysSound(settings, logins, now);
      } else {
        FailedStaysSound(settings, logins, now);
      }
    }
  }

  lemma RefusedStaysSound(settings: Settings, logins: seq<Login>, now: int)
    requires logins != [] && var l := logins[|logins| - 1]; var before := logins[..|logins| - 1];
             l.checkedAt <= now && Sound(settings, before, l.checkedAt)
               && !IsAllowed(Run(settings, before), settings, l)
    ensures Sound(settings, logins, now)
  {
    hide IsAllowed, Recent;
  }

  lemma ClearedStaysSound(settings: Settings, logins: seq<Login>, now: int)
    requires logins != [] && var l := logins[|logins| - 1]; var before := logins[..|logins| - 1];
             l.checkedAt <= now && Sound(settings, before, l.checkedAt) && IsAllowed(Run(settings, before), settings, l)
               && l.correct
    ensures Sound(settings, logins, now)
  {
    hide IsAllowed, Recent, Cleared, IsFor, Lower;
    var before, l := logins[..|logins| - 1], logins[|logins| - 1];
    var rows, log := Run(settings, before), Log(settings, before);
    ClearedIn(log, l.username, l.address);
    forall scope, value, since | since >= now - RETENTION
      ensures Recent(Run(settings, logins), scope, value, since) == Recent(Log(settings, logins), scope, value, since)
    {
      RecentCleared(rows, l.username, l.address, scope, value, since);
      RecentCleared(log, l.username, l.address, scope, value, since);
    }
    forall scope, value, t | value != ""
      ensures InWindow(Log(settings, logins), settings.lockout, scope, value, t) <= Most(settings)
    {
      RecentCleared(log, l.username, l.address, scope, value, t);
      RecentCleared(log, l.username, l.address, scope, value, t + settings.lockout + 1);
      assert InWindow(log, settings.lockout, scope, value, t) <= Most(settings);
    }
  }

  /** A scope that does not block has fewer failures in its window than allowed. */
  lemma UnblockedIsBelow(rows: seq<Attempt>, settings: Settings, scope: Scope, value: string, now: int)
    requires value != "" && !Blocks(rows, settings, scope, value, now)
    ensures Recent(rows, scope, value, now - settings.lockout) < Most(settings)
  {
    OldestIsLeast(rows, scope, value, now - settings.lockout);
  }

  lemma {:induction false} OldestIsLeast(rows: seq<Attempt>, scope: Scope, value: string, since: int)
    ensures var o := Oldest(rows, scope, value, since);
            && (o.None? <==> Recent(rows, scope, value, since) == 0)
            && (o.Some? ==>
                  Recent(rows, scope, value, o.value) == Recent(rows, scope, value, since)
                  && Recent(rows, scope, value, o.value + 1) < Recent(rows, scope, value, since))
  {
    if rows != [] {
      var rest := Oldest(rows[1..], scope, value, since);
      OldestIsLeast(rows[1..], scope, value, since);
      var o := Oldest(rows, scope, value, since);
      if o.Some? {
        RecentOrder(rows[1..], scope, value, o.value, o.value + 1);
        RecentOrder(rows[1..], scope, value, since, o.value);
        if rest.Some? {
          RecentOrder(rows[1..], scope, value, o.value, rest.value);
        } else {
          RecentOrder(rows[1..], scope, value, since, o.value + 1);
        }
      }
    }
  }

  lemma FailedStaysSound(settings: Settings, logins: seq<Login>, now: int)
    requires 0 <= settings.lockout <= RETENTION
    requires logins != [] && var l := logins[|logins| - 1]; var before := logins[..|logins| - 1];
             && l.checkedAt <= l.recordedAt <= now && Sound(settings, before, l.checkedAt)
             && IsAllowed(Run(settings, before), settings, l) && !l.correct
    ensures Sound(settings, logins, now)
  {
    hide Recent, Swept, Added, Lower;
    var before, l := logins[..|logins| - 1], logins[|logins| - 1];
    var rows, log := Run(settings, before), Log(settings, before);
    var added := Added(l.username, l.address, l.recordedAt);
    AddedNow(l.username, l.address, l.recordedAt);
    forall scope, value, since | since >= now - RETENTION
      ensures Recent(Run(settings, logins), scope, value, since) == Recent(Log(settings, logins), scope, value, since)
    {
      RecentSwept(rows + added, l.recordedAt, scope, value, since);
      RecentConcat(rows, added, scope, value, since);
      RecentConcat(log, added, scope, value, since);
    }
    forall scope, value, t | value != ""
      ensures InWindow(Log(settings, logins), settings.lockout, scope, value, t) <= Most(settings)
    {
      FailedWindow(settings, rows, log, l, scope, value, t);
    }
  }

  lemma AddedNow(username: string, address: string, now: int)
    ensures forall r :: r in Added(username, address, now) ==> r.at == now
  {
  }

  lemma FailedWindow(settings: Settings, rows: seq<Attempt>, log: seq<Attempt>, l: Login, scope: Scope, value: string,
                     t: int)
    requires 0 <= settings.lockout <= RETENTION && l.checkedAt <= l.recordedAt && value != ""
    requires NoLater(log, l.checkedAt) && IsAllowed(rows, settings, l)
    requires Recent(rows, scope, value, l.checkedAt - settings.lockout)
             == Recent(log, scope, value, l.checkedAt - settings.lockout)
    requires InWindow(log, settings.lockout, scope, value, t) <= Most(settings)
    ensures var after := log + Added(l.username, l.address, l.recordedAt);
            InWindow(after, settings.lockout, scope, value, t) <= Most(settings)
  {
    hide Recent, Added, Lower, Blocks;
    var added, end := Added(l.username, l.address, l.recordedAt), t + settings.lockout;
    RecentConcat(log, added, scope, value, t);
    RecentConcat(log, added, scope, value, end + 1);
    RecentAdded(l.username, l.address, l.recordedAt, scope, value, t);
    RecentAdded(l.username, l.address, l.recordedAt, scope, value, end + 1);
    if t <= l.recordedAt <= end && (if scope == Username then value == Lower(l.username) else value == l.address) {
      UnblockedIsBelow(rows, settings, scope, value, l.checkedAt);
      RecentOrder(log, scope, value, l.checkedAt - settings.lockout, t);
    }
  }

  /** However long the run: between one successful sign-in and the next, no window of the lockout's length ever
      counts more failed passwords for a username, or an address, than the limit. */
  lemma NoWindowOverflows(settings: Settings, logins: seq<Login>, scope: Scope, value: string, t: int)
    requires InOrder(logins) && 0 <= settings.lockout <= RETENTION && value != ""
    ensures InWindow(Log(settings, logins), settings.lockout, scope, value, t) <= Most(settings)
  {
    hide InWindow, Run, Log, Most;
    RunIsSound(settings, logins, if logins == [] then 0 else logins[|logins| - 1].recordedAt);
  }

  /** While nothing new fails, a scope that blocks goes on doing so exactly until the oldest failure it counted is
      out of the window: refused attempts do not extend a lockout. */
  lemma LockLiftsExactly(settings: Settings, logins: seq<Login>, scope: Scope, value: string, now: int, later: int)
    requires InOrder(logins) && Ends(logins, now) && 0 <= settings.lockout <= RETENTION
    requires now <= later && Blocks(Run(settings, logins), settings, scope, value, now)
    ensures var rows := Run(settings, logins);
            var oldest := Oldest(rows, scope, value, now - settings.lockout).value;
            Blocks(rows, settings, scope, value, later) <==> later <= oldest + settings.lockout
  {
    hide Run, Log, Recent, Oldest;
    var rows, log, since := Run(settings, logins), Log(settings, logins), now - settings.lockout;
    RunIsSound(settings, logins, now);
    OldestIsLeast(rows, scope, value, since);
    OldestIsLeast(rows, scope, value, later - settings.lockout);
    var oldest := Oldest(rows, scope, value, since).value;
    RecentPast(log, scope, value, since + settings.lockout + 1);
    assert InWindow(log, settings.lockout, scope, value, since) <= Most(settings);
    assert Recent(rows, scope, value, since) <= Most(settings);
    if later <= oldest + settings.lockout {
      RecentOrder(rows, scope, value, since, later - settings.lockout);
      RecentOrder(rows, scope, value, later - settings.lockout, oldest);
    } else {
      RecentOrder(rows, scope, value, oldest + 1, later - settings.lockout);
    }
  }

  /** One second more than the reported wait is always enough for the scope that refused. */
  lemma WaitIsEnough(settings: Settings, logins: seq<Login>, scope: Scope, value: string, now: int, answered: int,
                     later: int)
    requires InOrder(logins) && Ends(logins, now) && 0 <= settings.lockout <= RETENTION
    requires now <= answered && Blocks(Run(settings, logins), settings, scope, value, now)
    requires later >= answered
             + (RefusalFor(Run(settings, logins), settings, scope, value, now, answered).retryAfterSeconds + 1) * SECOND
    ensures !Blocks(Run(settings, logins), settings, scope, value, later)
  {
    hide Run, Blocks, Oldest;
    LockLiftsExactly(settings, logins, scope, value, now, later);
  }

  /** And no less than the reported wait ever is, beyond the one second that is always asked for: when it is over to the
      second, the scope still blocks. */
  lemma WaitIsNeeded(settings: Settings, logins: seq<Login>, scope: Scope, value: string, now: int, answered: int)
    requires InOrder(logins) && Ends(logins, now) && 0 <= settings.lockout <= RETENTION
    requires now <= answered && Blocks(Run(settings, logins), settings, scope, value, now)
    ensures var r := RefusalFor(Run(settings, logins), settings, scope, value, now, answered);
            && r.scope == scope && r.retryAfterSeconds >= 1
            && (r.retryAfterSeconds > 1 ==>
                  Blocks(Run(settings, logins), settings, scope, value, answered + r.retryAfterSeconds * SECOND))
  {
    hide Run, Blocks, Oldest;
    var r := RefusalFor(Run(settings, logins), settings, scope, value, now, answered);
    LockLiftsExactly(settings, logins, scope, value, now,
                     if r.retryAfterSeconds > 1 then answered + r.retryAfterSeconds * SECOND else now);
  }

  lemma BlocksExactly(rows: seq<Attempt>, settings: Settings, scope: Scope, value: string, now: int)
    ensures Blocks(rows, settings, scope, value, now)
            <==> value != "" && Recent(rows, scope, value, now - settings.lockout) >= Most(settings)
  {
    hide Recent, Oldest;
    OldestIsLeast(rows, scope, value, now - settings.lockout);
  }

  /** On every run a login is let through exactly when neither its username, in lower case, nor its address has as many
      failures in the window before it as the limit, counting everything since the last success, swept or not. */
  lemma AllowedExactly(settings: Settings, logins: seq<Login>, l: Login)
    requires InOrder(logins + [l]) && 0 <= settings.lockout <= RETENTION
    ensures var log, since := Log(settings, logins), l.checkedAt - settings.lockout;
            IsAllowed(Run(settings, logins), settings, l)
            <==> && (l.username == "" || Recent(log, Username, Lower(l.username), since) < Most(settings))
                 && (l.address == "" || Recent(log, Address, l.address, since) < Most(settings))
  {
    hide Run, Log, Recent, Blocks, Oldest;
    var all := logins + [l];
    assert all[|logins|] == l && forall i :: 0 <= i < |logins| ==> all[i] == logins[i];
    RunIsSound(settings, logins, l.checkedAt);
    BlocksExactly(Run(settings, logins), settings, Username, Lower(l.username), l.checkedAt);
    BlocksExactly(Run(settings, logins), settings, Address, l.address, l.checkedAt);
    assert l.username == "" <==> Lower(l.username) == "";
  }

  /** The logins that were not refused. */
  function Admitted(settings: Settings, logins: seq<Login>): seq<Login> {
    if logins == [] then []
    else
      var before, l := logins[..|logins| - 1], logins[|logins| - 1];
      Admitted(settings, before) + if IsAllowed(Run(settings, before), settings, l) then [l] else []
  }

  /** Refused attempts leave no trace: a run without them gives the same table and the same answers to the rest. */
  lemma {:induction false} RefusalsCanBeDropped(settings: Settings, logins: seq<Login>)
    ensures Run(settings, Admitted(settings, logins)) == Run(settings, logins)
    ensures Admitted(settings, Admitted(settings, logins)) == Admitted(settings, logins)
  {
    hide IsAllowed;
    if logins != [] {
      var before, l := logins[..|logins| - 1], logins[|logins| - 1];
      var kept := Admitted(settings, before);
      RefusalsCanBeDropped(settings, before);
      if IsAllowed(Run(settings, before), settings, l) {
        assert (kept + [l])[..|kept|] == kept;
      } else {
        assert kept + [] == kept;
      }
    }
  }

  /** Whatever the limit, zero or below included, an attempt with no failure on record in its window is let through:
      that is why `Most` is never below one. */
  lemma FirstAttemptIsAllowed(rows: seq<Attempt>, settings: Settings, l: Login)
    requires Recent(rows, Username, Lower(l.username), l.checkedAt - settings.lockout) == 0
    requires Recent(rows, Address, l.address, l.checkedAt - settings.lockout) == 0
    ensures IsAllowed(rows, settings, l)
  {
    hide Recent, Oldest;
    OldestIsLeast(rows, Username, Lower(l.username), l.checkedAt - settings.lockout);
    OldestIsLeast(rows, Address, l.address, l.checkedAt - settings.lockout);
  }

  // ------------------------------------------------------------------ why the lockout must not outlast the sweep

  function Failing(name: char, at: int): Login { Login([name], "", false, at, at, at) }

  function Failures(count: nat): seq<Login> {
    if count == 0 then [] else Failures(count - 1) + [Failing('a', 0)]
  }

  /** A failure of a value with no failures in its window is recorded. */
  lemma FailureIsRecorded(settings: Settings, logins: seq<Login>, name: char, at: int)
    requires 'a' <= name <= 'z'
    requires Recent(Run(settings, logins), Username, [name], at - settings.lockout) < Most(settings)
    ensures var row := Attempt(Username, [name], at);
            && Run(settings, logins + [Failing(name, at)]) == Swept(Run(settings, logins) + [row], at)
            && Log(settings, logins + [Failing(name, at)]) == Log(settings, logins) + [row]
  {
    hide Recent, Swept, Oldest;
    var rows, l := Run(settings, logins), Failing(name, at);
    assert (logins + [l])[..|logins|] == logins;
    assert Lower([name]) == [name];
    OldestIsLeast(rows, Username, [name], at - settings.lockout);
    assert IsAllowed(rows, settings, l);
    assert Added([name], "", at) == [Attempt(Username, [name], at)];
  }

  lemma {:induction false} FailuresFill(settings: Settings, count: nat)
    requires settings.lockout >= 0 && count <= Most(settings)
    ensures var rows := Run(settings, Failures(count));
            && Log(settings, Failures(count)) == rows && |rows| == count
            && (forall r :: r in rows ==> r == Attempt(Username, "a", 0))
    decreases count
  {
    hide Swept, Run, Log, Recent;
    if count == 0 {
      NothingRun(settings);
    } else {
      FailuresFill(settings, count - 1);
      var before, row := Failures(count - 1), Attempt(Username, "a", 0);
      var rows := Run(settings, before);
      RecentAtMost(rows, Username, "a", -settings.lockout);
      FailureIsRecorded(settings, before, 'a', 0);
      NothingStale(rows + [row], 0);
      assert Failures(count) == before + [Failing('a', 0)];
    }
  }

  lemma NothingRun(settings: Settings)
    ensures Run(settings, []) == [] && Log(settings, []) == []
  {
  }

  lemma {:induction false} RecentAtMost(rows: seq<Attempt>, scope: Scope, value: string, since: int)
    ensures Recent(rows, scope, value, since) <= |rows|
    ensures (forall r :: r in rows ==> Matches(r, scope, value, since)) ==> Recent(rows, scope, value, since) == |rows|
    ensures (forall r :: r in rows ==> !Matches(r, scope, value, since)) ==> Recent(rows, scope, value, since) == 0
  {
    if rows != [] {
      RecentAtMost(rows[1..], scope, value, since);
      assert rows[0] in rows;
    }
  }

  lemma {:induction false} NothingStale(rows: seq<Attempt>, now: int)
    requires forall r :: r in rows ==> !IsStale(r, now)
    ensures Swept(rows, now) == rows
  {
    if rows != [] {
      NothingStale(rows[1..], now);
      assert rows == [rows[0]] + rows[1..];
    }
  }

  lemma {:induction false} AllStale(rows: seq<Attempt>, last: Attempt, now: int)
    requires (forall r :: r in rows ==> IsStale(r, now)) && !IsStale(last, now)
    ensures Swept(rows + [last], now) == [last]
  {
    if rows != [] {
      AllStale(rows[1..], last, now);
      assert (rows + [last])[1..] == rows[1..] + [last];
      assert rows[0] in rows;
    }
  }

  /** With a lockout longer than the sweep keeps rows, one failure of another user makes the limiter forget. */
  lemma SweepForgets(settings: Settings) returns (logins: seq<Login>)
    requires settings.lockout > RETENTION
    ensures InOrder(logins)
    ensures InWindow(Log(settings, logins), settings.lockout, Username, "a", 0) > Most(settings)
  {
    hide Recent, Swept, Run, Log;
    var m, late := Most(settings), RETENTION + 1;
    var filled := Failures(m);
    FailuresFill(settings, m);
    var rows, other, again := Run(settings, filled), Attempt(Username, "b", late), Attempt(Username, "a", late);
    RecentAtMost(rows, Username, "b", late - settings.lockout);
    FailureIsRecorded(settings, filled, 'b', late);
    AllStale(rows, other, late);
    var forgotten := filled + [Failing('b', late)];
    RecentAtMost([other], Username, "a", late - settings.lockout);
    FailureIsRecorded(settings, forgotten, 'a', late);
    logins := forgotten + [Failing('a', late)];
    var log := rows + [other] + [again];
    assert Log(settings, logins) == log;
    RecentAtMost(rows, Username, "a", 0);
    RecentConcat(rows + [other], [again], Username, "a", 0);
    RecentConcat(rows, [other], Username, "a", 0);
    RecentAtMost([again], Username, "a", 0);
    RecentAtMost(log, Username, "a", settings.lockout + 1);
    FailuresAt(m);
  }

  lemma {:induction false} FailuresAt(count: nat)
    ensures forall i :: 0 <= i < |Failures(count)| ==> Failures(count)[i] == Failing('a', 0)
  {
    if count > 0 { FailuresAt(count - 1); }
  }

  /** The limit holds on every window of every run exactly when the lockout is no longer than the sweep keeps rows. */
  lemma LimitHoldsExactly(settings: Settings)
    requires settings.lockout >= 0
    ensures (forall logins, scope, value, t | InOrder(logins) && value != "" ::
               InWindow(Log(settings, logins), settings.lockout, scope, value, t) <= Most(settings))
            <==> settings.lockout <= RETENTION
  {
    hide InWindow, Log, InOrder, Most;
    if settings.lockout > RETENTION {
      var logins := SweepForgets(settings);
      assert "a" != "";
      assert InWindow(Log(settings, logins), settings.lockout, Username, "a", 0) > Most(settings);
    } else {
      forall logins, scope, value, t | InOrder(logins) && value != ""
        ensures InWindow(Log(settings, logins), settings.lockout, scope, value, t) <= Most(settings)
      {
        NoWindowOverflows(settings, logins, scope, value, t);
      }
    }
  }
}

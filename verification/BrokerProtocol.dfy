/** Interleavings of the broker's atomic steps: any number of run ids, each with one publishing thread and, whenever
    it likes, one finishing thread, and any number of subscribers (app/jobs/events.py).

    Nothing ties a `finish` to the last `publish` of an id. So one run is a trace, and so is a second `finish` for it,
    and another run under an id the database gave out again, before the first one's `finish` is over or after it. */
module BrokerProtocol {
  import opened Wrappers
  import opened Broker

  /** Where `publish` stands with one queue: `put_nowait`, after Full the `get_nowait`, then the second `put_nowait`. */
  datatype Phase = First | Dropping | Retrying

  /** The publishing thread of an id. `todo` is what is left of its snapshot of the subscribers. */
  datatype Pub = Idle | Putting(e: Event, todo: seq<nat>, phase: Phase)

  /** The finishing thread of an id, and whom it has still to tell. */
  datatype Fin = NotEnding | Ending(todo: seq<nat>)

  /** `log` is everything published under the id so far, in publish order; `start` is how much of it had been
      published when the backlog was last released. */
  datatype Run = Run(pub: Pub, fin: Fin, log: seq<Event>, start: nat)

  /** Late: subscribed to an id remembered as finished. Closed: read the end marker. Left: disconnected. */
  datatype Mode = Live | Late | Closed | Left

  /** A subscriber. `from` and `at` are its id's `start` and log length when it registered, `shown` what it was given
      to replay; `out` is what it has yielded, heartbeats left out. It is `lossy` once its queue was full at a put,
      `drained` once an event was given up because the full queue was empty by then, and `skipped` once one was given
      up because the slot made for it was gone at the second attempt; `end` is how much of the log its queue had
      been offered when its first end marker was put. */
  datatype Sub = Sub(run: int, from: nat, at: nat, shown: seq<Event>, replay: seq<Event>, out: seq<Event>,
                     mode: Mode, lossy: bool, drained: bool, skipped: bool, end: Option<nat>)

  datatype System = System(b: Broker, runs: map<int, Run>, subs: map<nat, Sub>)

  const Init := System(Broker(map[], map[], map[], [], map[]), map[], map[])

  function RunOf(s: System, r: int): Run {
    if r in s.runs then s.runs[r] else Run(Idle, NotEnding, [], 0)
  }

  datatype Step =
    | Publish(r: int, e: Event)
    | Serve(r: int)
    | StartFinish(r: int)
    | Tell(r: int)
    | EndFinish(r: int)
    | Subscribe(c: nat, r: int)
    | YieldReplay(c: nat)
    | Get(c: nat)
    | Disconnect(c: nat)
    | CleanUp(c: nat)

  function SetPub(s: System, r: int, pub: Pub): System {
    s.(runs := s.runs[r := RunOf(s, r).(pub := pub)])
  }

  function SetFin(s: System, r: int, fin: Fin): System {
    s.(runs := s.runs[r := RunOf(s, r).(fin := fin)])
  }

  function After(e: Event, todo: seq<nat>): Pub {
    if todo == [] then Idle else Putting(e, todo, First)
  }

  function Next(s: System, step: Step): System {
    match step
    case Publish(r, e) => DoPublish(s, r, e)
    case Serve(r) => DoServe(s, r)
    case StartFinish(r) => DoStartFinish(s, r)
    case Tell(r) => DoTell(s, r)
    case EndFinish(r) => DoEndFinish(s, r)
    case Subscribe(c, r) => DoSubscribe(s, c, r)
    case YieldReplay(c) => DoYieldReplay(s, c)
    case Get(c) => DoGet(s, c)
    case Disconnect(c) => DoDisconnect(s, c)
    case CleanUp(c) => DoCleanUp(s, c)
  }

  /** The first locked section of `finish`: list whom to tell. */
  function DoStartFinish(s: System, r: int): (s': System)
    ensures s'.subs.Keys == s.subs.Keys
  {
    if RunOf(s, r).fin != NotEnding then s else SetFin(s, r, Ending(Lookup(s.b.subscribers, r)))
  }

  function DoEndFinish(s: System, r: int): (s': System)
    ensures s'.subs.Keys == s.subs.Keys
  {
    var run := RunOf(s, r);
    if run.fin != Ending([]) then s
    else s.(b := FinishLocked(s.b, r), runs := s.runs[r := run.(fin := NotEnding, start := |run.log|)])
  }

  function DoYieldReplay(s: System, c: nat): (s': System)
    ensures s'.subs.Keys == s.subs.Keys
  {
    if c !in s.subs || s.subs[c].replay == [] || s.subs[c].mode == Closed || s.subs[c].mode == Left then s
    else
      var u := s.subs[c];
      s.(subs := s.subs[c := u.(out := u.out + [u.replay[0]], replay := u.replay[1..])])
  }

  function DoDisconnect(s: System, c: nat): (s': System)
    ensures s'.subs.Keys == s.subs.Keys
  {
    if c !in s.subs || s.subs[c].mode != Live then s else s.(subs := s.subs[c := s.subs[c].(mode := Left)])
  }

  function DoCleanUp(s: System, c: nat): (s': System)
    ensures s'.subs.Keys == s.subs.Keys
  {
    if c !in s.subs || (s.subs[c].mode != Closed && s.subs[c].mode != Left) then s
    else s.(b := UnsubscribeLocked(s.b, s.subs[c].run, c))
  }

  function DoPublish(s: System, r: int, e: Event): (s': System)
    ensures s'.subs.Keys == s.subs.Keys
  {
    var run := RunOf(s, r);
    if run.pub != Idle then s
    else
      s.(b := PublishLocked(s.b, r, e),
         runs := s.runs[r := run.(log := run.log + [e], pub := After(e, Lookup(s.b.subscribers, r)))])
  }

  function MarkLossy(s: System, c: nat): System {
    if c in s.subs then s.(subs := s.subs[c := s.subs[c].(lossy := true)]) else s
  }

  function MarkDrained(s: System, c: nat): System {
    if c in s.subs then s.(subs := s.subs[c := s.subs[c].(drained := true)]) else s
  }

  function MarkSkipped(s: System, c: nat): System {
    if c in s.subs then s.(subs := s.subs[c := s.subs[c].(skipped := true)]) else s
  }

  /** One queue operation of the publishing thread. */
  function DoServe(s: System, r: int): (s': System)
    ensures s'.subs.Keys == s.subs.Keys
  {
    var pub := RunOf(s, r).pub;
    if !pub.Putting? || pub.todo == [] then s
    else
      var c := pub.todo[0];
      match pub.phase
      case First =>
        if HasRoom(s.b, c) then SetPub(s.(b := Put(s.b, c, Some(pub.e))), r, After(pub.e, pub.todo[1..]))
        else SetPub(MarkLossy(s, c), r, pub.(phase := Dropping))
      case Dropping =>
        if LookupQueue(s.b, c) == [] then SetPub(MarkDrained(s, c), r, After(pub.e, pub.todo[1..]))
        else SetPub(s.(b := DropHead(s.b, c)), r, pub.(phase := Retrying))
      case Retrying =>
        if HasRoom(s.b, c) then SetPub(s.(b := Put(s.b, c, Some(pub.e))), r, After(pub.e, pub.todo[1..]))
        else SetPub(MarkSkipped(s, c), r, After(pub.e, pub.todo[1..]))
  }

  /** How much of the log a subscriber's queue has been offered. */
  function Offered(s: System, r: int, c: nat): int {
    |RunOf(s, r).log| - if c in ServeList(RunOf(s, r).pub) then 1 else 0
  }

  function WithEnd(s: System, r: int, c: nat): map<nat, Sub> {
    if c in s.subs && s.subs[c].end.None? && Offered(s, r, c) >= 0 then
      s.subs[c := s.subs[c].(end := Some(Offered(s, r, c)))]
    else s.subs
  }

  /** One queue operation of the finishing thread: the marker is dropped when the queue is full. */
  function DoTell(s: System, r: int): (s': System)
    ensures s'.subs.Keys == s.subs.Keys
  {
    var fin := RunOf(s, r).fin;
    if !fin.Ending? || fin.todo == [] then s
    else
      var c := fin.todo[0];
      if HasRoom(s.b, c) then SetFin(s.(b := Put(s.b, c, None), subs := WithEnd(s, r, c)), r, Ending(fin.todo[1..]))
      else SetFin(s, r, Ending(fin.todo[1..]))
  }

  function DoSubscribe(s: System, c: nat, r: int): (s': System)
    ensures s'.subs.Keys == s.subs.Keys + {c}
  {
    if c in s.subs then s
    else
      var run := RunOf(s, r);
      var shown := Replay(s.b, r);
      var u := Sub(r, run.start, |run.log|, shown, shown, [], if r in s.b.finished then Late else Live, false, false,
                   false, None);
      s.(b := SubscribeLocked(s.b, r, c), subs := s.subs[c := u])
  }

  function DoGet(s: System, c: nat): (s': System)
    ensures s'.subs.Keys == s.subs.Keys
  {
    if c !in s.subs || s.subs[c].mode != Live || s.subs[c].replay != [] || LookupQueue(s.b, c) == [] then s
    else
      var u := s.subs[c];
      var s' := s.(b := DropHead(s.b, c));
      match LookupQueue(s.b, c)[0]
      case Some(e) => s'.(subs := s.subs[c := u.(out := u.out + [e])])
      case None => s'.(subs := s.subs[c := u.(mode := Closed)])
  }

  function Exec(trace: seq<Step>): System {
    if trace == [] then Init else Next(Exec(trace[..|trace| - 1]), trace[|trace| - 1])
  }

  // ------------------------------------------------------------------ what a subscriber is owed

  function NonStats(es: seq<Event>): seq<Event> {
    if es == [] then []
    else NonStats(es[..|es| - 1]) + if IsStats(es[|es| - 1]) then [] else [es[|es| - 1]]
  }

  function LastStats(es: seq<Event>): seq<Event> {
    if es == [] then []
    else if IsStats(es[|es| - 1]) then [es[|es| - 1]]
    else LastStats(es[..|es| - 1])
  }

  /** What someone joining after `es` is shown first: the last 200 lines, then the last progress report. */
  function Context(es: seq<Event>): seq<Event> {
    LastN(NonStats(es), BACKLOG_LIMIT) + LastStats(es)
  }

  /** Everything a subscriber is owed so far: its context, then every later event of its id. */
  function Owed(s: System, c: nat): seq<Event>
    requires c in s.subs && s.subs[c].at <= |RunOf(s, s.subs[c].run).log|
  {
    var u := s.subs[c];
    u.shown + RunOf(s, u.run).log[u.at..]
  }

  /** The events in a queue. */
  function Events(q: seq<Item>): seq<Event> {
    if q == [] then []
    else Events(q[..|q| - 1]) + match q[|q| - 1] case Some(e) => [e] case None => []
  }

  function ServeList(pub: Pub): seq<nat> {
    if pub.Putting? then pub.todo else []
  }

  function TellList(fin: Fin): seq<nat> {
    if fin.Ending? then fin.todo else []
  }

  /** Events on their way to a subscriber: queued, or published and not offered yet. */
  function Pending(s: System, c: nat): seq<Event>
    requires c in s.subs
  {
    Events(LookupQueue(s.b, c)) + InFlight(s, s.subs[c].run, c)
  }

  function InFlight(s: System, r: int, c: nat): seq<Event> {
    var pub := RunOf(s, r).pub;
    if c in ServeList(pub) then [pub.e] else []
  }

  /** The position of the first end marker in a queue, or its length. */
  function MarkAt(q: seq<Item>): (n: nat)
    ensures n <= |q|
    ensures forall i :: 0 <= i < n ==> q[i].Some?
    ensures n < |q| ==> q[n].None?
  {
    if q == [] || q[0].None? then 0 else 1 + MarkAt(q[1..])
  }

  predicate Marked(q: seq<Item>) { MarkAt(q) < |q| }

  predicate Subsequence(a: seq<Event>, b: seq<Event>) {
    if a == [] then true
    else b != []
         && (Subsequence(a, b[..|b| - 1])
             || (a[|a| - 1] == b[|b| - 1] && Subsequence(a[..|a| - 1], b[..|b| - 1])))
  }

  /** `seen` is all of `owed`, or with losses part of it in order. */
  predicate Covers(lossy: bool, seen: seq<Event>, owed: seq<Event>) {
    if lossy then Subsequence(seen, owed) else seen == owed
  }

  /** `seen` is a beginning of `owed`, or with losses part of it in order. */
  predicate Part(lossy: bool, seen: seq<Event>, owed: seq<Event>) {
    if lossy then Subsequence(seen, owed) else seen <= owed
  }

  lemma {:induction false} SubsequenceReflexive(a: seq<Event>)
    ensures Subsequence(a, a)
  {
    if a != [] { SubsequenceReflexive(a[..|a| - 1]); }
  }

  lemma SubsequenceGrows(a: seq<Event>, b: seq<Event>, x: Event)
    requires Subsequence(a, b)
    ensures Subsequence(a, b + [x]) && Subsequence(a + [x], b + [x])
  {
    assert (b + [x])[..|b|] == b && (a + [x])[..|a|] == a;
  }

  lemma CoversGrows(lossy: bool, seen: seq<Event>, owed: seq<Event>, x: Event)
    requires Covers(lossy, seen, owed)
    ensures Covers(lossy, seen + [x], owed + [x])
    ensures Covers(true, seen, owed) && Covers(true, seen, owed + [x])
  {
    if !lossy { SubsequenceReflexive(seen); }
    SubsequenceGrows(seen, owed, x);
  }

  // ------------------------------------------------------------------ the invariant

  /** A list of channels of run `r`. */
  predicate ChannelsOf(s: System, cs: seq<nat>, r: int) {
    && Distinct(cs)
    && (forall c :: c in cs ==> c in s.subs && s.subs[c].run == r && s.subs[c].mode != Late)
  }

  predicate RunInv(s: System, r: int) {
    var run := RunOf(s, r);
    && ChannelsOf(s, Lookup(s.b.subscribers, r), r)
    && ChannelsOf(s, ServeList(run.pub), r)
    && ChannelsOf(s, TellList(run.fin), r)
    && (run.pub.Putting? ==> run.pub.todo != [] && run.log != [] && run.log[|run.log| - 1] == run.pub.e)
    && BacklogInv(s, r)
  }

  /** The backlog is the last 200 lines, and the last report, of what was published since it was last released. */
  predicate BacklogInv(s: System, r: int) {
    var run := RunOf(s, r);
    && run.start <= |run.log|
    && Lookup(s.b.backlog, r) == LastN(NonStats(run.log[run.start..]), BACKLOG_LIMIT)
    && LastStats(run.log[run.start..]) == if r in s.b.latestStats then [s.b.latestStats[r]] else []
  }

  predicate Serving(pub: Pub, c: nat) {
    pub.Putting? && pub.todo != [] && pub.todo[0] == c
  }

  predicate SubInv(s: System, c: nat)
    requires c in s.subs
  {
    var u := s.subs[c];
    && BaseInv(s, c)
    && (u.mode == Late ==> u.out + u.replay == u.shown)
    && (u.mode == Closed ==> u.replay == [] && ClosedInv(u, RunOf(s, u.run).log))
    && (u.mode == Closed || u.mode == Left ==> Part(u.lossy, u.out, Owed(s, c)))
    && (u.mode == Live ==> StreamInv(s, c) && QueueInv(s, c) && MarkInv(u, RunOf(s, u.run).log, LookupQueue(s.b, c)))
  }

  predicate BaseInv(s: System, c: nat)
    requires c in s.subs
  {
    var u := s.subs[c];
    var log := RunOf(s, u.run).log;
    && u.from <= u.at <= |log|
    && u.shown == if u.mode == Late then LastN(NonStats(log[u.from..u.at]), BACKLOG_LIMIT)
                  else Context(log[u.from..u.at])
  }

  predicate QueueInv(s: System, c: nat)
    requires c in s.subs
  {
    var u := s.subs[c];
    var pub := RunOf(s, u.run).pub;
    var q := LookupQueue(s.b, c);
    && c in Lookup(s.b.subscribers, u.run)
    && |q| <= QUEUE_SIZE
    && (Serving(pub, c) && pub.phase != First ==> u.lossy)
  }

  /** Without losses, a marker is in the queue exactly once one was put, and what is in front of the first one
      completes what had been offered by then. */
  predicate MarkInv(u: Sub, log: seq<Event>, q: seq<Item>) {
    !u.lossy ==>
      && (u.end.Some? <==> Marked(q))
      && (u.end.Some? ==>
            u.at <= u.end.value <= |log|
            && u.out + u.replay + Events(q[..MarkAt(q)]) == u.shown + log[u.at..u.end.value])
  }

  /** Without losses, a closed subscriber has what had been offered when its end marker was put. */
  predicate ClosedInv(u: Sub, log: seq<Event>) {
    !u.lossy ==>
      u.end.Some? && u.at <= u.end.value <= |log| && u.out == u.shown + log[u.at..u.end.value]
  }

  /** What is pending is the newest part of what is owed; what came before it was seen, up to losses. */
  predicate Flow(lossy: bool, seen: seq<Event>, owed: seq<Event>, pending: seq<Event>, since: nat) {
    && |pending| <= since <= |owed|
    && pending == owed[|owed| - |pending|..]
    && Covers(lossy, seen, owed[..|owed| - |pending|])
  }

  /** Once an event was skipped, what was seen and what is pending are still in order. */
  predicate Stream(skipped: bool, lossy: bool, seen: seq<Event>, owed: seq<Event>, pending: seq<Event>, since: nat) {
    if skipped then lossy && Subsequence(seen + pending, owed) else Flow(lossy, seen, owed, pending, since)
  }

  predicate StreamInv(s: System, c: nat)
    requires c in s.subs && s.subs[c].at <= |RunOf(s, s.subs[c].run).log|
  {
    var u := s.subs[c];
    Stream(u.skipped, u.lossy, u.out + u.replay, Owed(s, c), Pending(s, c), |RunOf(s, u.run).log| - u.at)
  }

  ghost predicate Inv(s: System) {
    && (forall r :: RunInv(s, r))
    && (forall c :: c in s.subs ==> SubInv(s, c))
  }

  lemma InitInv()
    ensures Inv(Init)
  {
  }

  // ------------------------------------------------------------------ small facts about streams

  lemma {:induction false} EventsAppend(q: seq<Item>, x: Item)
    ensures Events(q + [x]) == Events(q) + match x case Some(e) => [e] case None => []
  {
    assert (q + [x])[..|q|] == q;
  }

  lemma EventsOne(x: Item)
    ensures Events([]) == [] && Events([x]) == match x case Some(e) => [e] case None => []
  {
    EventsAppend([], x);
    assert [] + [x] == [x];
  }

  /** The first item of a queue counts if it is an event. */
  lemma {:induction false} EventsHead(q: seq<Item>)
    requires q != []
    ensures Events(q) == (match q[0] case Some(e) => [e] case None => []) + Events(q[1..])
  {
    hide Events;
    EventsOne(q[0]);
    if |q| == 1 {
      assert q == [q[0]] && q[1..] == [];
    } else {
      var init, x := q[..|q| - 1], q[|q| - 1];
      EventsHead(init);
      assert init[1..] == q[1..][..|q| - 2];
      assert init + [x] == q && init[1..] + [x] == q[1..];
      EventsAppend(init, x);
      EventsAppend(init[1..], x);
    }
  }

  lemma {:induction false} SubsequencePrefix(a: seq<Event>, n: nat, b: seq<Event>)
    requires n <= |a| && Subsequence(a, b)
    ensures Subsequence(a[..n], b)
    decreases |b|
  {
    if n == 0 {
      assert a[..0] == [];
    } else if Subsequence(a, b[..|b| - 1]) {
      SubsequencePrefix(a, n, b[..|b| - 1]);
    } else if n == |a| {
      assert a[..n] == a;
    } else {
      SubsequencePrefix(a[..|a| - 1], n, b[..|b| - 1]);
      assert a[..|a| - 1][..n] == a[..n];
    }
  }

  lemma {:induction false} SubsequenceExtends(a: seq<Event>, b: seq<Event>, n: nat)
    requires n <= |b| && Subsequence(a, b[..n])
    ensures Subsequence(a, b)
    decreases |b| - n
  {
    if n == |b| {
      assert b[..n] == b;
    } else {
      assert b[..n + 1] == b[..n] + [b[n]];
      SubsequenceGrows(a, b[..n], b[n]);
      SubsequenceExtends(a, b, n + 1);
    }
  }

  lemma PrefixIsSubsequence(a: seq<Event>, b: seq<Event>)
    requires a <= b
    ensures Subsequence(a, b)
  {
    SubsequenceReflexive(a);
    assert b[..|a|] == a;
    SubsequenceExtends(a, b, |a|);
  }

  lemma LastNTwice<T>(l: seq<T>, x: T, n: nat)
    ensures LastN(LastN(l, n) + [x], n) == LastN(l + [x], n)
  {
  }

  lemma NonStatsAppend(l: seq<Event>, e: Event)
    ensures NonStats(l + [e]) == NonStats(l) + if IsStats(e) then [] else [e]
    ensures LastStats(l + [e]) == if IsStats(e) then [e] else LastStats(l)
  {
    assert (l + [e])[..|l|] == l;
  }

  lemma FlowPublish(lossy: bool, seen: seq<Event>, owed: seq<Event>, pending: seq<Event>, since: nat, e: Event)
    requires Flow(lossy, seen, owed, pending, since)
    ensures Flow(lossy, seen, owed + [e], pending + [e], since + 1)
  {
    assert (owed + [e])[..|owed| - |pending|] == owed[..|owed| - |pending|];
  }

  /** Losing or reading the oldest pending event. */
  lemma FlowHead(lossy: bool, seen: seq<Event>, owed: seq<Event>, pending: seq<Event>, since: nat)
    requires Flow(lossy, seen, owed, pending, since) && pending != []
    ensures Flow(true, seen, owed, pending[1..], since)
    ensures Flow(lossy, seen + [pending[0]], owed, pending[1..], since)
  {
    var k := |owed| - |pending|;
    assert owed[..k + 1] == owed[..k] + [pending[0]];
    assert |owed| - |pending[1..]| == k + 1;
    CoversGrows(lossy, seen, owed[..k], pending[0]);
  }

  lemma FlowLossy(lossy: bool, seen: seq<Event>, owed: seq<Event>, pending: seq<Event>, since: nat)
    requires Flow(lossy, seen, owed, pending, since)
    ensures Flow(true, seen, owed, pending, since)
  {
    if !lossy { SubsequenceReflexive(seen); }
  }

  lemma StreamPublish(skipped: bool, lossy: bool, seen: seq<Event>, owed: seq<Event>, pending: seq<Event>, since: nat,
                      e: Event)
    requires Stream(skipped, lossy, seen, owed, pending, since)
    ensures Stream(skipped, lossy, seen, owed + [e], pending + [e], since + 1)
  {
    hide Flow, Subsequence;
    if skipped {
      SubsequenceGrows(seen + pending, owed, e);
      assert seen + (pending + [e]) == seen + pending + [e];
    } else {
      FlowPublish(lossy, seen, owed, pending, since, e);
    }
  }

  lemma StreamHead(skipped: bool, lossy: bool, seen: seq<Event>, owed: seq<Event>, pending: seq<Event>, since: nat)
    requires Stream(skipped, lossy, seen, owed, pending, since) && pending != []
    ensures Stream(skipped, true, seen, owed, pending[1..], since)
    ensures Stream(skipped, lossy, seen + [pending[0]], owed, pending[1..], since)
  {
    hide Flow, Subsequence;
    if skipped {
      SubsequenceWithout(seen + pending, |seen|, owed);
      assert (seen + pending)[..|seen|] + (seen + pending)[|seen| + 1..] == seen + pending[1..];
      assert seen + [pending[0]] + pending[1..] == seen + pending;
    } else {
      FlowHead(lossy, seen, owed, pending, since);
    }
  }

  lemma StreamLossy(skipped: bool, lossy: bool, seen: seq<Event>, owed: seq<Event>, pending: seq<Event>, since: nat)
    requires Stream(skipped, lossy, seen, owed, pending, since)
    ensures Stream(skipped, true, seen, owed, pending, since)
  {
    hide Flow, Subsequence;
    if !skipped { FlowLossy(lossy, seen, owed, pending, since); }
  }

  /** Losing the newest pending event. */
  lemma StreamSkip(skipped: bool, seen: seq<Event>, owed: seq<Event>, pending: seq<Event>, since: nat)
    requires Stream(skipped, true, seen, owed, pending, since) && pending != []
    ensures Stream(true, true, seen, owed, pending[..|pending| - 1], since)
  {
    hide Subsequence;
    StreamInOrder(skipped, true, seen, owed, pending, since);
    SubsequencePrefix(seen + pending, |seen + pending| - 1, owed);
    assert (seen + pending)[..|seen + pending| - 1] == seen + pending[..|pending| - 1];
  }

  /** In any case what was seen and what is pending are part of what is owed, in order. */
  lemma StreamInOrder(skipped: bool, lossy: bool, seen: seq<Event>, owed: seq<Event>, pending: seq<Event>, since: nat)
    requires Stream(skipped, lossy, seen, owed, pending, since)
    ensures Subsequence(seen + pending, owed)
  {
    hide Subsequence;
    if !skipped {
      var k := |owed| - |pending|;
      assert owed == owed[..k] + pending;
      if lossy {
        SubsequenceBoth(seen, owed[..k], pending);
      } else {
        SubsequenceReflexive(owed);
      }
    }
  }

  /** What has been read is a part of what is owed. */
  lemma StreamPart(skipped: bool, lossy: bool, seen: seq<Event>, owed: seq<Event>, pending: seq<Event>, since: nat)
    requires Stream(skipped, lossy, seen, owed, pending, since)
    ensures Part(lossy, seen, owed)
  {
    hide Subsequence;
    if lossy {
      StreamInOrder(skipped, lossy, seen, owed, pending, since);
      SubsequencePrefix(seen + pending, |seen|, owed);
      assert (seen + pending)[..|seen|] == seen;
    }
  }

  lemma {:induction false} SubsequenceBoth(a: seq<Event>, b: seq<Event>, x: seq<Event>)
    requires Subsequence(a, b)
    ensures Subsequence(a + x, b + x)
  {
    hide Subsequence;
    if x == [] {
      assert a + x == a && b + x == b;
    } else {
      var init := x[..|x| - 1];
      SubsequenceBoth(a, b, init);
      SubsequenceGrows(a + init, b + init, x[|x| - 1]);
      assert a + x == a + init + [x[|x| - 1]] && b + x == b + init + [x[|x| - 1]];
    }
  }

  lemma {:induction false} SubsequenceWithout(a: seq<Event>, i: nat, b: seq<Event>)
    requires i < |a| && Subsequence(a, b)
    ensures Subsequence(a[..i] + a[i + 1..], b)
    decreases |b|
  {
    var init := b[..|b| - 1];
    if Subsequence(a, init) {
      SubsequenceWithout(a, i, init);
      SubsequenceExtends(a[..i] + a[i + 1..], b, |b| - 1);
    } else if i == |a| - 1 {
      assert a[..i] + a[i + 1..] == a[..|a| - 1];
      SubsequenceExtends(a[..|a| - 1], b, |b| - 1);
    } else {
      var rest := a[..|a| - 1];
      SubsequenceWithout(rest, i, init);
      assert a[..i] + a[i + 1..] == (rest[..i] + rest[i + 1..]) + [a[|a| - 1]];
      SubsequenceGrows(rest[..i] + rest[i + 1..], init, b[|b| - 1]);
      assert init + [b[|b| - 1]] == b;
    }
  }

  lemma {:induction false} MarkAppend(q: seq<Item>, x: Item)
    ensures MarkAt(q + [x]) == if Marked(q) then MarkAt(q) else if x.None? then |q| else |q| + 1
  {
    if q != [] && q[0].Some? {
      assert (q + [x])[1..] == q[1..] + [x];
      MarkAppend(q[1..], x);
    }
  }

  /** A queue without a marker takes an event or a marker. */
  lemma MarkPut(u: Sub, log: seq<Event>, q: seq<Item>, x: Item)
    requires MarkInv(u, log, q) && (x.None? ==> u.end.Some?)
    ensures MarkInv(u, log, q + [x])
  {
    hide Events;
    MarkAppend(q, x);
    if Marked(q) {
      assert (q + [x])[..MarkAt(q)] == q[..MarkAt(q)];
    }
  }

  /** The log grows behind the marker. */
  lemma MarkPublish(u: Sub, log: seq<Event>, q: seq<Item>, e: Event)
    requires MarkInv(u, log, q)
    ensures MarkInv(u, log + [e], q)
  {
    hide Events, MarkAt;
    if !u.lossy && u.end.Some? {
      assert (log + [e])[u.at..u.end.value] == log[u.at..u.end.value];
    }
  }

  /** Reading an event in front of the marker. */
  lemma MarkGet(u: Sub, log: seq<Event>, q: seq<Item>)
    requires MarkInv(u, log, q) && u.replay == [] && q != [] && q[0].Some?
    ensures MarkInv(u.(out := u.out + [q[0].value]), log, q[1..])
  {
    hide Events;
    if !u.lossy && u.end.Some? {
      var head := q[..MarkAt(q)];
      assert head[1..] == q[1..][..MarkAt(q[1..])];
      EventsHead(head);
      assert u.out + u.replay == u.out && u.out + [q[0].value] + u.replay == u.out + [q[0].value];
      assert u.out + [q[0].value] + Events(head[1..]) == u.out + ([q[0].value] + Events(head[1..]));
    }
  }

  // ------------------------------------------------------------------ one step at a time

  lemma BaseAt(s: System, c: nat)
    requires c in s.subs && BaseInv(s, c)
    ensures s.subs[c].at <= |RunOf(s, s.subs[c].run).log|
  {
  }

  /** A subscriber whose own record, queue, registration and log a step leaves alone. */
  lemma FrameSub(s: System, s': System, c: nat)
    requires c in s.subs && SubInv(s, c)
    requires c in s'.subs && s'.subs[c] == s.subs[c]
    requires RunOf(s', s.subs[c].run).log == RunOf(s, s.subs[c].run).log
    requires RunOf(s', s.subs[c].run).pub == RunOf(s, s.subs[c].run).pub
    requires LookupQueue(s'.b, c) == LookupQueue(s.b, c)
    requires c in Lookup(s.b.subscribers, s.subs[c].run) ==> c in Lookup(s'.b.subscribers, s.subs[c].run)
    ensures SubInv(s', c)
  {
    hide Context, NonStats, LastStats, Subsequence, Events, MarkInv, ClosedInv;
    assert Owed(s', c) == Owed(s, c) && Pending(s', c) == Pending(s, c);
  }

  /** A live subscriber whose queue and record a step of its own id's publishing thread leaves alone. */
  lemma FrameLive(s: System, s': System, c: nat)
    requires c in s.subs && SubInv(s, c) && s.subs[c].mode == Live
    requires c in s'.subs && s'.subs[c] == s.subs[c]
    requires LookupQueue(s'.b, c) == LookupQueue(s.b, c) && s'.b.subscribers == s.b.subscribers
    requires var run := RunOf(s, s.subs[c].run); var run' := RunOf(s', s.subs[c].run);
             && run'.log == run.log
             && (Serving(run'.pub, c) ==> run'.pub.phase == First)
             && (if c in ServeList(run.pub) then c in ServeList(run'.pub) && run'.pub.e == run.pub.e
                 else c !in ServeList(run'.pub))
    ensures SubInv(s', c)
  {
    hide Context, NonStats, LastStats, Subsequence, Events, MarkInv;
    assert Owed(s', c) == Owed(s, c) && Pending(s', c) == Pending(s, c);
  }

  /** A subscriber that no longer reads its queue. */
  lemma FrameIdle(s: System, s': System, c: nat)
    requires c in s.subs && SubInv(s, c) && s.subs[c].mode != Live
    requires c in s'.subs && s'.subs[c] == s.subs[c].(drained := s'.subs[c].drained, skipped := s'.subs[c].skipped)
    requires RunOf(s', s.subs[c].run).log == RunOf(s, s.subs[c].run).log
    ensures SubInv(s', c)
  {
    hide Context, NonStats, LastStats, Subsequence, Events;
    assert Owed(s', c) == Owed(s, c);
  }

  /** A run whose record, registrations and backlog are left alone. */
  ghost predicate SameRun(s: System, s': System, r: int) {
    && RunOf(s', r) == RunOf(s, r)
    && Lookup(s'.b.subscribers, r) == Lookup(s.b.subscribers, r)
    && Lookup(s'.b.backlog, r) == Lookup(s.b.backlog, r)
    && (r in s'.b.latestStats <==> r in s.b.latestStats)
    && (r in s.b.latestStats ==> s'.b.latestStats[r] == s.b.latestStats[r])
    && SameChannels(s, s')
  }

  /** No subscriber vanishes, changes its id or becomes late. */
  ghost predicate SameChannels(s: System, s': System) {
    forall c :: c in s.subs ==>
      c in s'.subs && s'.subs[c].run == s.subs[c].run && (s'.subs[c].mode == Late ==> s.subs[c].mode == Late)
  }

  lemma FrameRun(s: System, s': System, r: int)
    requires RunInv(s, r) && SameRun(s, s', r)
    ensures RunInv(s', r)
  {
    hide NonStats, LastStats;
  }

  lemma PublishKeepsRun(s: System, r: int, e: Event)
    requires RunInv(s, r)
    ensures RunInv(DoPublish(s, r, e), r)
  {
    hide Context, NonStats, LastStats, Subsequence, Events, BacklogInv, LastN;
    PublishKeepsBacklog(s, r, e);
    var s' := DoPublish(s, r, e);
    assert s'.subs == s.subs && s'.b.subscribers == s.b.subscribers;
    assert ChannelsOf(s', Lookup(s.b.subscribers, r), r);
  }

  lemma PublishKeepsBacklog(s: System, r: int, e: Event)
    requires BacklogInv(s, r)
    ensures BacklogInv(DoPublish(s, r, e), r)
  {
    hide NonStats, LastStats, Subsequence, Events, LastN;
    var run := RunOf(s, r);
    var kept := run.log[run.start..];
    assert (run.log + [e])[run.start..] == kept + [e];
    NonStatsAppend(kept, e);
    LastNTwice(NonStats(kept), e, BACKLOG_LIMIT);
    assert NonStats(kept) + [] == NonStats(kept);
  }

  /** Publishing as a step of its own: it goes through exactly when the thread is idle. */
  lemma PublishKeepsBase(s: System, r: int, e: Event, c: nat)
    requires c in s.subs && BaseInv(s, c)
    ensures BaseInv(DoPublish(s, r, e), c)
    ensures Owed(DoPublish(s, r, e), c)
            == Owed(s, c) + if s.subs[c].run != r || RunOf(s, r).pub != Idle then [] else [e]
  {
    hide Context, NonStats, LastN;
    var u, log := s.subs[c], RunOf(s, r).log;
    if u.run == r {
      assert (log + [e])[u.from..u.at] == log[u.from..u.at];
      assert (log + [e])[u.at..] == log[u.at..] + [e];
    }
  }

  lemma PublishKeepsQueue(s: System, r: int, e: Event, c: nat)
    requires c in s.subs && s.subs[c].run == r && RunOf(s, r).pub == Idle && QueueInv(s, c)
    ensures QueueInv(DoPublish(s, r, e), c)
    ensures Pending(DoPublish(s, r, e), c) == Pending(s, c) + [e]
  {
    hide Events;
  }

  lemma PublishKeepsLive(s: System, r: int, e: Event, c: nat)
    requires c in s.subs && s.subs[c].run == r && RunOf(s, r).pub == Idle && s.subs[c].mode == Live && SubInv(s, c)
    ensures SubInv(DoPublish(s, r, e), c)
  {
    hide Context, NonStats, LastStats, Subsequence, Events, MarkInv, ClosedInv, QueueInv, Stream;
    var u := s.subs[c];
    PublishKeepsBase(s, r, e, c);
    PublishKeepsQueue(s, r, e, c);
    MarkPublish(u, RunOf(s, r).log, LookupQueue(s.b, c), e);
    StreamPublish(u.skipped, u.lossy, u.out + u.replay, Owed(s, c), Pending(s, c), |RunOf(s, r).log| - u.at, e);
  }

  lemma PublishKeepsIdle(s: System, r: int, e: Event, c: nat)
    requires c in s.subs && s.subs[c].run == r && RunOf(s, r).pub == Idle && s.subs[c].mode != Live && SubInv(s, c)
    ensures SubInv(DoPublish(s, r, e), c)
  {
    hide Context, NonStats, LastStats, Subsequence, Events;
    var u, log := s.subs[c], RunOf(s, r).log;
    PublishKeepsBase(s, r, e, c);
    if u.mode != Late && u.lossy {
      SubsequenceGrows(u.out, Owed(s, c), e);
    } else if u.mode == Closed {
      assert (log + [e])[u.at..u.end.value] == log[u.at..u.end.value];
    }
  }

  lemma PublishKeepsSub(s: System, r: int, e: Event, c: nat)
    requires c in s.subs && SubInv(s, c)
    ensures SubInv(DoPublish(s, r, e), c)
  {
    hide SubInv;
    if s.subs[c].run != r || RunOf(s, r).pub != Idle {
      FrameSub(s, DoPublish(s, r, e), c);
    } else if s.subs[c].mode == Live {
      PublishKeepsLive(s, r, e, c);
    } else {
      PublishKeepsIdle(s, r, e, c);
    }
  }

  /** The publishing thread of `r` goes on to the next queue of its list, possibly after changing the contents of
      queues. */
  ghost predicate Advances(s: System, s': System, r: int) {
    && RunOf(s, r).pub.Putting?
    && RunOf(s, r).pub.todo != []
    && s' == SetPub(s.(b := s.b.(queues := s'.b.queues), subs := s'.subs), r,
                    After(RunOf(s, r).pub.e, RunOf(s, r).pub.todo[1..]))
    && (s'.subs == s.subs || s'.subs == MarkDrained(s, RunOf(s, r).pub.todo[0]).subs
        || s'.subs == MarkSkipped(s, RunOf(s, r).pub.todo[0]).subs)
    && (forall c :: c != RunOf(s, r).pub.todo[0] ==> LookupQueue(s'.b, c) == LookupQueue(s.b, c))
  }

  lemma AdvanceKeepsRun(s: System, s': System, r: int)
    requires RunInv(s, r) && Advances(s, s', r)
    ensures RunInv(s', r)
  {
    hide NonStats, LastStats;
  }

  lemma InTail(todo: seq<nat>, c: nat)
    requires todo != [] && c != todo[0]
    ensures c in todo <==> c in todo[1..]
  {
    assert todo == [todo[0]] + todo[1..];
  }

  /** Advancing leaves the other subscribers' pending events alone. */
  lemma AdvanceKeepsOther(s: System, s': System, r: int, c: nat)
    requires Advances(s, s', r)
    requires c in s.subs && SubInv(s, c) && c != RunOf(s, r).pub.todo[0]
    ensures SubInv(s', c)
  {
    hide SubInv;
    InTail(RunOf(s, r).pub.todo, c);
    if s.subs[c].run != r {
      FrameSub(s, s', c);
    } else if s.subs[c].mode != Live {
      FrameIdle(s, s', c);
    } else {
      FrameLive(s, s', c);
    }
  }

  lemma ServedOnce(s: System, r: int)
    requires RunOf(s, r).pub.Putting? && RunOf(s, r).pub.todo != [] && Distinct(RunOf(s, r).pub.todo)
    ensures RunOf(s, r).pub.todo[0] !in RunOf(s, r).pub.todo[1..]
  {
  }

  lemma AdvanceKeepsQueue(s: System, s': System, r: int, c: nat)
    requires Distinct(ServeList(RunOf(s, r).pub)) && Advances(s, s', r)
    requires c in s.subs && s.subs[c].run == r && QueueInv(s, c) && c == RunOf(s, r).pub.todo[0]
    requires |LookupQueue(s'.b, c)| <= QUEUE_SIZE
    requires s'.subs == s.subs || s'.subs == MarkDrained(s, c).subs
    ensures QueueInv(s', c) && c !in ServeList(RunOf(s', r).pub)
  {
    ServedOnce(s, r);
  }

  /** The subscriber being served receives the event. */
  lemma AdvanceKeepsServed(s: System, s': System, r: int, c: nat)
    requires Distinct(ServeList(RunOf(s, r).pub)) && Advances(s, s', r)
    requires c in s.subs && s.subs[c].run == r && SubInv(s, c) && c == RunOf(s, r).pub.todo[0]
    requires s.subs[c].mode == Live && |LookupQueue(s.b, c)| < QUEUE_SIZE
    requires LookupQueue(s'.b, c) == LookupQueue(s.b, c) + [Some(RunOf(s, r).pub.e)]
    requires s'.subs == s.subs
    ensures SubInv(s', c)
  {
    hide Context, NonStats, LastStats, Subsequence, Events, MarkInv, QueueInv, Stream;
    assert QueueInv(s', c) && c !in ServeList(RunOf(s', r).pub) by { AdvanceKeepsQueue(s, s', r, c); }
    var q, x := LookupQueue(s.b, c), Some(RunOf(s, r).pub.e);
    EventsAppend(q, x);
    MarkPut(s.subs[c], RunOf(s, r).log, q, x);
    assert Owed(s', c) == Owed(s, c);
    assert Pending(s', c) == Pending(s, c);
  }

  /** The subscriber being served loses the event: its queue ran empty between the two attempts. */
  lemma AdvanceKeepsUnserved(s: System, s': System, r: int, c: nat)
    requires Distinct(ServeList(RunOf(s, r).pub)) && Advances(s, s', r)
    requires c in s.subs && s.subs[c].run == r && SubInv(s, c) && c == RunOf(s, r).pub.todo[0]
    requires s.subs[c].mode == Live && RunOf(s, r).pub.phase == Dropping
    requires LookupQueue(s.b, c) == LookupQueue(s'.b, c) == []
    requires s'.subs == MarkDrained(s, c).subs
    ensures SubInv(s', c)
  {
    hide Context, NonStats, LastStats, Subsequence, QueueInv, Stream;
    var u := s.subs[c];
    assert QueueInv(s', c) && c !in ServeList(RunOf(s', r).pub) by { AdvanceKeepsQueue(s, s', r, c); }
    assert Owed(s', c) == Owed(s, c);
    assert Pending(s, c) == [RunOf(s, r).pub.e] && Pending(s', c) == Pending(s, c)[1..];
    ServedIsLossy(s, c);
    StreamHead(u.skipped, u.lossy, u.out + u.replay, Owed(s, c), Pending(s, c), |RunOf(s, r).log| - u.at);
  }

  /** The subscriber being served loses the event: the slot made for it was gone. */
  lemma AdvanceKeepsSkipped(s: System, s': System, r: int, c: nat)
    requires Distinct(ServeList(RunOf(s, r).pub)) && Advances(s, s', r)
    requires c in s.subs && s.subs[c].run == r && SubInv(s, c) && c == RunOf(s, r).pub.todo[0]
    requires s.subs[c].mode == Live && RunOf(s, r).pub.phase == Retrying
    requires s'.b == s.b && s'.subs == MarkSkipped(s, c).subs
    ensures SubInv(s', c)
  {
    hide Context, NonStats, LastStats, Subsequence, QueueInv, Stream, Events;
    var u := s.subs[c];
    assert QueueInv(s', c) && c !in ServeList(RunOf(s', r).pub) by { AdvanceKeepsSize(s, s', r, c); }
    assert Owed(s', c) == Owed(s, c);
    var pending := Pending(s, c);
    assert Pending(s', c) == pending[..|pending| - 1];
    ServedIsLossy(s, c);
    StreamSkip(u.skipped, u.out + u.replay, Owed(s, c), pending, |RunOf(s, r).log| - u.at);
  }

  lemma AdvanceKeepsSize(s: System, s': System, r: int, c: nat)
    requires Distinct(ServeList(RunOf(s, r).pub)) && Advances(s, s', r)
    requires c in s.subs && s.subs[c].run == r && QueueInv(s, c) && c == RunOf(s, r).pub.todo[0]
    requires s'.b == s.b && s'.subs == MarkSkipped(s, c).subs
    ensures QueueInv(s', c) && c !in ServeList(RunOf(s', r).pub)
  {
    ServedOnce(s, r);
  }

  lemma ServedIsLossy(s: System, c: nat)
    requires c in s.subs && QueueInv(s, c)
    requires Serving(RunOf(s, s.subs[c].run).pub, c) && RunOf(s, s.subs[c].run).pub.phase != First
    ensures s.subs[c].lossy
  {
  }

  lemma FullQueue(s: System, s': System, r: int, c: nat)
    requires c in s.subs && QueueInv(s, c)
    requires RunOf(s, r).pub.Putting? && RunOf(s, r).pub.todo != [] && RunOf(s, r).pub.todo[0] in s.subs
    requires s' == SetPub(MarkLossy(s, RunOf(s, r).pub.todo[0]), r, RunOf(s, r).pub.(phase := Dropping))
    ensures c in s'.subs && QueueInv(s', c)
  {
    hide Events;
  }

  lemma FullKeepsLive(s: System, s': System, r: int, c: nat)
    requires c in s.subs && SubInv(s, c) && s.subs[c].mode == Live
    requires RunOf(s, r).pub.Putting? && RunOf(s, r).pub.todo != [] && RunOf(s, r).pub.todo[0] in s.subs
    requires s' == SetPub(MarkLossy(s, RunOf(s, r).pub.todo[0]), r, RunOf(s, r).pub.(phase := Dropping))
    ensures SubInv(s', c)
  {
    hide Context, NonStats, LastStats, Covers, Events, Stream, QueueInv;
    var u := s.subs[c];
    FullQueue(s, s', r, c);
    assert Owed(s', c) == Owed(s, c) && Pending(s', c) == Pending(s, c);
    StreamLossy(u.skipped, u.lossy, u.out + u.replay, Owed(s, c), Pending(s, c), |RunOf(s, u.run).log| - u.at);
  }

  /** The served queue is full: the thread is about to drop its oldest item. */
  lemma FullKeepsSub(s: System, s': System, r: int, c: nat)
    requires c in s.subs && SubInv(s, c)
    requires RunOf(s, r).pub.Putting? && RunOf(s, r).pub.todo != [] && RunOf(s, r).pub.todo[0] in s.subs
    requires s' == SetPub(MarkLossy(s, RunOf(s, r).pub.todo[0]), r, RunOf(s, r).pub.(phase := Dropping))
    ensures SubInv(s', c)
  {
    hide SubInv;
    if s.subs[c].mode == Live {
      FullKeepsLive(s, s', r, c);
    } else {
      FullKeepsIdle(s, s', r, c);
    }
  }

  lemma FullKeepsIdle(s: System, s': System, r: int, c: nat)
    requires c in s.subs && SubInv(s, c) && s.subs[c].mode != Live
    requires RunOf(s, r).pub.Putting? && RunOf(s, r).pub.todo != [] && RunOf(s, r).pub.todo[0] in s.subs
    requires s' == SetPub(MarkLossy(s, RunOf(s, r).pub.todo[0]), r, RunOf(s, r).pub.(phase := Dropping))
    ensures SubInv(s', c)
  {
    hide BaseInv, Owed, StreamInv, QueueInv, MarkInv, Subsequence;
    var u := s.subs[c];
    assert u.at <= |RunOf(s, u.run).log| by { BaseAt(s, c); }
    SameBase(s, s', c);
    if u.mode != Late && !u.lossy {
      PrefixIsSubsequence(u.out, Owed(s, c));
    }
  }

  lemma SameBase(s: System, s': System, c: nat)
    requires c in s.subs && c in s'.subs && BaseInv(s, c)
    requires var u, u' := s.subs[c], s'.subs[c];
             u'.run == u.run && u'.from == u.from && u'.at == u.at && u'.shown == u.shown && u'.mode == u.mode
    requires RunOf(s', s.subs[c].run).log == RunOf(s, s.subs[c].run).log
    ensures BaseInv(s', c) && Owed(s', c) == Owed(s, c)
  {
  }

  /** Dropping the oldest item of the full queue that is being served. */
  lemma DropKeepsSub(s: System, s': System, r: int, c: nat)
    requires c in s.subs && SubInv(s, c)
    requires RunOf(s, r).pub.Putting? && RunOf(s, r).pub.todo != [] && RunOf(s, r).pub.phase == Dropping
    requires RunOf(s, r).pub.todo[0] in s.subs && s.subs[RunOf(s, r).pub.todo[0]].run == r
    requires LookupQueue(s.b, RunOf(s, r).pub.todo[0]) != []
    requires s' == SetPub(s.(b := DropHead(s.b, RunOf(s, r).pub.todo[0])), r, RunOf(s, r).pub.(phase := Retrying))
    ensures SubInv(s', c)
  {
    hide SubInv;
    if s.subs[c].mode != Live {
      FrameIdle(s, s', c);
    } else if c == RunOf(s, r).pub.todo[0] {
      DropKeepsServed(s, s', r, c);
    } else if s.subs[c].run == r {
      DropKeepsOther(s, s', r, c);
    } else {
      FrameSub(s, s', c);
    }
  }

  lemma DropKeepsOther(s: System, s': System, r: int, c: nat)
    requires c in s.subs && SubInv(s, c) && s.subs[c].mode == Live && s.subs[c].run == r
    requires RunOf(s, r).pub.Putting? && RunOf(s, r).pub.todo != [] && c != RunOf(s, r).pub.todo[0]
    requires LookupQueue(s.b, RunOf(s, r).pub.todo[0]) != []
    requires s' == SetPub(s.(b := DropHead(s.b, RunOf(s, r).pub.todo[0])), r, RunOf(s, r).pub.(phase := Retrying))
    ensures SubInv(s', c)
  {
    hide Context, NonStats, LastStats, Covers, Events, Stream, MarkInv;
    assert Owed(s', c) == Owed(s, c) && Pending(s', c) == Pending(s, c);
  }

  lemma DropQueue(s: System, s': System, r: int, c: nat)
    requires c in s.subs && QueueInv(s, c) && s.subs[c].run == r
    requires RunOf(s, r).pub.Putting? && RunOf(s, r).pub.todo != [] && RunOf(s, r).pub.phase == Dropping
    requires c == RunOf(s, r).pub.todo[0] && LookupQueue(s.b, c) != []
    requires s' == SetPub(s.(b := DropHead(s.b, c)), r, RunOf(s, r).pub.(phase := Retrying))
    ensures c in s'.subs && QueueInv(s', c) && s.subs[c].lossy
  {
    hide Events;
  }

  lemma DropKeepsServed(s: System, s': System, r: int, c: nat)
    requires c in s.subs && SubInv(s, c) && s.subs[c].mode == Live && s.subs[c].run == r
    requires RunOf(s, r).pub.Putting? && RunOf(s, r).pub.todo != [] && RunOf(s, r).pub.phase == Dropping
    requires c == RunOf(s, r).pub.todo[0] && LookupQueue(s.b, c) != []
    requires s' == SetPub(s.(b := DropHead(s.b, c)), r, RunOf(s, r).pub.(phase := Retrying))
    ensures SubInv(s', c)
  {
    hide Context, NonStats, LastStats, Covers, Stream, QueueInv, Events;
    var u, q := s.subs[c], LookupQueue(s.b, c);
    DropQueue(s, s', r, c);
    assert Owed(s', c) == Owed(s, c);
    EventsHead(q);
    if q[0].Some? {
      assert Pending(s', c) == Pending(s, c)[1..];
      StreamHead(u.skipped, u.lossy, u.out + u.replay, Owed(s, c), Pending(s, c), |RunOf(s, r).log| - u.at);
    } else {
      assert Pending(s', c) == Pending(s, c);
    }
  }

  lemma ServeKeepsRun(s: System, r: int)
    requires RunInv(s, r)
    ensures RunInv(DoServe(s, r), r)
  {
    hide Context, NonStats, LastStats, Subsequence, Events;
    var pub := RunOf(s, r).pub;
    if pub.Putting? && pub.phase != First && Advances(s, DoServe(s, r), r) {
      AdvanceKeepsRun(s, DoServe(s, r), r);
    } else if pub.Putting? && pub.phase == First && HasRoom(s.b, pub.todo[0]) {
      AdvanceKeepsRun(s, DoServe(s, r), r);
    }
  }

  lemma ServeKeepsSub(s: System, r: int, c: nat)
    requires RunInv(s, r) && c in s.subs && SubInv(s, c)
    ensures SubInv(DoServe(s, r), c)
  {
    hide BacklogInv;
    var s' := DoServe(s, r);
    var pub := RunOf(s, r).pub;
    if pub.Putting? {
      var target := pub.todo[0];
      assert target in s.subs && s.subs[target].run == r;
      if pub.phase == First && !HasRoom(s.b, target) {
        FullKeepsSub(s, s', r, c);
      } else if pub.phase == Dropping && LookupQueue(s.b, target) != [] {
        DropKeepsSub(s, s', r, c);
      } else if c != target {
        AdvanceKeepsOther(s, s', r, c);
      } else if s.subs[c].mode != Live {
        FrameIdle(s, s', c);
      } else if pub.phase == Retrying && !HasRoom(s.b, target) {
        AdvanceKeepsSkipped(s, s', r, c);
      } else if LookupQueue(s'.b, c) == [] {
        AdvanceKeepsUnserved(s, s', r, c);
      } else {
        AdvanceKeepsServed(s, s', r, c);
      }
    }
  }

  // ------------------------------------------------------------------ finishing

  lemma StartFinishKeepsRun(s: System, r: int)
    requires RunInv(s, r)
    ensures RunInv(DoStartFinish(s, r), r)
  {
    hide NonStats, LastStats;
  }

  lemma TellKeepsRun(s: System, r: int)
    requires RunInv(s, r)
    ensures RunInv(DoTell(s, r), r)
  {
    hide NonStats, LastStats;
  }

  lemma EndFinishKeepsRun(s: System, r: int)
    requires RunInv(s, r)
    ensures RunInv(DoEndFinish(s, r), r)
  {
    var log := RunOf(s, r).log;
    assert log[|log|..] == [];
  }

  /** Telling: a marker goes into a queue with room. */
  lemma TellKeepsTold(s: System, r: int, c: nat)
    requires RunInv(s, r) && RunOf(s, r).fin.Ending? && RunOf(s, r).fin.todo != [] && RunOf(s, r).fin.todo[0] == c
    requires HasRoom(s.b, c) && c in s.subs && s.subs[c].run == r && s.subs[c].mode == Live && SubInv(s, c)
    ensures SubInv(DoTell(s, r), c)
  {
    hide Context, NonStats, LastStats, Subsequence, Stream, Events, MarkInv, BacklogInv, Distinct;
    var s' := DoTell(s, r);
    var u, u', q, log := s.subs[c], s'.subs[c], LookupQueue(s.b, c), RunOf(s, r).log;
    EventsAppend(q, None);
    assert Owed(s', c) == Owed(s, c);
    assert Pending(s', c) == Pending(s, c);
    if u.end.None? {
      FirstMark(s, r, c);
    } else {
      MarkPut(u, log, q, None);
    }
  }

  /** The first marker comes behind exactly what had been offered. */
  lemma FirstMark(s: System, r: int, c: nat)
    requires c in s.subs && s.subs[c].run == r && BaseInv(s, c) && StreamInv(s, c)
    requires RunOf(s, r).pub.Putting? ==> RunOf(s, r).log != []
    requires s.subs[c].end.None? && MarkInv(s.subs[c], RunOf(s, r).log, LookupQueue(s.b, c))
    ensures Offered(s, r, c) >= 0
    ensures MarkInv(s.subs[c].(end := Some(Offered(s, r, c))), RunOf(s, r).log, LookupQueue(s.b, c) + [None])
  {
    hide Context, NonStats, LastStats, Subsequence, Events, MarkAt, BaseInv, StreamInv, Offered;
    var u, q := s.subs[c], LookupQueue(s.b, c);
    assert u.at <= |RunOf(s, r).log| by { BaseAt(s, c); }
    OfferedSoFar(s, r, c);
    MarkAppend(q, None);
    assert (q + [None])[..|q|] == q;
  }

  /** What a queue without a marker holds completes what it has been offered. */
  lemma OfferedSoFar(s: System, r: int, c: nat)
    requires c in s.subs && s.subs[c].run == r && s.subs[c].at <= |RunOf(s, r).log| && StreamInv(s, c)
    requires RunOf(s, r).pub.Putting? ==> RunOf(s, r).log != []
    ensures var u, log, n := s.subs[c], RunOf(s, r).log, Offered(s, r, c);
            && 0 <= n <= |log|
            && (!u.lossy ==> u.at <= n && u.out + u.replay + Events(LookupQueue(s.b, c)) == u.shown + log[u.at..n])
  {
    hide Subsequence, Events;
    var u, q, log := s.subs[c], LookupQueue(s.b, c), RunOf(s, r).log;
    if !u.lossy {
      var flight := InFlight(s, r, c);
      AllPending(u.out + u.replay, Owed(s, c), Pending(s, c), |log| - u.at);
      assert u.out + u.replay + Events(q) + flight == u.out + u.replay + Pending(s, c);
      OfferedPart(u.out + u.replay + Events(q), u.shown, log, u.at, flight);
    }
  }

  lemma AllPending(seen: seq<Event>, owed: seq<Event>, pending: seq<Event>, since: nat)
    requires Flow(false, seen, owed, pending, since)
    ensures seen + pending == owed && |pending| <= since
  {
    assert owed == owed[..|owed| - |pending|] + owed[|owed| - |pending|..];
  }

  lemma OfferedPart(seen: seq<Event>, shown: seq<Event>, log: seq<Event>, at: nat, flight: seq<Event>)
    requires |flight| <= |log| - at && seen + flight == shown + log[at..]
    ensures seen == shown + log[at..|log| - |flight|]
  {
    var owed := shown + log[at..];
    assert seen == owed[..|seen|];
    assert shown + log[at..|log| - |flight|] == owed[..|owed| - |flight|];
  }

  lemma TellKeepsSub(s: System, r: int, c: nat)
    requires RunInv(s, r) && c in s.subs && SubInv(s, c)
    ensures SubInv(DoTell(s, r), c)
  {
    hide SubInv, BacklogInv;
    var s' := DoTell(s, r);
    var fin := RunOf(s, r).fin;
    if fin.Ending? && fin.todo != [] && fin.todo[0] == c && HasRoom(s.b, c) {
      assert c in fin.todo;
      if s.subs[c].mode == Live {
        TellKeepsTold(s, r, c);
      } else {
        TellKeepsIdle(s, r, c);
      }
    } else {
      FrameSub(s, s', c);
    }
  }

  /** A marker for a subscriber that no longer reads: one that closed without losses has its end already. */
  lemma TellKeepsIdle(s: System, r: int, c: nat)
    requires c in s.subs && s.subs[c].mode != Live && SubInv(s, c)
    ensures SubInv(DoTell(s, r), c)
  {
    hide BaseInv, Owed, Subsequence, Pending, LookupQueue;
    BaseAt(s, c);
    SameBase(s, DoTell(s, r), c);
  }

  lemma StartFinishKeeps(s: System, r: int, c: nat)
    requires c in s.subs && SubInv(s, c)
    ensures SubInv(DoStartFinish(s, r), c)
  {
    hide SubInv;
    FrameSub(s, DoStartFinish(s, r), c);
  }

  lemma EndFinishKeepsSub(s: System, r: int, c: nat)
    requires c in s.subs && SubInv(s, c)
    ensures SubInv(DoEndFinish(s, r), c)
  {
    hide SubInv;
    FrameSub(s, DoEndFinish(s, r), c);
  }

  // ------------------------------------------------------------------ subscribers

  lemma SubscribeKeepsRun(s: System, c: nat, r: int, other: int)
    requires RunInv(s, other)
    ensures RunInv(DoSubscribe(s, c, r), other)
  {
    hide Distinct, NonStats, LastStats, ChannelsOf;
    var s' := DoSubscribe(s, c, r);
    var cs := Lookup(s.b.subscribers, other);
    NewChannel(s, s', c, cs, other);
    NewChannel(s, s', c, ServeList(RunOf(s, other).pub), other);
    NewChannel(s, s', c, TellList(RunOf(s, other).fin), other);
  }

  /** A list of channels stays one when a channel is new, and takes it if it is live and of the same id. */
  lemma NewChannel(s: System, s': System, c: nat, cs: seq<nat>, r: int)
    requires ChannelsOf(s, cs, r) && SameChannels(s, s')
    ensures ChannelsOf(s', cs, r)
    ensures c !in s.subs && c in s'.subs && s'.subs[c].run == r && s'.subs[c].mode != Late
            ==> ChannelsOf(s', cs + [c], r)
  {
    assert c !in s.subs ==> c !in cs;
  }

  /** What a newcomer is shown is the context, or of a remembered id only the lines. */
  lemma ReplayIsContext(s: System, r: int)
    requires BacklogInv(s, r)
    ensures var kept := RunOf(s, r).log[RunOf(s, r).start..];
            Replay(s.b, r) == if r in s.b.finished then LastN(NonStats(kept), BACKLOG_LIMIT) else Context(kept)
  {
    hide NonStats, LastStats, LastN;
    assert Lookup(s.b.backlog, r) + [] == Lookup(s.b.backlog, r);
  }

  lemma NewcomerInv(s: System, c: nat, r: int)
    requires RunInv(s, r) && c !in s.subs
    ensures SubInv(DoSubscribe(s, c, r), c)
  {
    hide NonStats, LastStats, Subsequence, Context, LastN;
    var s' := DoSubscribe(s, c, r);
    var run := RunOf(s, r);
    assert run.log[run.start..|run.log|] == run.log[run.start..];
    ReplayIsContext(s, r);
    var shown := Replay(s.b, r);
    assert [] + shown == shown;
    if r !in s.b.finished {
      assert c !in ServeList(run.pub);
      assert Pending(s', c) == [];
      assert run.log[|run.log|..] == [] && Owed(s', c) == shown;
      assert shown[..|shown|] == shown && shown[|shown|..] == [];
    }
  }

  lemma SubscribeKeepsSub(s: System, c: nat, r: int, other: nat)
    requires other in s.subs && SubInv(s, other)
    ensures SubInv(DoSubscribe(s, c, r), other)
  {
    hide SubInv;
    FrameSub(s, DoSubscribe(s, c, r), other);
  }

  lemma YieldReplayKeepsSub(s: System, c: nat, other: nat)
    requires other in s.subs && SubInv(s, other)
    ensures SubInv(DoYieldReplay(s, c), other)
  {
    hide BaseInv, Owed, Stream, Subsequence, Events;
    var s' := DoYieldReplay(s, c);
    var u, u' := s.subs[other], s'.subs[other];
    BaseAt(s, other);
    if s' != s && c == other {
      SameBase(s, s', c);
      assert u.out + u.replay == u'.out + u'.replay;
      assert Pending(s', c) == Pending(s, c);
    } else {
      FrameSub(s, s', other);
    }
  }

  /** A live subscriber reads an event. */
  lemma GetEventKeeps(s: System, c: nat)
    requires c in s.subs && SubInv(s, c) && s.subs[c].mode == Live && s.subs[c].replay == []
    requires LookupQueue(s.b, c) != [] && LookupQueue(s.b, c)[0].Some?
    ensures SubInv(DoGet(s, c), c)
  {
    hide Context, NonStats, LastStats, Subsequence, Events, Stream, MarkInv;
    var s' := DoGet(s, c);
    var u := s.subs[c];
    var q := LookupQueue(s.b, c);
    EventsHead(q);
    assert Owed(s', c) == Owed(s, c);
    assert Pending(s, c)[0] == q[0].value && Pending(s', c) == Pending(s, c)[1..];
    assert u.out + u.replay == u.out && (u.out + [q[0].value]) + [] == u.out + [q[0].value];
    StreamHead(u.skipped, u.lossy, u.out, Owed(s, c), Pending(s, c), |RunOf(s, u.run).log| - u.at);
    MarkGet(u, RunOf(s, u.run).log, q);
  }

  /** A live subscriber reads the end marker. */
  lemma GetMarkKeeps(s: System, c: nat)
    requires c in s.subs && SubInv(s, c) && s.subs[c].mode == Live && s.subs[c].replay == []
    requires LookupQueue(s.b, c) != [] && LookupQueue(s.b, c)[0].None?
    ensures SubInv(DoGet(s, c), c)
  {
    hide Context, NonStats, LastStats, Subsequence, Stream;
    var u := s.subs[c];
    var q := LookupQueue(s.b, c);
    assert q[..MarkAt(q)] == [];
    assert u.out + u.replay == u.out && u.out + [] == u.out;
    assert Owed(s, c) == Owed(DoGet(s, c), c);
    StreamPart(u.skipped, u.lossy, u.out, Owed(s, c), Pending(s, c), |RunOf(s, u.run).log| - u.at);
  }

  lemma GetKeepsSub(s: System, c: nat, other: nat)
    requires other in s.subs && SubInv(s, other)
    ensures SubInv(DoGet(s, c), other)
  {
    hide SubInv;
    var s' := DoGet(s, c);
    if c != other || s.subs[c].mode != Live || s.subs[c].replay != [] || LookupQueue(s.b, c) == [] {
      FrameSub(s, s', other);
    } else if LookupQueue(s.b, c)[0].Some? {
      GetEventKeeps(s, c);
    } else {
      GetMarkKeeps(s, c);
    }
  }

  lemma DisconnectKeepsSub(s: System, c: nat, other: nat)
    requires other in s.subs && SubInv(s, other)
    ensures SubInv(DoDisconnect(s, c), other)
  {
    hide Context, NonStats, LastStats, Subsequence, Events, Stream, MarkInv;
    var s' := DoDisconnect(s, c);
    if s' == s || c != other {
      FrameSub(s, s', other);
    } else {
      var u := s.subs[c];
      assert Owed(s', c) == Owed(s, c);
      StreamPart(u.skipped, u.lossy, u.out + u.replay, Owed(s, c), Pending(s, c), |RunOf(s, u.run).log| - u.at);
      if u.lossy {
        SubsequencePrefix(u.out + u.replay, |u.out|, Owed(s, c));
        assert (u.out + u.replay)[..|u.out|] == u.out;
      }
    }
  }

  lemma CleanUpSubscribers(s: System, c: nat, r: int)
    ensures DoCleanUp(s, c) == s.(b := s.b.(subscribers := DoCleanUp(s, c).b.subscribers))
    ensures var after := Lookup(DoCleanUp(s, c).b.subscribers, r); var cs := Lookup(s.b.subscribers, r);
            after == cs || after == Remove(cs, c)
  {
  }

  lemma CleanUpKeepsRun(s: System, c: nat, r: int)
    requires RunInv(s, r)
    ensures RunInv(DoCleanUp(s, c), r)
  {
    hide NonStats, LastStats, DoCleanUp, Remove;
    RemoveKeepsOthers(Lookup(s.b.subscribers, r), c);
    CleanUpSubscribers(s, c, r);
  }

  lemma CleanUpKeepsSub(s: System, c: nat, other: nat)
    requires other in s.subs && SubInv(s, other) && RunInv(s, s.subs[other].run)
    ensures SubInv(DoCleanUp(s, c), other)
  {
    hide SubInv, Remove, UnsubscribeLocked;
    var s' := DoCleanUp(s, c);
    var r := s.subs[other].run;
    RemoveKeepsOthers(Lookup(s.b.subscribers, r), c);
    CleanUpSubscribers(s, c, r);
    if s.subs[other].mode == Live {
      FrameSub(s, s', other);
    } else {
      FrameIdle(s, s', other);
    }
  }

  // ------------------------------------------------------------------ every interleaving

  /** The run whose worker takes a step, or whose subscribers are (un)registered by it. */
  function RunTouched(s: System, step: Step): int {
    match step
    case Publish(r, _) => r
    case Serve(r) => r
    case StartFinish(r) => r
    case Tell(r) => r
    case EndFinish(r) => r
    case Subscribe(_, r) => r
    case YieldReplay(c) => if c in s.subs then s.subs[c].run else 0
    case Get(c) => if c in s.subs then s.subs[c].run else 0
    case Disconnect(c) => if c in s.subs then s.subs[c].run else 0
    case CleanUp(c) => if c in s.subs then s.subs[c].run else 0
  }

  lemma WorkerStepFrames(s: System, r: int, e: Event, other: int)
    requires other != r
    ensures SameRun(s, DoPublish(s, r, e), other)
    ensures SameRun(s, DoStartFinish(s, r), other)
  {
  }

  lemma FinishStepFrames(s: System, r: int, other: int)
    requires other != r
    ensures SameRun(s, DoTell(s, r), other)
    ensures SameRun(s, DoEndFinish(s, r), other)
  {
  }

  lemma ServeFrames(s: System, r: int, other: int)
    requires other != r
    ensures SameRun(s, DoServe(s, r), other)
  {
  }

  lemma ReaderStepFrames(s: System, c: nat, r: int)
    ensures SameRun(s, DoYieldReplay(s, c), r)
    ensures SameRun(s, DoDisconnect(s, c), r)
  {
  }

  lemma GetFrames(s: System, c: nat, r: int)
    ensures SameRun(s, DoGet(s, c), r)
  {
  }

  lemma CleanUpFrames(s: System, c: nat, r: int)
    ensures c !in s.subs || s.subs[c].run != r ==> SameRun(s, DoCleanUp(s, c), r)
  {
  }

  lemma SubscribeFrames(s: System, c: nat, r: int, other: int)
    requires other != r
    ensures SameRun(s, DoSubscribe(s, c, r), other)
  {
  }

  lemma StepKeepsRun(s: System, step: Step, r: int)
    requires RunInv(s, r)
    ensures RunInv(Next(s, step), r)
  {
    hide RunInv, SameRun, DoPublish, DoServe, DoStartFinish, DoTell, DoEndFinish, DoSubscribe, DoGet, DoYieldReplay,
      DoDisconnect, DoCleanUp;
    if step.YieldReplay? || step.Get? || step.Disconnect? {
      ReaderStepFrames(s, step.c, r);
      GetFrames(s, step.c, r);
      FrameRun(s, Next(s, step), r);
    } else if r != RunTouched(s, step) {
      match step {
        case Publish(q, e) => WorkerStepFrames(s, q, e, r);
        case Serve(q) => ServeFrames(s, q, r);
        case StartFinish(q) => WorkerStepFrames(s, q, Event("", ""), r);
        case Tell(q) => FinishStepFrames(s, q, r);
        case EndFinish(q) => FinishStepFrames(s, q, r);
        case Subscribe(c, q) => SubscribeFrames(s, c, q, r);
        case CleanUp(c) => CleanUpFrames(s, c, r);
      }
      FrameRun(s, Next(s, step), r);
    } else {
      match step {
        case Publish(_, e) => PublishKeepsRun(s, r, e);
        case Serve(_) => ServeKeepsRun(s, r);
        case StartFinish(_) => StartFinishKeepsRun(s, r);
        case Tell(_) => TellKeepsRun(s, r);
        case EndFinish(_) => EndFinishKeepsRun(s, r);
        case Subscribe(c, _) => SubscribeKeepsRun(s, c, r, r);
        case CleanUp(c) => CleanUpKeepsRun(s, c, r);
      }
    }
  }

  /** Only subscribing adds a subscriber. */
  lemma StepSubs(s: System, step: Step)
    ensures (Next(s, step)).subs.Keys == s.subs.Keys + if step.Subscribe? then {step.c} else {}
  {
  }

  lemma StepKeepsSub(s: System, step: Step, c: nat)
    requires Inv(s) && c in Next(s, step).subs
    ensures SubInv(Next(s, step), c)
  {
    hide SubInv, RunInv, DoPublish, DoServe, DoStartFinish, DoTell, DoEndFinish, DoSubscribe, DoGet, DoYieldReplay,
      DoDisconnect, DoCleanUp;
    var r := RunTouched(s, step);
    assert RunInv(s, r);
    StepSubs(s, step);
    if c !in s.subs {
      NewcomerInv(s, c, r);
    } else {
      assert RunInv(s, s.subs[c].run);
      match step
      case Publish(_, e) => PublishKeepsSub(s, r, e, c);
      case Serve(_) => ServeKeepsSub(s, r, c);
      case StartFinish(_) => StartFinishKeeps(s, r, c);
      case Tell(_) => TellKeepsSub(s, r, c);
      case EndFinish(_) => EndFinishKeepsSub(s, r, c);
      case Subscribe(d, _) => SubscribeKeepsSub(s, d, r, c);
      case YieldReplay(d) => YieldReplayKeepsSub(s, d, c);
      case Get(d) => GetKeepsSub(s, d, c);
      case Disconnect(d) => DisconnectKeepsSub(s, d, c);
      case CleanUp(d) => CleanUpKeepsSub(s, d, c);
    }
  }

  lemma {:induction false} Reachable(trace: seq<Step>)
    ensures Inv(Exec(trace))
  {
    if trace == [] {
      InitInv();
    } else {
      var s, step := Exec(trace[..|trace| - 1]), trace[|trace| - 1];
      Reachable(trace[..|trace| - 1]);
      forall r
        ensures RunInv(Next(s, step), r)
      {
        StepKeepsRun(s, step, r);
      }
      forall c | c in Next(s, step).subs
        ensures SubInv(Next(s, step), c)
      {
        StepKeepsSub(s, step, c);
      }
    }
  }

  // ------------------------------------------------------------------ what subscribers can rely on

  lemma {:induction false} NonStatsConcat(a: seq<Event>, b: seq<Event>)
    ensures NonStats(a + b) == NonStats(a) + NonStats(b)
  {
    if b == [] {
      assert a + b == a;
    } else {
      assert (a + b)[..|a + b| - 1] == a + b[..|b| - 1];
      NonStatsConcat(a, b[..|b| - 1]);
    }
  }

  lemma {:induction false} NonStatsOfLines(es: seq<Event>)
    requires forall i :: 0 <= i < |es| ==> !IsStats(es[i])
    ensures NonStats(es) == es
  {
    if es != [] {
      NonStatsOfLines(es[..|es| - 1]);
      assert es[..|es| - 1] + [es[|es| - 1]] == es;
    }
  }

  lemma {:induction false} NonStatsAreLines(es: seq<Event>)
    ensures forall i :: 0 <= i < |NonStats(es)| ==> !IsStats(NonStats(es)[i])
  {
    if es != [] { NonStatsAreLines(es[..|es| - 1]); }
  }

  lemma {:induction false} NonStatsOfLastStats(es: seq<Event>)
    ensures NonStats(LastStats(es)) == []
  {
    if es != [] {
      NonStatsOfLastStats(es[..|es| - 1]);
      assert NonStats([es[|es| - 1]]) == if IsStats(es[|es| - 1]) then [] else [es[|es| - 1]] by {
        NonStatsAppend([], es[|es| - 1]);
        assert [] + [es[|es| - 1]] == [es[|es| - 1]];
      }
    }
  }

  /** Progress reports never push a line out of the context. */
  lemma LinesOfContext(es: seq<Event>)
    ensures NonStats(Context(es)) == LastN(NonStats(es), BACKLOG_LIMIT)
  {
    var lines := LastN(NonStats(es), BACKLOG_LIMIT);
    NonStatsAreLines(es);
    NonStatsOfLines(lines);
    NonStatsOfLastStats(es);
    NonStatsConcat(lines, LastStats(es));
  }

  lemma SubscriberHolds(trace: seq<Step>, c: nat)
    requires c in Exec(trace).subs
    ensures SubInv(Exec(trace), c) && RunInv(Exec(trace), Exec(trace).subs[c].run)
  {
    hide SubInv, RunInv, Exec;
    Reachable(trace);
  }

  /** A live subscriber whose queue was never full at a put: what it has yielded, what it has yet to replay and what is
      on its way are together exactly the context at the moment it joined and every event published under its id
      since, in publish order, nothing lost and nothing twice. Which run published what plays no part. */
  lemma HandoverIsExact(trace: seq<Step>, c: nat)
    requires c in Exec(trace).subs
    requires var u := Exec(trace).subs[c]; !u.lossy && u.mode == Live
    ensures var s := Exec(trace); var u := s.subs[c]; var log := RunOf(s, u.run).log;
            && u.from <= u.at <= |log|
            && u.out + u.replay + Pending(s, c) == Context(log[u.from..u.at]) + log[u.at..]
            && NonStats(u.out + u.replay + Pending(s, c))
               == LastN(NonStats(log[u.from..u.at]), BACKLOG_LIMIT) + NonStats(log[u.at..])
  {
    hide Context, NonStats, LastStats, Subsequence, Events, Exec, Pending, QueueInv, MarkInv;
    SubscriberHolds(trace, c);
    var s := Exec(trace);
    var u := s.subs[c];
    var log := RunOf(s, u.run).log;
    var owed, pending := Owed(s, c), Pending(s, c);
    assert owed == owed[..|owed| - |pending|] + owed[|owed| - |pending|..];
    NonStatsConcat(Context(log[u.from..u.at]), log[u.at..]);
    LinesOfContext(log[u.from..u.at]);
  }

  /** With a queue that fills, a live subscriber still sees what it is owed in order, and at most a full queue waits.
      What is on its way is the newest part of it, unless a slot made for an event was taken by an end marker. */
  lemma HandoverWithLosses(trace: seq<Step>, c: nat)
    requires c in Exec(trace).subs && Exec(trace).subs[c].mode == Live
    ensures var s := Exec(trace); var u := s.subs[c]; var log := RunOf(s, u.run).log;
            && u.at <= |log|
            && |LookupQueue(s.b, c)| <= QUEUE_SIZE
            && Subsequence(u.out + u.replay + Pending(s, c), u.shown + log[u.at..])
            && (!u.skipped ==>
                  && |Pending(s, c)| <= |log| - u.at
                  && Pending(s, c) == log[|log| - |Pending(s, c)|..]
                  && Subsequence(u.out + u.replay, u.shown + log[u.at..|log| - |Pending(s, c)|]))
  {
    hide Context, NonStats, LastStats, Subsequence, Events, Exec, Stream, Pending, RunInv, BaseInv, MarkInv;
    SubscriberHolds(trace, c);
    var s := Exec(trace);
    var u := s.subs[c];
    BaseAt(s, c);
    StreamParts(u.skipped, u.lossy, u.out + u.replay, u.shown, RunOf(s, u.run).log, u.at, Pending(s, c));
  }

  lemma StreamParts(skipped: bool, lossy: bool, seen: seq<Event>, shown: seq<Event>, log: seq<Event>, at: nat,
                    pending: seq<Event>)
    requires at <= |log| && Stream(skipped, lossy, seen, shown + log[at..], pending, |log| - at)
    ensures Subsequence(seen + pending, shown + log[at..])
    ensures !skipped ==>
              && |pending| <= |log| - at && pending == log[|log| - |pending|..]
              && Subsequence(seen, shown + log[at..|log| - |pending|])
  {
    hide Subsequence, Flow;
    StreamInOrder(skipped, lossy, seen, shown + log[at..], pending, |log| - at);
    if !skipped {
      FlowWithin(lossy, seen, shown + log[at..], pending, |log| - at);
      FlowParts(lossy, seen, shown, log, at, pending);
    }
  }

  lemma FlowWithin(lossy: bool, seen: seq<Event>, owed: seq<Event>, pending: seq<Event>, since: nat)
    requires Flow(lossy, seen, owed, pending, since)
    ensures |pending| <= since
  {
  }

  lemma FlowParts(lossy: bool, seen: seq<Event>, shown: seq<Event>, log: seq<Event>, at: nat, pending: seq<Event>)
    requires at <= |log| && Flow(lossy, seen, shown + log[at..], pending, |log| - at)
    ensures pending == log[|log| - |pending|..]
    ensures Subsequence(seen, shown + log[at..|log| - |pending|])
  {
    var owed := shown + log[at..];
    var k := |owed| - |pending|;
    assert owed[..k] == shown + log[at..|log| - |pending|];
    assert owed[k..] == log[|log| - |pending|..];
    FlowLossy(lossy, seen, owed, pending, |log| - at);
  }

  /** `c` is the next to be told about the end of `r`. */
  predicate NextToTell(s: System, r: int, c: nat) {
    var fin := RunOf(s, r).fin;
    fin.Ending? && fin.todo != [] && fin.todo[0] == c
  }

  /** The thread finishing `r` was about to tell `c` at step `k`. */
  ghost predicate Telling(trace: seq<Step>, k: nat, r: int, c: nat) {
    && k < |trace| && trace[k] == Tell(r)
    && var fin := RunOf(Exec(trace[..k]), r).fin;
       fin.Ending? && fin.todo != [] && fin.todo[0] == c
  }

  /** And found a free slot. */
  ghost predicate Tells(trace: seq<Step>, k: nat, r: int, c: nat) {
    Telling(trace, k, r, c) && HasRoom(Exec(trace[..k]).b, c)
  }

  lemma TellingEarlier(trace: seq<Step>, k: nat, n: nat, r: int, c: nat)
    requires k < n <= |trace|
    ensures Telling(trace[..n], k, r, c) <==> Telling(trace, k, r, c)
    ensures Tells(trace[..n], k, r, c) <==> Tells(trace, k, r, c)
  {
    assert trace[..n][..k] == trace[..k];
  }

  /** How a step changes a subscriber's record. */
  lemma StepEnds(s: System, step: Step, c: nat)
    requires c in s.subs && (forall r :: RunInv(s, r))
    ensures var u, u' := s.subs[c], Next(s, step).subs[c];
            && u'.run == u.run && u'.from == u.from && u'.at == u.at && u'.shown == u.shown
            && (u'.mode == Live ==> u.mode == Live) && (u'.mode == Late <==> u.mode == Late)
            && (u'.end != u.end ==>
                  && u.end.None? && step == Tell(u.run) && HasRoom(s.b, c)
                  && RunOf(s, u.run).fin.Ending? && RunOf(s, u.run).fin.todo != [] && RunOf(s, u.run).fin.todo[0] == c
                  && u'.end == Some(Offered(s, u.run, c)) && Offered(s, u.run, c) >= 0)
  {
    hide RunInv;
    if step.Tell? {
      TellEnds(s, step.r, c);
    } else {
      assert Next(s, step).subs[c].end == s.subs[c].end;
    }
  }

  lemma TellEnds(s: System, r: int, c: nat)
    requires c in s.subs && RunInv(s, r)
    ensures var u, u' := s.subs[c], DoTell(s, r).subs[c];
            && u' == u.(end := u'.end)
            && (u'.end != u.end ==>
                  && u.end.None? && r == u.run && HasRoom(s.b, c)
                  && RunOf(s, r).fin.Ending? && RunOf(s, r).fin.todo != [] && RunOf(s, r).fin.todo[0] == c
                  && u'.end == Some(Offered(s, r, c)) && Offered(s, r, c) >= 0)
  {
    hide BacklogInv, Distinct;
  }

  /** At step `k` the first end marker was put behind the first `end` events of the log. */
  ghost predicate EndsAt(trace: seq<Step>, k: nat, r: int, c: nat, end: Option<nat>) {
    Tells(trace, k, r, c) && end.Some? && end.value == Offered(Exec(trace[..k]), r, c)
  }

  lemma EndsEarlier(trace: seq<Step>, k: nat, n: nat, r: int, c: nat, end: Option<nat>)
    requires k < n <= |trace|
    ensures EndsAt(trace[..n], k, r, c, end) <==> EndsAt(trace, k, r, c, end)
  {
    TellingEarlier(trace, k, n, r, c);
    assert trace[..n][..k] == trace[..k];
  }

  /** A subscriber's first end marker was put at some step, behind all that its queue had been offered by then. */
  lemma {:induction false} EndIsTold(trace: seq<Step>, c: nat)
    requires c in Exec(trace).subs && Exec(trace).subs[c].end.Some?
    ensures var u := Exec(trace).subs[c]; exists k: nat :: k < |trace| && EndsAt(trace, k, u.run, c, u.end)
  {
    hide Offered, RunInv, Next, EndsAt;
    var n := |trace| - 1;
    assert trace != [] by { assert Exec([]) == Init; }
    var s := Exec(trace[..n]);
    var end := Exec(trace).subs[c].end;
    Reachable(trace[..n]);
    if c !in s.subs {
      NewcomerHasNoEnd(s, trace[n], c);
    } else {
      StepEnds(s, trace[n], c);
      var r := s.subs[c].run;
      if s.subs[c].end == end {
        EndIsTold(trace[..n], c);
        var k: nat :| k < n && EndsAt(trace[..n], k, r, c, end);
        EndsEarlier(trace, k, n, r, c, end);
      } else {
        TellsLast(trace, r, c, end);
      }
    }
  }

  lemma TellsLast(trace: seq<Step>, r: int, c: nat, end: Option<nat>)
    requires trace != [] && trace[|trace| - 1] == Tell(r)
    requires var s := Exec(trace[..|trace| - 1]);
             && HasRoom(s.b, c) && RunOf(s, r).fin.Ending? && RunOf(s, r).fin.todo != [] && RunOf(s, r).fin.todo[0] == c
             && end.Some? && end.value == Offered(s, r, c)
    ensures EndsAt(trace, |trace| - 1, r, c, end)
  {
  }

  lemma NewcomerHasNoEnd(s: System, step: Step, c: nat)
    requires c !in s.subs
    ensures c in Next(s, step).subs ==> Next(s, step).subs[c].end.None?
  {
  }

  /** What has been published stays published. */
  lemma {:induction false} LogGrows(trace: seq<Step>, k: nat, r: int)
    requires k <= |trace|
    ensures RunOf(Exec(trace[..k]), r).log <= RunOf(Exec(trace), r).log
    decreases |trace|
  {
    hide Next;
    if k == |trace| {
      assert trace[..k] == trace;
    } else {
      var n := |trace| - 1;
      LogGrows(trace[..n], k, r);
      assert trace[..n][..k] == trace[..k];
      StepLog(Exec(trace[..n]), trace[n], r);
    }
  }

  lemma StepLog(s: System, step: Step, r: int)
    ensures RunOf(s, r).log <= RunOf(Next(s, step), r).log
  {
  }

  /** A subscriber that read the end marker, and whose queue was never full at a put, has everything its id had
      published when it was told, save an event just then on its way to it. A thread that publishes nothing while it
      finishes leaves none on its way. */
  lemma ClosedHasEverything(trace: seq<Step>, c: nat)
    requires c in Exec(trace).subs
    requires var u := Exec(trace).subs[c]; !u.lossy && u.mode == Closed
    ensures var u := Exec(trace).subs[c];
            exists k: nat :: k < |trace| && Tells(trace, k, u.run, c)
                        && var told := Exec(trace[..k]); var log := RunOf(told, u.run).log;
                           && u.from <= u.at <= |log|
                           && u.out + InFlight(told, u.run, c) == Context(log[u.from..u.at]) + log[u.at..]
  {
    hide Exec, Next, Context, RunInv;
    SubscriberHolds(trace, c);
    EndIsTold(trace, c);
    var s := Exec(trace);
    var u := s.subs[c];
    var k: nat :| k < |trace| && EndsAt(trace, k, u.run, c, u.end);
    LogGrows(trace, k, u.run);
    Reachable(trace[..k]);
    OfferedAndInFlight(Exec(trace[..k]), s, u, c);
  }

  lemma OfferedAndInFlight(told: System, s: System, u: Sub, c: nat)
    requires RunInv(told, u.run) && RunOf(told, u.run).log <= RunOf(s, u.run).log
    requires u.from <= u.at && u.end == Some(Offered(told, u.run, c)) && u.at <= u.end.value
    requires u.shown == Context(RunOf(s, u.run).log[u.from..u.at])
    requires u.out == u.shown + RunOf(s, u.run).log[u.at..u.end.value]
    ensures var log := RunOf(told, u.run).log;
            u.at <= |log| && u.out + InFlight(told, u.run, c) == Context(log[u.from..u.at]) + log[u.at..]
  {
    hide Context, RunInv, InFlight, Offered, RunOf;
    RestIsInFlight(told, u.run, c);
    PrefixParts(RunOf(told, u.run).log, RunOf(s, u.run).log, u.from, u.at, u.end.value);
  }

  lemma RestIsInFlight(s: System, r: int, c: nat)
    requires RunInv(s, r)
    ensures var log := RunOf(s, r).log; 0 <= Offered(s, r, c) <= |log| && log[Offered(s, r, c)..] == InFlight(s, r, c)
  {
    hide BacklogInv, ChannelsOf;
  }

  lemma PrefixParts(log: seq<Event>, whole: seq<Event>, first: nat, at: nat, end: nat)
    requires log <= whole && first <= at <= end <= |log|
    ensures whole[first..at] == log[first..at] && whole[at..end] == log[at..end]
    ensures log[at..] == log[at..end] + log[end..]
  {
  }

  lemma ExecAnd(trace: seq<Step>, step: Step)
    ensures Exec(trace + [step]) == Next(Exec(trace), step)
  {
    assert (trace + [step])[..|trace|] == trace;
  }

  // ------------------------------------------------------------------ what is not put, and why

  /** It is `c`'s turn with the publishing thread of `r`, in this phase. */
  predicate InTurn(s: System, r: int, c: nat, phase: Phase) {
    Serving(RunOf(s, r).pub, c) && RunOf(s, r).pub.phase == phase
  }

  /** The thread's next operation puts its event. */
  predicate Puts(s: System, r: int, c: nat) {
    Serving(RunOf(s, r).pub, c) && RunOf(s, r).pub.phase != Dropping && HasRoom(s.b, c)
  }

  /** Or gives it up: nothing was left to drop, or the slot made for it is gone. */
  predicate GivesUp(s: System, r: int, c: nat) {
    || (InTurn(s, r, c, Dropping) && LookupQueue(s.b, c) == [])
    || (InTurn(s, r, c, Retrying) && !HasRoom(s.b, c))
  }

  /** A turn ends with the event in the queue, or with it given up; otherwise it goes on. */
  lemma ServeOutcome(s: System, r: int, c: nat)
    requires RunInv(s, r) && Serving(RunOf(s, r).pub, c)
    ensures var s' := DoServe(s, r);
            var q, q', pub, pub' := LookupQueue(s.b, c), LookupQueue(s'.b, c), RunOf(s, r).pub, RunOf(s', r).pub;
            && (Puts(s, r, c) ==> q' == q + [Some(pub.e)] && c !in ServeList(pub'))
            && (GivesUp(s, r, c) ==> q' == q && c !in ServeList(pub'))
            && (!Puts(s, r, c) && !GivesUp(s, r, c) ==>
                  && Serving(pub', c) && pub'.e == pub.e
                  && pub'.phase == if pub.phase == First then Dropping else Retrying)
  {
    hide BacklogInv;
    ServedOnce(s, r);
  }

  /** How often the thread put an event into this queue. */
  ghost function PutCount(trace: seq<Step>, r: int, c: nat): nat {
    if trace == [] then 0
    else
      var n := |trace| - 1;
      PutCount(trace[..n], r, c) + if trace[n] == Serve(r) && Puts(Exec(trace[..n]), r, c) then 1 else 0
  }

  /** And how often it gave one up. */
  ghost function GivenUpCount(trace: seq<Step>, r: int, c: nat): nat {
    if trace == [] then 0
    else
      var n := |trace| - 1;
      GivenUpCount(trace[..n], r, c) + if trace[n] == Serve(r) && GivesUp(Exec(trace[..n]), r, c) then 1 else 0
  }

  lemma StepOffers(s: System, step: Step, c: nat)
    requires c in s.subs && (forall r :: RunInv(s, r)) && SubInv(s, c)
    requires s.subs[c].mode == Live
    ensures var s', r := Next(s, step), s.subs[c].run;
            var ends := step == Serve(r) && (Puts(s, r, c) || GivesUp(s, r, c));
            |RunOf(s', r).log| - |InFlight(s', r, c)|
            == |RunOf(s, r).log| - |InFlight(s, r, c)| + if ends then 1 else 0
  {
    hide SubInv, RunInv, Puts, GivesUp, Serving;
    var r := s.subs[c].run;
    assert RunInv(s, r);
    PutOrGivenUp(s, c);
    if step == Serve(r) {
      ServeKeepsLog(s, r);
      if Serving(RunOf(s, r).pub, c) {
        ServeOutcome(s, r, c);
        WasOnList(s, r, c);
      } else {
        TurnOfAnother(s, r, c);
      }
    } else if step.Publish? && step.r == r {
      PublishOffers(s, r, step.e, c);
    } else {
      OthersKeepPub(s, step, r);
    }
  }

  lemma WasOnList(s: System, r: int, c: nat)
    requires Serving(RunOf(s, r).pub, c)
    ensures c in ServeList(RunOf(s, r).pub)
    ensures !Puts(s, r, c) && !GivesUp(s, r, c) ==> c in ServeList(RunOf(DoServe(s, r), r).pub)
  {
  }

  lemma ServeKeepsLog(s: System, r: int)
    ensures RunOf(DoServe(s, r), r).log == RunOf(s, r).log
  {
  }

  lemma PublishOffers(s: System, r: int, e: Event, c: nat)
    requires c in s.subs && SubInv(s, c) && s.subs[c].mode == Live && s.subs[c].run == r
    ensures var s' := DoPublish(s, r, e);
            |RunOf(s', r).log| - |InFlight(s', r, c)| == |RunOf(s, r).log| - |InFlight(s, r, c)|
  {
    hide StreamInv, MarkInv, BaseInv;
    assert QueueInv(s, c);
  }

  lemma OthersKeepPub(s: System, step: Step, r: int)
    requires step != Serve(r) && forall e :: step != Publish(r, e)
    ensures RunOf(Next(s, step), r).log == RunOf(s, r).log && RunOf(Next(s, step), r).pub == RunOf(s, r).pub
  {
  }

  lemma TurnOfAnother(s: System, r: int, c: nat)
    requires !Serving(RunOf(s, r).pub, c)
    ensures c in ServeList(RunOf(DoServe(s, r), r).pub) <==> c in ServeList(RunOf(s, r).pub)
    ensures RunOf(DoServe(s, r), r).log == RunOf(s, r).log
  {
    var pub := RunOf(s, r).pub;
    if pub.Putting? && pub.todo != [] { InTail(pub.todo, c); }
  }

  lemma NewcomerOffers(s: System, step: Step, c: nat)
    requires c !in s.subs && (forall q :: RunInv(s, q))
    ensures forall r :: !Serving(RunOf(s, r).pub, c)
    ensures c in Next(s, step).subs ==>
              var u := Next(s, step).subs[c];
              u.at == |RunOf(Next(s, step), u.run).log| && InFlight(Next(s, step), u.run, c) == []
  {
    hide BacklogInv, Distinct;
    forall r
      ensures c !in ServeList(RunOf(s, r).pub)
    {
      assert RunInv(s, r);
    }
  }

  /** Every event published under its id since a live subscriber joined was put into its queue once, or given up once,
      or is the one still on its way. */
  lemma {:induction false} EveryEventIsOfferedOnce(trace: seq<Step>, c: nat)
    ensures c !in Exec(trace).subs ==> forall r :: PutCount(trace, r, c) == GivenUpCount(trace, r, c) == 0
    ensures c in Exec(trace).subs && Exec(trace).subs[c].mode == Live ==>
              var s := Exec(trace); var u := s.subs[c];
              |RunOf(s, u.run).log| - u.at
              == PutCount(trace, u.run, c) + GivenUpCount(trace, u.run, c) + |InFlight(s, u.run, c)|
  {
    hide Next, RunInv, SubInv, Puts, GivesUp, InFlight, Serving;
    if trace == [] {
      ExecNothing();
    } else {
      var n := |trace| - 1;
      var s := Exec(trace[..n]);
      Reachable(trace[..n]);
      EveryEventIsOfferedOnce(trace[..n], c);
      StepSubs(s, trace[n]);
      PutOrGivenUp(s, c);
      if c !in s.subs {
        NewcomerOffers(s, trace[n], c);
      } else {
        StepEnds(s, trace[n], c);
        if s.subs[c].mode == Live { StepOffers(s, trace[n], c); }
      }
    }
  }

  lemma PutOrGivenUp(s: System, c: nat)
    ensures forall r :: !(Puts(s, r, c) && GivesUp(s, r, c))
    ensures forall r :: !Serving(RunOf(s, r).pub, c) ==> !Puts(s, r, c) && !GivesUp(s, r, c)
  {
  }

  /** At step `k` the thread gave an event up in this phase. */
  ghost predicate GivesUpAt(trace: seq<Step>, k: nat, r: int, c: nat, phase: Phase) {
    k < |trace| && trace[k] == Serve(r) && InTurn(Exec(trace[..k]), r, c, phase) && GivesUp(Exec(trace[..k]), r, c)
  }

  lemma GivesUpEarlier(trace: seq<Step>, k: nat, n: nat, r: int, c: nat, phase: Phase)
    requires k < n <= |trace|
    ensures GivesUpAt(trace[..n], k, r, c, phase) <==> GivesUpAt(trace, k, r, c, phase)
  {
    assert trace[..n][..k] == trace[..k];
  }

  ghost predicate GaveUp(trace: seq<Step>, r: int, c: nat, phase: Phase) {
    exists k: nat :: k < |trace| && GivesUpAt(trace, k, r, c, phase)
  }

  lemma GaveUpAnd(trace: seq<Step>, r: int, c: nat, phase: Phase)
    requires trace != []
    ensures var n := |trace| - 1;
            GaveUp(trace, r, c, phase) <==> GaveUp(trace[..n], r, c, phase) || GivesUpAt(trace, n, r, c, phase)
  {
    hide GivesUpAt;
    var n := |trace| - 1;
    forall k: nat | k < n
      ensures GivesUpAt(trace[..n], k, r, c, phase) <==> GivesUpAt(trace, k, r, c, phase)
    {
      GivesUpEarlier(trace, k, n, r, c, phase);
    }
    if GaveUp(trace, r, c, phase) {
      var k: nat :| k < |trace| && GivesUpAt(trace, k, r, c, phase);
      assert k < n ==> GivesUpAt(trace[..n], k, r, c, phase);
    }
    if GaveUp(trace[..n], r, c, phase) {
      var k: nat :| k < n && GivesUpAt(trace[..n], k, r, c, phase);
      assert GivesUpAt(trace, k, r, c, phase);
    }
  }

  lemma StepFlags(s: System, step: Step, c: nat)
    requires c in s.subs && (forall r :: RunInv(s, r))
    ensures var u, u' := s.subs[c], Next(s, step).subs[c];
            var givesUp := step == Serve(u.run) && GivesUp(s, u.run, c);
            && (u'.drained <==> u.drained || (givesUp && InTurn(s, u.run, c, Dropping)))
            && (u'.skipped <==> u.skipped || (givesUp && InTurn(s, u.run, c, Retrying)))
  {
    hide BacklogInv, Distinct;
    if step.Serve? {
      assert RunInv(s, step.r);
    }
  }

  lemma NewcomerFlags(s: System, step: Step, c: nat)
    requires c !in s.subs && c in Next(s, step).subs
    ensures !Next(s, step).subs[c].drained && !Next(s, step).subs[c].skipped
  {
  }

  lemma {:induction false} StrangersGiveUpNothing(trace: seq<Step>, r: int, c: nat, phase: Phase)
    requires c !in Exec(trace).subs
    ensures !GaveUp(trace, r, c, phase)
  {
    hide Next, RunInv, SubInv, GivesUp, InTurn, GaveUp;
    if trace == [] {
      NothingGivenUp(r, c, phase);
    } else {
      var n := |trace| - 1;
      var s := Exec(trace[..n]);
      Reachable(trace[..n]);
      StepSubs(s, trace[n]);
      StrangersGiveUpNothing(trace[..n], r, c, phase);
      GaveUpAnd(trace, r, c, phase);
      NewcomerOffers(s, trace[n], c);
      PutOrGivenUp(s, c);
    }
  }

  lemma NothingGivenUp(r: int, c: nat, phase: Phase)
    ensures !GaveUp([], r, c, phase)
  {
  }

  /** The two flags are the two ways an event is given up, and there is no other. */
  lemma {:induction false} LossesExactly(trace: seq<Step>, c: nat)
    requires c in Exec(trace).subs
    ensures var u := Exec(trace).subs[c];
            && (u.drained <==> GaveUp(trace, u.run, c, Dropping))
            && (u.skipped <==> GaveUp(trace, u.run, c, Retrying))
            && !GaveUp(trace, u.run, c, First)
  {
    hide Next, RunInv, SubInv, GivesUp, InTurn, GaveUp;
    assert trace != [] by { ExecNothing(); }
    var n := |trace| - 1;
    var s, r := Exec(trace[..n]), Exec(trace).subs[c].run;
    Reachable(trace[..n]);
    GaveUpAnd(trace, r, c, First);
    GaveUpAnd(trace, r, c, Dropping);
    GaveUpAnd(trace, r, c, Retrying);
    NeverAtFirst(s, r, c);
    if c !in s.subs {
      NewcomerFlags(s, trace[n], c);
      StrangersGiveUpNothing(trace[..n], r, c, First);
      StrangersGiveUpNothing(trace[..n], r, c, Dropping);
      StrangersGiveUpNothing(trace[..n], r, c, Retrying);
      NewcomerOffers(s, trace[n], c);
      PutOrGivenUp(s, c);
    } else {
      StepEnds(s, trace[n], c);
      LossesExactly(trace[..n], c);
      StepFlags(s, trace[n], c);
    }
  }

  lemma NeverAtFirst(s: System, r: int, c: nat)
    ensures !(InTurn(s, r, c, First) && GivesUp(s, r, c))
  {
  }

  // ------------------------------------------------------------------ why no slot, and why nothing to drop

  /** The slot made for an event is gone. */
  predicate Clashing(s: System, r: int, c: nat) { InTurn(s, r, c, Retrying) && !HasRoom(s.b, c) }

  /** At step `k` an end marker took the last slot, which the publishing thread had just made for an event. */
  ghost predicate ClashAt(trace: seq<Step>, k: nat, r: int, c: nat) {
    && Tells(trace, k, r, c) && InTurn(Exec(trace[..k]), r, c, Retrying)
    && |LookupQueue(Exec(trace[..k]).b, c)| == QUEUE_SIZE - 1
  }

  /** At step `k` the subscriber takes an item out of its queue. */
  ghost predicate TakesAt(trace: seq<Step>, k: nat, c: nat) {
    k < |trace| && trace[k] == Get(c) && Takes(Exec(trace[..k]), c)
  }

  predicate Takes(s: System, c: nat) {
    c in s.subs && s.subs[c].mode == Live && s.subs[c].replay == [] && LookupQueue(s.b, c) != []
  }

  /** Since step `j` the thread has not moved and the subscriber has taken nothing. */
  ghost predicate UntouchedSince(trace: seq<Step>, j: nat, r: int, c: nat) {
    forall i: nat :: j < i < |trace| ==> trace[i] != Serve(r) && !TakesAt(trace, i, c)
  }

  ghost predicate ClashedAt(trace: seq<Step>, j: nat, r: int, c: nat) {
    ClashAt(trace, j, r, c) && UntouchedSince(trace, j, r, c)
  }

  lemma TakesEarlier(trace: seq<Step>, k: nat, n: nat, c: nat)
    requires k < n <= |trace|
    ensures TakesAt(trace[..n], k, c) <==> TakesAt(trace, k, c)
  {
    assert trace[..n][..k] == trace[..k];
  }

  lemma ClashedAnd(trace: seq<Step>, j: nat, r: int, c: nat)
    requires trace != [] && j < |trace| - 1
    ensures var n := |trace| - 1;
            ClashedAt(trace, j, r, c)
            <==> ClashedAt(trace[..n], j, r, c) && trace[n] != Serve(r) && !TakesAt(trace, n, c)
  {
    hide Tells, TakesAt, InTurn, Exec;
    var n := |trace| - 1;
    TellingEarlier(trace, j, n, r, c);
    assert trace[..n][..j] == trace[..j];
    forall i: nat | j < i < n
      ensures trace[..n][i] == trace[i] && (TakesAt(trace[..n], i, c) <==> TakesAt(trace, i, c))
    {
      TakesEarlier(trace, i, n, c);
    }
  }

  /** How a step comes to, or stays at, a slot that is gone. */
  lemma StepClashes(s: System, step: Step, r: int, c: nat)
    requires c in s.subs && s.subs[c].mode == Live && s.subs[c].run == r && SubInv(s, c) && forall q :: RunInv(s, q)
    ensures Clashing(Next(s, step), r, c)
            <==> || (Clashing(s, r, c) && step != Serve(r) && !(step == Get(c) && Takes(s, c)))
                 || (InTurn(s, r, c, Retrying) && step == Tell(r) && NextToTell(s, r, c)
                     && |LookupQueue(s.b, c)| == QUEUE_SIZE - 1)
  {
    hide SubInv, RunInv, BacklogInv;
    assert RunInv(s, RunTouched(s, step));
    StepTurn(s, step, r, c);
    StepQueueExactly(s, step, r, c);
    SubHasBound(s, c);
  }

  lemma SubHasBound(s: System, c: nat)
    requires c in s.subs && s.subs[c].mode == Live && SubInv(s, c)
    ensures |LookupQueue(s.b, c)| <= QUEUE_SIZE
  {
    hide StreamInv, MarkInv, BaseInv;
  }

  /** Only the thread's own operations move its turn; one that comes to `Retrying` has just dropped an item. */
  lemma StepTurn(s: System, step: Step, r: int, c: nat)
    requires RunInv(s, r) && RunInv(s, RunTouched(s, step))
    ensures step != Serve(r) ==> (InTurn(Next(s, step), r, c, Retrying) <==> InTurn(s, r, c, Retrying))
    ensures step != Serve(r) ==> (InTurn(Next(s, step), r, c, Dropping) <==> InTurn(s, r, c, Dropping))
    ensures step == Serve(r) ==>
              (InTurn(Next(s, step), r, c, Retrying) <==> InTurn(s, r, c, Dropping) && LookupQueue(s.b, c) != [])
    ensures step == Serve(r) ==>
              (InTurn(Next(s, step), r, c, Dropping) <==> InTurn(s, r, c, First) && !HasRoom(s.b, c))
  {
    hide RunInv, Next, HasRoom;
    if step == Serve(r) {
      ServeTurn(s, r, c);
      assert Next(s, step) == DoServe(s, r) by { ServeStep(s, r); }
    } else {
      OtherStepTurn(s, step, r);
    }
  }

  lemma ServeStep(s: System, r: int)
    ensures Next(s, Serve(r)) == DoServe(s, r)
  {
  }

  /** Any other step leaves the thread where it was, or starts it on an event. */
  lemma OtherStepTurn(s: System, step: Step, r: int)
    requires step != Serve(r)
    ensures var pub, pub' := RunOf(s, r).pub, RunOf(Next(s, step), r).pub;
            pub' == pub || (pub == Idle && (pub'.Putting? ==> pub'.phase == First))
  {
  }

  lemma ServeTurn(s: System, r: int, c: nat)
    ensures InTurn(DoServe(s, r), r, c, Retrying) <==> InTurn(s, r, c, Dropping) && LookupQueue(s.b, c) != []
    ensures InTurn(DoServe(s, r), r, c, Dropping) <==> InTurn(s, r, c, First) && !HasRoom(s.b, c)
  {
  }

  /** The length of a known subscriber's queue after a step. */
  lemma StepQueueExactly(s: System, step: Step, r: int, c: nat)
    requires c in s.subs && s.subs[c].run == r && RunInv(s, RunTouched(s, step))
    ensures var n, n' := |LookupQueue(s.b, c)|, |LookupQueue(Next(s, step).b, c)|;
            && (step == Serve(r) ==>
                  n' == n + (if Puts(s, r, c) then 1 else if InTurn(s, r, c, Dropping) && n > 0 then -1 else 0))
            && (step != Serve(r) ==>
                  n' == n + (if step == Tell(r) && NextToTell(s, r, c) && HasRoom(s.b, c) then 1 else 0)
                        - (if step == Get(c) && Takes(s, c) then 1 else 0))
  {
    hide RunInv, Next, RunTouched;
    StepQueue(s, step, r, c);
  }

  /** The slot made for an event is gone exactly when an end marker took it, with 499 items in the queue, and the
      subscriber has taken nothing since. */
  lemma {:induction false} SlotGoneExactly(trace: seq<Step>, r: int, c: nat)
    requires var s := Exec(trace); c in s.subs && s.subs[c].mode == Live && s.subs[c].run == r
    ensures Clashing(Exec(trace), r, c) <==> exists j: nat :: j < |trace| && ClashedAt(trace, j, r, c)
  {
    hide RunInv, SubInv, Next, ClashedAt, Clashing, InTurn, Takes, NextToTell;
    assert trace != [] by { ExecNothing(); }
    var n := |trace| - 1;
    var s := Exec(trace[..n]);
    Reachable(trace[..n]);
    ClashedLast(trace, r, c);
    if c !in s.subs {
      NewcomerNeverClashes(s, trace[n], r, c);
      forall j: nat | j < n
        ensures !ClashedAt(trace, j, r, c)
      {
        ClashedAnd(trace, j, r, c);
        StrangersNeverClash(trace[..n], j, r, c);
      }
    } else {
      StepEnds(s, trace[n], c);
      StepClashes(s, trace[n], r, c);
      SlotGoneExactly(trace[..n], r, c);
      ClashedBefore(trace, r, c);
    }
  }

  lemma ClashedBefore(trace: seq<Step>, r: int, c: nat)
    requires trace != []
    ensures var n := |trace| - 1;
            (exists j: nat :: j < n && ClashedAt(trace, j, r, c))
            <==> && trace[n] != Serve(r) && !TakesAt(trace, n, c)
                 && exists j: nat :: j < n && ClashedAt(trace[..n], j, r, c)
  {
    hide ClashedAt, TakesAt;
    var n := |trace| - 1;
    forall j: nat | j < n
      ensures ClashedAt(trace, j, r, c)
              <==> ClashedAt(trace[..n], j, r, c) && trace[n] != Serve(r) && !TakesAt(trace, n, c)
    {
      ClashedAnd(trace, j, r, c);
    }
    if j: nat :| j < n && ClashedAt(trace, j, r, c) {
      assert ClashedAt(trace[..n], j, r, c);
    }
    if exists j: nat :: j < n && ClashedAt(trace[..n], j, r, c) {
      var j: nat :| j < n && ClashedAt(trace[..n], j, r, c);
      assert trace[n] != Serve(r) && !TakesAt(trace, n, c) ==> ClashedAt(trace, j, r, c);
    }
  }

  lemma ClashedLast(trace: seq<Step>, r: int, c: nat)
    requires trace != []
    ensures var n := |trace| - 1; var s := Exec(trace[..n]);
            && (ClashedAt(trace, n, r, c)
                <==> trace[n] == Tell(r) && NextToTell(s, r, c) && InTurn(s, r, c, Retrying)
                     && |LookupQueue(s.b, c)| == QUEUE_SIZE - 1)
            && (TakesAt(trace, n, c) <==> trace[n] == Get(c) && Takes(s, c))
  {
  }

  lemma StrangersNeverClash(trace: seq<Step>, j: nat, r: int, c: nat)
    requires c !in Exec(trace).subs && j < |trace|
    ensures !ClashedAt(trace, j, r, c)
  {
    hide Exec, RunInv, SubInv;
    Reachable(trace[..j]);
    KnownStays(trace, j, c);
    NewcomerOffers(Exec(trace[..j]), trace[j], c);
  }

  lemma KnownStays(trace: seq<Step>, j: nat, c: nat)
    requires j <= |trace|
    ensures c in Exec(trace[..j]).subs ==> c in Exec(trace).subs
  {
    hide Exec;
    assert trace[..j] + trace[j..] == trace;
    if c in Exec(trace[..j]).subs { JoinedStays(trace[..j], c, trace[j..]); }
  }

  lemma NewcomerNeverClashes(s: System, step: Step, r: int, c: nat)
    requires c !in s.subs && c in Next(s, step).subs && Next(s, step).subs[c].run == r && (forall q :: RunInv(s, q))
    ensures !Clashing(Next(s, step), r, c) && !InTurn(s, r, c, Retrying)
  {
    hide BacklogInv, Distinct;
    assert RunInv(s, r);
  }

  /** At step `j` the thread found the queue full and turned to dropping its oldest item. */
  ghost predicate FailsAt(trace: seq<Step>, j: nat, r: int, c: nat) {
    && j < |trace| && trace[j] == Serve(r) && InTurn(Exec(trace[..j]), r, c, First)
    && |LookupQueue(Exec(trace[..j]).b, c)| == QUEUE_SIZE
  }

  /** How many items the subscriber has taken since step `j`. */
  ghost function TakenSince(trace: seq<Step>, j: nat, c: nat): nat {
    if |trace| <= j + 1 then 0
    else TakenSince(trace[..|trace| - 1], j, c) + if TakesAt(trace, |trace| - 1, c) then 1 else 0
  }

  /** How many end markers were put since. */
  ghost function ToldSince(trace: seq<Step>, j: nat, r: int, c: nat): nat {
    if |trace| <= j + 1 then 0
    else ToldSince(trace[..|trace| - 1], j, r, c) + if Tells(trace, |trace| - 1, r, c) then 1 else 0
  }

  /** A thread about to drop an item found the queue full earlier and has not moved since. The queue is that full one,
      less what the subscriber has taken, and any end markers put since. So there is nothing to drop exactly when the
      subscriber has taken all 500 items, and any markers: no `finish` is needed for that. */
  lemma {:induction false} NothingToDropExactly(trace: seq<Step>, r: int, c: nat) returns (j: nat)
    requires var s := Exec(trace);
             c in s.subs && s.subs[c].mode == Live && s.subs[c].run == r && InTurn(s, r, c, Dropping)
    ensures FailsAt(trace, j, r, c) && forall i: nat :: j < i < |trace| ==> trace[i] != Serve(r)
    ensures |LookupQueue(Exec(trace).b, c)| == QUEUE_SIZE - TakenSince(trace, j, c) + ToldSince(trace, j, r, c)
    ensures LookupQueue(Exec(trace).b, c) == [] <==> TakenSince(trace, j, c) == QUEUE_SIZE + ToldSince(trace, j, r, c)
  {
    hide RunInv, SubInv, Next, InTurn, Takes, NextToTell, HasRoom;
    assert trace != [] by { ExecNothing(); }
    var n := |trace| - 1;
    var s := Exec(trace[..n]);
    Reachable(trace[..n]);
    assert RunInv(s, RunTouched(s, trace[n])) && RunInv(s, r);
    if c !in s.subs {
      NewcomerTurns(s, trace[n], r, c);
    } else {
      StepEnds(s, trace[n], c);
      SubHasBound(s, c);
      StepTurn(s, trace[n], r, c);
      StepQueueExactly(s, trace[n], r, c);
      FailsLast(trace, r, c);
      if trace[n] == Serve(r) {
        j := n;
      } else {
        j := NothingToDropExactly(trace[..n], r, c);
        FailsEarlier(trace, j, n, r, c);
      }
    }
  }

  lemma FailsLast(trace: seq<Step>, r: int, c: nat)
    requires trace != []
    ensures var n := |trace| - 1; var s := Exec(trace[..n]);
            var full := !HasRoom(s.b, c) && |LookupQueue(s.b, c)| <= QUEUE_SIZE;
            && (trace[n] == Serve(r) && InTurn(s, r, c, First) && full ==>
                  FailsAt(trace, n, r, c) && |LookupQueue(Next(s, Serve(r)).b, c)| == QUEUE_SIZE)
            && (TakesAt(trace, n, c) <==> trace[n] == Get(c) && Takes(s, c))
            && (Tells(trace, n, r, c) <==> trace[n] == Tell(r) && NextToTell(s, r, c) && HasRoom(s.b, c))
            && TakenSince(trace, n, c) == 0 && ToldSince(trace, n, r, c) == 0
  {
  }

  lemma FailsEarlier(trace: seq<Step>, j: nat, n: nat, r: int, c: nat)
    requires j < n <= |trace|
    ensures FailsAt(trace[..n], j, r, c) <==> FailsAt(trace, j, r, c)
    ensures forall i: nat :: j < i < n ==> trace[..n][i] == trace[i]
  {
    assert trace[..n][..j] == trace[..j];
  }

  lemma NewcomerTurns(s: System, step: Step, r: int, c: nat)
    requires c !in s.subs && RunInv(s, r) && RunInv(s, RunTouched(s, step))
    requires c in Next(s, step).subs && Next(s, step).subs[c].run == r
    ensures !InTurn(Next(s, step), r, c, Dropping)
  {
    hide BacklogInv, Distinct;
  }

  // ------------------------------------------------------------------ joining

  /** Taking further steps. */
  lemma {:induction false} JoinedStays(trace: seq<Step>, c: nat, more: seq<Step>)
    requires c in Exec(trace).subs
    ensures c in Exec(trace + more).subs
    ensures var u, u' := Exec(trace).subs[c], Exec(trace + more).subs[c];
            && u'.run == u.run && u'.from == u.from && u'.at == u.at && u'.shown == u.shown
            && (u'.mode == Live ==> u.mode == Live) && (u'.mode == Late <==> u.mode == Late)
    decreases |more|
  {
    hide Next, Exec, RunInv, SubInv;
    if more == [] {
      assert trace + more == trace;
    } else {
      var init, step := more[..|more| - 1], more[|more| - 1];
      JoinedStays(trace, c, init);
      assert trace + more == (trace + init) + [step];
      ExecAnd(trace + init, step);
      Reachable(trace + init);
      StepSubs(Exec(trace + init), step);
      StepEnds(Exec(trace + init), step, c);
    }
  }

  /** Everything a subscriber has got or is about to get. */
  function Delivered(s: System, c: nat): seq<Event>
    requires c in s.subs
  {
    s.subs[c].out + s.subs[c].replay + if s.subs[c].mode == Live then Pending(s, c) else []
  }

  /** What was published under an id since its backlog was last released. */
  function Recent(s: System, r: int): seq<Event> {
    if RunOf(s, r).start <= |RunOf(s, r).log| then RunOf(s, r).log[RunOf(s, r).start..] else []
  }

  /** Whoever subscribes is registered exactly when the id is not remembered as finished. And without losses it gets
      the exact handover, whatever happens next, exactly in that case; when the id is remembered, a run that publishes
      under it again is not seen, so only a run that says nothing more, and had no report to show, comes out right. */
  lemma JoinIsExactly(trace: seq<Step>, c: nat, r: int, more: seq<Step>)
    requires c !in Exec(trace).subs
    ensures var joined := Exec(trace + [Subscribe(c, r)]);
            && (c in Lookup(joined.b.subscribers, r) <==> r !in Exec(trace).b.finished)
            && c in joined.subs && (joined.subs[c].mode == if r in Exec(trace).b.finished then Late else Live)
    ensures var s0, s := Exec(trace), Exec(trace + [Subscribe(c, r)] + more);
            var before, log := RunOf(s0, r).log, RunOf(s, r).log;
            var kept := Recent(s0, r);
            && c in s.subs && before <= log
            && (!s.subs[c].lossy && s.subs[c].mode in {Live, Late} ==>
                  (Delivered(s, c) == Context(kept) + log[|before|..]
                   <==> r !in s0.b.finished || (log == before && LastStats(kept) == [])))
  {
    hide Exec, Next, NonStats, LastStats, RunInv, SubInv, LastN, Pending;
    var s0, t := Exec(trace), trace + [Subscribe(c, r)];
    Reachable(trace);
    ExecAnd(trace, Subscribe(c, r));
    Joining(s0, c, r);
    JoinedStays(t, c, more);
    LogGrows(t + more, |trace|, r);
    assert (t + more)[..|trace|] == trace;
    var s := Exec(t + more);
    var u, before, log := s.subs[c], RunOf(s0, r).log, RunOf(s, r).log;
    StartWithin(s0, r);
    if u.mode == Live && !u.lossy {
      HandoverIsExact(t + more, c);
      assert log[u.from..u.at] == before[u.from..u.at] == before[u.from..];
    } else if u.mode == Late {
      SubscriberHolds(t + more, c);
      LateHolds(s, c);
      assert log[u.from..u.at] == before[u.from..u.at] == before[u.from..];
      var kept := before[u.from..];
      var lines := LastN(NonStats(kept), BACKLOG_LIMIT);
      assert Delivered(s, c) == lines;
      assert Context(kept) + log[|before|..] == lines + (LastStats(kept) + log[|before|..]);
      if Delivered(s, c) == Context(kept) + log[|before|..] {
        assert |LastStats(kept) + log[|before|..]| == 0;
        assert log == before + log[|before|..];
      } else {
        assert lines + [] == lines;
      }
    }
  }

  lemma StartWithin(s: System, r: int)
    requires RunInv(s, r)
    ensures RunOf(s, r).start <= |RunOf(s, r).log|
  {
  }

  lemma LateHolds(s: System, c: nat)
    requires c in s.subs && SubInv(s, c) && s.subs[c].mode == Late
    ensures var u := s.subs[c]; var log := RunOf(s, u.run).log;
            u.from <= u.at <= |log| && u.out + u.replay == LastN(NonStats(log[u.from..u.at]), BACKLOG_LIMIT)
  {
  }

  lemma Joining(s: System, c: nat, r: int)
    requires c !in s.subs && forall q :: RunInv(s, q)
    ensures var s' := Next(s, Subscribe(c, r));
            && c in s'.subs && s'.subs[c].run == r && s'.subs[c].from == RunOf(s, r).start
            && s'.subs[c].at == |RunOf(s, r).log|
            && s'.subs[c].mode == (if r in s.b.finished then Late else Live)
            && (c in Lookup(s'.b.subscribers, r) <==> r !in s.b.finished)
  {
    hide BacklogInv, Distinct;
    assert RunInv(s, r);
  }

  /** What a late subscriber is shown stays all it ever gets; there is something exactly when lines were published
      since the backlog was last released. */
  lemma LateSeesOldLines(trace: seq<Step>, c: nat, r: int, more: seq<Step>)
    requires c !in Exec(trace).subs && r in Exec(trace).b.finished
    ensures var s0, s := Exec(trace), Exec(trace + [Subscribe(c, r)] + more);
            var lines := NonStats(Recent(s0, r));
            && c in s.subs && s.subs[c].mode == Late && s.subs[c].out + s.subs[c].replay == LastN(lines, BACKLOG_LIMIT)
            && (s.subs[c].out + s.subs[c].replay == [] <==> lines == [])
            && forall q :: c !in Lookup(s.b.subscribers, q)
  {
    hide Exec, Next, NonStats, LastStats, RunInv, SubInv;
    var s0, t := Exec(trace), trace + [Subscribe(c, r)];
    Reachable(trace);
    ExecAnd(trace, Subscribe(c, r));
    Joining(s0, c, r);
    JoinedStays(t, c, more);
    LogGrows(t + more, |trace|, r);
    assert (t + more)[..|trace|] == trace;
    StartWithin(s0, r);
    var s := Exec(t + more);
    SubscriberHolds(t + more, c);
    LateHolds(s, c);
    var u, before := s.subs[c], RunOf(s0, r).log;
    assert RunOf(s, r).log[u.from..u.at] == before[u.from..u.at] == before[u.from..];
    Reachable(t + more);
    forall q
      ensures c !in Lookup(s.b.subscribers, q)
    {
      assert RunInv(s, q);
      LateIsNowhere(s, c, q);
    }
  }

  lemma LateIsNowhere(s: System, c: nat, r: int)
    requires c in s.subs && s.subs[c].mode == Late && RunInv(s, r)
    ensures c !in Lookup(s.b.subscribers, r)
  {
  }

  /** How many runs end in these steps, at most. */
  function Ends(steps: seq<Step>): nat {
    if steps == [] then 0 else Ends(steps[..|steps| - 1]) + if steps[|steps| - 1].EndFinish? then 1 else 0
  }

  /** Only the end of a `finish` changes what is remembered. */
  lemma StepFinished(s: System, step: Step)
    ensures var finished := s.b.finished;
            Next(s, step).b.finished
            == if step.EndFinish? && RunOf(s, step.r).fin == Ending([]) then Remember(finished, step.r) else finished
  {
    hide DoServe, DoTell, DoGet, DoCleanUp;
    match step
    case Serve(r) => ServeRemembersNothing(s, r);
    case Tell(r) => TellRemembersNothing(s, r);
    case Get(c) => ReaderRemembersNothing(s, c);
    case CleanUp(c) => ReaderRemembersNothing(s, c);
    case _ =>
  }

  lemma ServeRemembersNothing(s: System, r: int)
    ensures DoServe(s, r).b.finished == s.b.finished
  {
  }

  lemma TellRemembersNothing(s: System, r: int)
    ensures DoTell(s, r).b.finished == s.b.finished
  {
  }

  lemma ReaderRemembersNothing(s: System, c: nat)
    ensures DoGet(s, c).b.finished == DoCleanUp(s, c).b.finished == s.b.finished
  {
  }

  lemma StepRemembers(s: System, step: Step, r: int, i: nat) returns (j: nat)
    requires i < |s.b.finished| <= FINISHED_MEMORY && s.b.finished[i] == r
    requires |s.b.finished| - i + (if step.EndFinish? then 1 else 0) <= FINISHED_MEMORY
    ensures var after := Next(s, step).b.finished;
            && j < |after| <= FINISHED_MEMORY && after[j] == r
            && |after| - j <= |s.b.finished| - i + if step.EndFinish? then 1 else 0
  {
    hide Next;
    StepFinished(s, step);
    j := i;
    if step.EndFinish? && step.r !in s.b.finished && |s.b.finished| == FINISHED_MEMORY
       && RunOf(s, step.r).fin == Ending([]) {
      j := i - 1;
    }
  }

  lemma {:induction false} StaysRemembered(trace: seq<Step>, more: seq<Step>, r: int, i: nat) returns (j: nat)
    requires i < |Exec(trace).b.finished| <= FINISHED_MEMORY && Exec(trace).b.finished[i] == r
    requires |Exec(trace).b.finished| - i + Ends(more) <= FINISHED_MEMORY
    ensures var after := Exec(trace + more).b.finished;
            j < |after| <= FINISHED_MEMORY && after[j] == r && |after| - j <= |Exec(trace).b.finished| - i + Ends(more)
    decreases |more|
  {
    hide Next, Exec;
    if more == [] {
      assert trace + more == trace;
      j := i;
    } else {
      var init, step := more[..|more| - 1], more[|more| - 1];
      var k := StaysRemembered(trace, init, r, i);
      assert trace + more == (trace + init) + [step];
      ExecAnd(trace + init, step);
      j := StepRemembers(Exec(trace + init), step, r, k);
    }
  }

  lemma {:induction false} MemoryIsBounded(trace: seq<Step>)
    ensures |Exec(trace).b.finished| <= FINISHED_MEMORY
  {
    if trace != [] {
      MemoryIsBounded(trace[..|trace| - 1]);
      StepBounded(Exec(trace[..|trace| - 1]), trace[|trace| - 1]);
    }
  }

  lemma StepBounded(s: System, step: Step)
    requires |s.b.finished| <= FINISHED_MEMORY
    ensures |Next(s, step).b.finished| <= FINISHED_MEMORY
  {
    hide Next;
    StepFinished(s, step);
  }

  /** An id newly remembered as finished is forgotten only after 500 more ends: nothing else lets a run that reuses
      it be joined again. */
  lemma ForgottenOnlyByOthers(trace: seq<Step>, r: int, more: seq<Step>)
    requires r !in Exec(trace).b.finished && RunOf(Exec(trace), r).fin == Ending([])
    ensures r in Exec(trace + [EndFinish(r)]).b.finished
    ensures r !in Exec(trace + [EndFinish(r)] + more).b.finished ==> Ends(more) >= FINISHED_MEMORY
  {
    hide Exec;
    MemoryIsBounded(trace);
    ExecAnd(trace, EndFinish(r));
    var t := trace + [EndFinish(r)];
    var finished := Exec(t).b.finished;
    assert finished[|finished| - 1] == r;
    MemoryIsBounded(t);
    if Ends(more) < FINISHED_MEMORY {
      var j := StaysRemembered(t, more, r, |finished| - 1);
    }
  }

  // ------------------------------------------------------------------ who is told about an end

  /** `c` was the one to tell at some step after the n-th. */
  ghost predicate ToldAfter(trace: seq<Step>, n: nat, r: int, c: nat) {
    exists k: nat :: n < k < |trace| && Telling(trace, k, r, c)
  }

  lemma ToldAnd(trace: seq<Step>, step: Step, n: nat, r: int, c: nat)
    requires n < |trace|
    ensures ToldAfter(trace + [step], n, r, c) <==> ToldAfter(trace, n, r, c) || Telling(trace + [step], |trace|, r, c)
  {
    hide Telling, Tells;
    var t := trace + [step];
    assert t[..|trace|] == trace;
    forall k: nat | k < |trace|
      ensures (Telling(t, k, r, c) <==> Telling(trace, k, r, c)) && (Tells(t, k, r, c) <==> Tells(trace, k, r, c))
    {
      TellingEarlier(t, k, |trace|, r, c);
    }
  }

  lemma TellingLast(trace: seq<Step>, step: Step, r: int, c: nat)
    ensures var fin := RunOf(Exec(trace), r).fin; var t := trace + [step];
            && (Telling(t, |trace|, r, c) <==> step == Tell(r) && fin.Ending? && fin.todo != [] && fin.todo[0] == c)
            && (Tells(t, |trace|, r, c) <==> Telling(t, |trace|, r, c) && HasRoom(Exec(trace).b, c))
  {
    var t := trace + [step];
    assert t[..|trace|] == trace;
  }

  /** From the first locked section of `finish` on, whoever was registered then is still to be told or has been; and
      nobody else. */
  lemma {:induction false} FinishTellsTheRegistered(t0: seq<Step>, t1: seq<Step>, r: int, c: nat)
    requires RunOf(Exec(t0), r).fin == NotEnding && StartFinish(r) !in t1
    ensures var t := t0 + [StartFinish(r)] + t1;
            c in Lookup(Exec(t0).b.subscribers, r)
            <==> c in TellList(RunOf(Exec(t), r).fin) || ToldAfter(t, |t0|, r, c)
    decreases |t1|
  {
    hide Exec, Next, Telling;
    var begun := t0 + [StartFinish(r)];
    if t1 == [] {
      assert begun + t1 == begun;
      ExecAnd(t0, StartFinish(r));
      assert DoStartFinish(Exec(t0), r) == Next(Exec(t0), StartFinish(r)) by { NextStartFinish(Exec(t0), r); }
    } else {
      var init, step := t1[..|t1| - 1], t1[|t1| - 1];
      var t := begun + init;
      FinishTellsTheRegistered(t0, init, r, c);
      assert begun + t1 == t + [step];
      ExecAnd(t, step);
      ToldAnd(t, step, |t0|, r, c);
      TellingLast(t, step, r, c);
      StepTells(Exec(t), step, r, c);
    }
  }

  lemma NextStartFinish(s: System, r: int)
    ensures Next(s, StartFinish(r)) == DoStartFinish(s, r)
  {
  }

  /** A step takes only the one it tells off the list. */
  lemma StepTells(s: System, step: Step, r: int, c: nat)
    requires step != StartFinish(r)
    ensures var fin := RunOf(s, r).fin;
            var told := step == Tell(r) && fin.Ending? && fin.todo != [] && fin.todo[0] == c;
            c in TellList(fin) <==> c in TellList(RunOf(Next(s, step), r).fin) || told
  {
    var fin := RunOf(s, r).fin;
    if step == Tell(r) && fin.Ending? && fin.todo != [] {
      assert fin.todo == [fin.todo[0]] + fin.todo[1..];
    }
  }

  lemma MarkedAppend(q: seq<Item>, x: Item)
    ensures Marked(q + [x]) <==> Marked(q) || x.None?
    ensures q != [] && q[0].Some? ==> (Marked(q[1..]) <==> Marked(q))
  {
    MarkAppend(q, x);
  }

  /** A known subscriber's queue after a step: a marker or an event put, the oldest item dropped or taken, or as it
      was. */
  lemma StepQueue(s: System, step: Step, r: int, c: nat)
    requires c in s.subs && s.subs[c].run == r && RunInv(s, RunTouched(s, step))
    ensures var q, s' := LookupQueue(s.b, c), Next(s, step);
            && LookupQueue(s'.b, c)
               == (if step == Tell(r) && NextToTell(s, r, c) && HasRoom(s.b, c) then q + [None]
                   else if step == Serve(r) && Puts(s, r, c) then q + [Some(RunOf(s, r).pub.e)]
                   else if step == Serve(r) && InTurn(s, r, c, Dropping) && q != [] then q[1..]
                   else if step == Get(c) && Takes(s, c) then q[1..]
                   else q)
            && (step == Get(c) && Takes(s, c) && q[0].None? ==> s'.subs[c].mode == Closed)
  {
    hide RunInv;
    if step.Serve? {
      ServeQueue(s, step.r, r, c);
    } else if step.Tell? {
      TellQueue(s, step.r, r, c);
    }
  }

  lemma ServeQueue(s: System, p: int, r: int, c: nat)
    requires c in s.subs && s.subs[c].run == r && RunInv(s, p)
    ensures var q := LookupQueue(s.b, c);
            LookupQueue(DoServe(s, p).b, c)
            == if p == r && Puts(s, r, c) then q + [Some(RunOf(s, r).pub.e)]
               else if p == r && InTurn(s, r, c, Dropping) && q != [] then q[1..]
               else q
  {
    hide RunInv;
    if RunOf(s, p).pub.Putting? && RunOf(s, p).pub.todo != [] && RunOf(s, p).pub.todo[0] == c {
      ServedRun(s, p, c);
    }
  }

  lemma ServedRun(s: System, p: int, c: nat)
    requires RunInv(s, p) && c in s.subs && RunOf(s, p).pub.Putting? && c in RunOf(s, p).pub.todo
    ensures s.subs[c].run == p
  {
    hide BacklogInv, Distinct;
  }

  lemma TellQueue(s: System, p: int, r: int, c: nat)
    requires c in s.subs && s.subs[c].run == r && RunInv(s, p)
    ensures LookupQueue(DoTell(s, p).b, c)
            == LookupQueue(s.b, c) + if p == r && NextToTell(s, r, c) && HasRoom(s.b, c) then [None] else []
  {
    hide BacklogInv, Distinct;
  }

  /** The thread's next operation drops the last end marker in the queue. */
  predicate DropsMark(s: System, r: int, c: nat) {
    var q := LookupQueue(s.b, c);
    InTurn(s, r, c, Dropping) && q != [] && q[0].None? && !Marked(q[1..])
  }

  /** A live subscriber's queue gets a marker only by being told, and loses the last one only by its being dropped. */
  lemma StepMarks(s: System, step: Step, r: int, c: nat)
    requires c in s.subs && s.subs[c].run == r && (forall q :: RunInv(s, q))
    requires c in Next(s, step).subs && Next(s, step).subs[c].mode == Live
    ensures Marked(LookupQueue(Next(s, step).b, c))
            <==> || (step == Tell(r) && NextToTell(s, r, c) && HasRoom(s.b, c))
                 || (Marked(LookupQueue(s.b, c)) && !(step == Serve(r) && DropsMark(s, r, c)))
  {
    hide MarkAt, RunInv, Next, RunTouched;
    var q := LookupQueue(s.b, c);
    assert RunInv(s, RunTouched(s, step));
    StepQueue(s, step, r, c);
    MarkedAppend(q, None);
    if RunOf(s, r).pub.Putting? { MarkedAppend(q, Some(RunOf(s, r).pub.e)); }
    MarkedHead(q);
    if q != [] { MarkedTail(q); }
  }

  lemma MarkedHead(q: seq<Item>)
    ensures q != [] && q[0].None? ==> Marked(q)
  {
  }

  lemma NewcomerUnmarked(s: System, step: Step, r: int, c: nat)
    requires c !in s.subs && (forall q :: RunInv(s, q))
    ensures c in Next(s, step).subs && Next(s, step).subs[c].mode == Live ==> !Marked(LookupQueue(Next(s, step).b, c))
    ensures !NextToTell(s, r, c)
  {
    hide BacklogInv, Distinct;
    assert RunInv(s, r);
  }

  /** At step `k` the publishing thread dropped the last end marker from the queue. */
  ghost predicate DropsMarkAt(trace: seq<Step>, k: nat, r: int, c: nat) {
    k < |trace| && trace[k] == Serve(r) && DropsMark(Exec(trace[..k]), r, c)
  }

  /** A marker was put at step `k`, and the queue has not been without one since. */
  ghost predicate StandsSince(trace: seq<Step>, k: nat, r: int, c: nat) {
    Tells(trace, k, r, c) && forall i: nat :: k < i < |trace| ==> !DropsMarkAt(trace, i, r, c)
  }

  ghost predicate Stands(trace: seq<Step>, n: nat, r: int, c: nat) {
    exists k: nat :: n <= k < |trace| && StandsSince(trace, k, r, c)
  }

  lemma StandsStill(trace: seq<Step>, step: Step, k: nat, r: int, c: nat)
    requires k < |trace|
    ensures StandsSince(trace + [step], k, r, c)
            <==> StandsSince(trace, k, r, c) && !DropsMarkAt(trace + [step], |trace|, r, c)
  {
    hide Tells, DropsMark, Exec;
    var t := trace + [step];
    assert t[..|trace|] == trace;
    TellingEarlier(t, k, |trace|, r, c);
    forall i: nat | i < |trace|
      ensures DropsMarkAt(t, i, r, c) <==> DropsMarkAt(trace, i, r, c)
    {
      assert t[..i] == trace[..i];
    }
  }

  lemma StandsAnd(trace: seq<Step>, step: Step, n: nat, r: int, c: nat)
    requires n <= |trace|
    ensures var t := trace + [step];
            Stands(t, n, r, c)
            <==> (Stands(trace, n, r, c) && !DropsMarkAt(t, |trace|, r, c)) || Tells(t, |trace|, r, c)
  {
    hide Tells, DropsMarkAt, StandsSince;
    var t := trace + [step];
    forall k: nat | k < |trace|
      ensures StandsSince(t, k, r, c) <==> StandsSince(trace, k, r, c) && !DropsMarkAt(t, |trace|, r, c)
    {
      StandsStill(trace, step, k, r, c);
    }
    StandsLast(t, |trace|, r, c);
    if Stands(t, n, r, c) {
      var k: nat :| n <= k < |t| && StandsSince(t, k, r, c);
      assert k < |trace| ==> StandsSince(trace, k, r, c);
    }
    if Stands(trace, n, r, c) && !DropsMarkAt(t, |trace|, r, c) {
      var k: nat :| n <= k < |trace| && StandsSince(trace, k, r, c);
      assert StandsSince(t, k, r, c);
    }
  }

  lemma StandsLast(trace: seq<Step>, k: nat, r: int, c: nat)
    requires k + 1 == |trace|
    ensures StandsSince(trace, k, r, c) <==> Tells(trace, k, r, c)
  {
  }

  /** A subscriber's queue holds a marker exactly when one was put from the n-th step on, and stands. */
  ghost predicate MarksAgree(trace: seq<Step>, n: nat, r: int, c: nat) {
    var s := Exec(trace);
    && (c in s.subs && s.subs[c].run == r && s.subs[c].mode == Live ==>
          (Marked(LookupQueue(s.b, c)) <==> Stands(trace, n, r, c)))
    && (c !in s.subs ==> !Stands(trace, n, r, c))
  }

  lemma MarksAgreeStill(trace: seq<Step>, step: Step, n: nat, r: int, c: nat)
    requires n <= |trace| && MarksAgree(trace, n, r, c)
    ensures MarksAgree(trace + [step], n, r, c)
  {
    hide Exec, Next, Telling, Tells, Marked, RunInv, SubInv, Stands, DropsMark;
    var s := Exec(trace);
    ExecAnd(trace, step);
    Reachable(trace);
    StandsAnd(trace, step, n, r, c);
    TellingLast(trace, step, r, c);
    DropsMarkLast(trace, step, r, c);
    StepSubs(s, step);
    if c !in s.subs {
      NewcomerUnmarked(s, step, r, c);
    } else {
      StepEnds(s, step, c);
      if s.subs[c].run == r && Next(s, step).subs[c].mode == Live { StepMarks(s, step, r, c); }
    }
  }

  lemma DropsMarkLast(trace: seq<Step>, step: Step, r: int, c: nat)
    ensures DropsMarkAt(trace + [step], |trace|, r, c) <==> step == Serve(r) && DropsMark(Exec(trace), r, c)
  {
    assert (trace + [step])[..|trace|] == trace;
  }

  lemma {:induction false} MarkedOnlyByTelling(t0: seq<Step>, t1: seq<Step>, r: int, c: nat)
    requires c in Exec(t0).subs ==> !Marked(LookupQueue(Exec(t0).b, c))
    ensures MarksAgree(t0 + t1, |t0|, r, c)
    decreases |t1|
  {
    hide Exec, Next, Telling, Tells, Marked, RunInv, SubInv, MarksAgree;
    if t1 == [] {
      assert t0 + t1 == t0;
      MarksAgreeFirst(t0, r, c);
    } else {
      var init, step := t1[..|t1| - 1], t1[|t1| - 1];
      assert t0 + t1 == (t0 + init) + [step];
      MarkedOnlyByTelling(t0, init, r, c);
      MarksAgreeStill(t0 + init, step, |t0|, r, c);
    }
  }

  lemma MarksAgreeFirst(t0: seq<Step>, r: int, c: nat)
    requires c in Exec(t0).subs ==> !Marked(LookupQueue(Exec(t0).b, c))
    ensures MarksAgree(t0, |t0|, r, c)
  {
    hide Marked;
  }

  /** Whatever is published and finished meanwhile, from a moment when its queue has no end marker on, a live
      subscriber has one exactly if it was told, its queue held fewer than 500 items then, and the publishing thread
      has not since dropped the last marker to make room for an event. */
  lemma MarkerExactly(t0: seq<Step>, t1: seq<Step>, r: int, c: nat)
    requires c in Exec(t0).subs ==> !Marked(LookupQueue(Exec(t0).b, c))
    requires var s := Exec(t0 + t1); c in s.subs && s.subs[c].run == r && s.subs[c].mode == Live
    ensures var t := t0 + t1;
            Marked(LookupQueue(Exec(t).b, c))
            <==> exists k: nat ::
                   && |t0| <= k < |t| && Telling(t, k, r, c) && |LookupQueue(Exec(t[..k]).b, c)| < QUEUE_SIZE
                   && forall i: nat :: k < i < |t| ==> !DropsMarkAt(t, i, r, c)
  {
    hide Exec, Telling, Marked, DropsMarkAt;
    MarkedOnlyByTelling(t0, t1, r, c);
    var t := t0 + t1;
    if Stands(t, |t0|, r, c) {
      var k: nat :| |t0| <= k < |t| && StandsSince(t, k, r, c);
      assert Telling(t, k, r, c) && |LookupQueue(Exec(t[..k]).b, c)| < QUEUE_SIZE;
    }
    if k: nat :| && |t0| <= k < |t| && Telling(t, k, r, c) && |LookupQueue(Exec(t[..k]).b, c)| < QUEUE_SIZE
                 && forall i: nat :: k < i < |t| ==> !DropsMarkAt(t, i, r, c) {
      assert StandsSince(t, k, r, c);
    }
  }

  /** Without a publishing thread nothing is dropped. */
  lemma {:induction false} NothingDropped(t0: seq<Step>, t1: seq<Step>, r: int, c: nat)
    requires RunOf(Exec(t0), r).pub == Idle && forall e :: Publish(r, e) !in t1
    ensures RunOf(Exec(t0 + t1), r).pub == Idle
    ensures forall i: nat :: |t0| <= i < |t0 + t1| ==> !DropsMarkAt(t0 + t1, i, r, c)
    decreases |t1|
  {
    hide Exec, Next, DropsMarkAt;
    var t := t0 + t1;
    if t1 == [] {
      assert t == t0;
    } else {
      var init, step := t1[..|t1| - 1], t1[|t1| - 1];
      NothingDropped(t0, init, r, c);
      assert t == (t0 + init) + [step];
      ExecAnd(t0 + init, step);
      IdleStays(Exec(t0 + init), step, r);
      DropsMarkLast(t0 + init, step, r, c);
      forall i: nat | |t0| <= i < |t0 + init|
        ensures !DropsMarkAt(t, i, r, c)
      {
        DropsMarkEarlier(t, i, |t0 + init|, r, c);
        assert t[..|t0 + init|] == t0 + init;
      }
    }
  }

  lemma DropsMarkEarlier(trace: seq<Step>, k: nat, n: nat, r: int, c: nat)
    requires k < n <= |trace|
    ensures DropsMarkAt(trace[..n], k, r, c) <==> DropsMarkAt(trace, k, r, c)
  {
    assert trace[..n][..k] == trace[..k];
  }

  lemma IdleStays(s: System, step: Step, r: int)
    requires RunOf(s, r).pub == Idle && forall e :: step != Publish(r, e)
    ensures RunOf(Next(s, step), r).pub == Idle
    ensures forall c :: !InTurn(s, r, c, Dropping)
  {
  }

  lemma {:induction false} LiveBefore(trace: seq<Step>, more: seq<Step>, c: nat)
    requires c in Exec(trace).subs
    ensures c in Exec(trace + more).subs && Exec(trace + more).subs[c].run == Exec(trace).subs[c].run
    ensures Exec(trace + more).subs[c].mode == Live ==> c in Lookup(Exec(trace).b.subscribers, Exec(trace).subs[c].run)
  {
    hide Exec, StreamInv, MarkInv, BaseInv, RunInv;
    JoinedStays(trace, c, more);
    SubscriberHolds(trace, c);
  }

  /** The end of a run whose thread has stopped publishing. A subscriber that is still waiting afterwards was told
      exactly if it had subscribed before the first locked section of `finish`; and it has its end marker exactly if
      its queue held fewer than 500 items when it was told. */
  lemma MarkedExactly(t0: seq<Step>, t1: seq<Step>, r: int, c: nat)
    requires RunOf(Exec(t0), r).fin == NotEnding && RunOf(Exec(t0), r).pub == Idle
    requires StartFinish(r) !in t1 && forall e :: Publish(r, e) !in t1
    requires c in Exec(t0).subs ==> !Marked(LookupQueue(Exec(t0).b, c))
    requires var s := Exec(t0 + [StartFinish(r)] + t1);
             RunOf(s, r).fin == NotEnding && c in s.subs && s.subs[c].run == r && s.subs[c].mode == Live
    ensures var t := t0 + [StartFinish(r)] + t1;
            && (ToldAfter(t, |t0|, r, c) <==> c in Exec(t0).subs)
            && (Marked(LookupQueue(Exec(t).b, c))
                <==> exists k: nat ::
                       |t0| < k < |t| && Telling(t, k, r, c) && |LookupQueue(Exec(t[..k]).b, c)| < QUEUE_SIZE)
  {
    hide Exec, Next, Telling, RunInv, SubInv, Marked, DropsMarkAt;
    FinishTellsTheRegistered(t0, t1, r, c);
    var rest := [StartFinish(r)] + t1;
    var t := t0 + [StartFinish(r)] + t1;
    assert t == t0 + rest;
    MarkerExactly(t0, rest, r, c);
    NothingDropped(t0, rest, r, c);
    forall k: nat | |t0| <= k < |t| && Telling(t, k, r, c)
      ensures |t0| < k
    {
      assert t[|t0|] == StartFinish(r);
      TellingIsTell(t, k, r, c);
    }
    if c in Exec(t0).subs {
      LiveBefore(t0, rest, c);
    } else {
      Reachable(t0);
      StrangersAreUnregistered(Exec(t0), r, c);
    }
  }

  lemma TellingIsTell(trace: seq<Step>, k: nat, r: int, c: nat)
    requires Telling(trace, k, r, c)
    ensures k < |trace| && trace[k] == Tell(r)
  {
  }

  lemma StrangersAreUnregistered(s: System, r: int, c: nat)
    requires c !in s.subs && RunInv(s, r)
    ensures c !in Lookup(s.b.subscribers, r)
  {
  }

  // ------------------------------------------------------------------ ending, or waiting

  /** The subscriber's own loop: replay first, then the queue. */
  function Read(s: System, c: nat): System {
    if c in s.subs && s.subs[c].replay != [] then DoYieldReplay(s, c) else DoGet(s, c)
  }

  function ReadTimes(s: System, c: nat, n: nat): System
    decreases n
  {
    if n == 0 then s else ReadTimes(Read(s, c), c, n - 1)
  }

  /** A subscriber with an end marker in its queue reaches its end by reading alone: its replay, what is in front of
      the marker, and the marker. */
  lemma {:induction false} MarkedDrains(s: System, c: nat)
    requires c in s.subs && s.subs[c].mode == Live && Marked(LookupQueue(s.b, c))
    ensures var s' := ReadTimes(s, c, |s.subs[c].replay| + MarkAt(LookupQueue(s.b, c)) + 1);
            c in s'.subs && s'.subs[c].mode == Closed
    decreases |s.subs[c].replay| + |LookupQueue(s.b, c)|
  {
    var s' := Read(s, c);
    var q := LookupQueue(s.b, c);
    if s.subs[c].replay != [] || q[0].Some? {
      assert LookupQueue(s'.b, c) == if s.subs[c].replay != [] then q else q[1..];
      MarkedDrains(s', c);
    } else {
      assert ReadTimes(s, c, 1) == ReadTimes(s', c, 0) == s';
    }
  }

  /** What keeps a subscriber waiting: no marker in its queue, and not on the list of those to be told. */
  predicate Waiting(s: System, r: int, c: nat) {
    && c in s.subs && s.subs[c].run == r && s.subs[c].mode == Live
    && !Marked(LookupQueue(s.b, c)) && c !in TellList(RunOf(s, r).fin)
  }

  lemma StepWaits(s: System, step: Step, r: int, c: nat)
    requires Waiting(s, r, c) && (forall q :: RunInv(s, q))
    requires step != StartFinish(r) && step != Disconnect(c)
    ensures Waiting(Next(s, step), r, c)
  {
    hide MarkAt, RunInv, Next, RunTouched;
    var q := LookupQueue(s.b, c);
    assert RunInv(s, RunTouched(s, step));
    StepQueue(s, step, r, c);
    StepTells(s, step, r, c);
    if RunOf(s, r).pub.Putting? { MarkedAppend(q, Some(RunOf(s, r).pub.e)); }
    if q != [] { MarkedTail(q); }
    StepSubs(s, step);
    StepStaysLive(s, step, c);
  }

  /** A live subscriber stops being so by reading a marker or by disconnecting. */
  lemma StepStaysLive(s: System, step: Step, c: nat)
    requires c in s.subs && s.subs[c].mode == Live
    requires step != Disconnect(c) && (LookupQueue(s.b, c) == [] || LookupQueue(s.b, c)[0].Some?)
    ensures c in Next(s, step).subs && Next(s, step).subs[c].mode == Live && Next(s, step).subs[c].run == s.subs[c].run
  {
  }

  lemma MarkedTail(q: seq<Item>)
    requires q != []
    ensures Marked(q[1..]) ==> q[0].None? || Marked(q)
    ensures !Marked(q) ==> q[0].Some? && !Marked(q[1..])
  {
  }

  /** A subscriber that was not told waits, whatever else happens, until it disconnects or the id is finished again:
      a `finish` it came too late for, or whose marker found its queue full, never ends its stream. */
  lemma {:induction false} UntoldWaits(trace: seq<Step>, more: seq<Step>, r: int, c: nat)
    requires Waiting(Exec(trace), r, c) && Disconnect(c) !in more && StartFinish(r) !in more
    ensures Waiting(Exec(trace + more), r, c)
    decreases |more|
  {
    hide Exec, Next, RunInv, Waiting, SubInv;
    if more == [] {
      assert trace + more == trace;
    } else {
      var init, step := more[..|more| - 1], more[|more| - 1];
      UntoldWaits(trace, init, r, c);
      assert trace + more == (trace + init) + [step];
      ExecAnd(trace + init, step);
      Reachable(trace + init);
      StepWaits(Exec(trace + init), step, r, c);
    }
  }

  // ------------------------------------------------------------------ what can go wrong

  lemma GapState()
    ensures var s := Exec([StartFinish(1), Subscribe(0, 1), EndFinish(1)]);
            && RunOf(s, 1).pub == Idle && RunOf(s, 1).fin == NotEnding && Lookup(s.b.subscribers, 1) == [0]
            && LookupQueue(s.b, 0) == [] && 0 in s.subs && s.subs[0].run == 1 && s.subs[0].mode == Live
            && s.subs[0].replay == [] && s.subs[0].out == [] && 1 in s.b.finished
  {
    hide Exec;
    ExecNothing();
    ExecAnd([], StartFinish(1));
    ExecAnd([StartFinish(1)], Subscribe(0, 1));
    ExecAnd([StartFinish(1), Subscribe(0, 1)], EndFinish(1));
    assert [] + [StartFinish(1)] == [StartFinish(1)];
    assert [StartFinish(1)] + [Subscribe(0, 1)] == [StartFinish(1), Subscribe(0, 1)];
    assert [StartFinish(1), Subscribe(0, 1)] + [EndFinish(1)] == [StartFinish(1), Subscribe(0, 1), EndFinish(1)];
  }

  /** A subscriber that comes between the two locked sections of `finish` is registered and never told. */
  lemma GapLeavesWaiting()
    ensures Waiting(Exec([StartFinish(1), Subscribe(0, 1), EndFinish(1)]), 1, 0)
    ensures 1 in Exec([StartFinish(1), Subscribe(0, 1), EndFinish(1)]).b.finished
  {
    hide Exec;
    GapState();
  }

  const LINE := Event("line", "")

  function Items(count: nat): (items: seq<Item>)
    ensures |items| == count && forall i :: 0 <= i < count ==> items[i] == Some(LINE)
  {
    if count == 0 then [] else Items(count - 1) + [Some(LINE)]
  }

  /** After `start`, `count` lines, each put into the queue of the one subscriber. */
  function Lines(start: seq<Step>, count: nat): seq<Step> {
    if count == 0 then start else Lines(start, count - 1) + [Publish(1, LINE), Serve(1)]
  }

  /** The one subscriber has read nothing, and so many lines are behind what its queue held at first. */
  predicate Filled(s: System, head: seq<Item>, count: nat) {
    && RunOf(s, 1).pub == Idle && RunOf(s, 1).fin == NotEnding && Lookup(s.b.subscribers, 1) == [0]
    && 0 in s.subs && s.subs[0].run == 1 && s.subs[0].mode == Live && s.subs[0].replay == [] && s.subs[0].out == []
    && !s.subs[0].skipped && LookupQueue(s.b, 0) == head + Items(count)
  }

  lemma {:induction false} LinesFill(start: seq<Step>, head: seq<Item>, count: nat)
    requires Filled(Exec(start), head, 0) && |head| + count <= QUEUE_SIZE
    ensures Filled(Exec(Lines(start, count)), head, count)
    decreases count
  {
    hide Exec;
    if count > 0 {
      LinesFill(start, head, count - 1);
      var before := Lines(start, count - 1);
      ExecAnd(before, Publish(1, LINE));
      ExecAnd(before + [Publish(1, LINE)], Serve(1));
      assert before + [Publish(1, LINE)] + [Serve(1)] == Lines(start, count);
      assert head + Items(count) == head + Items(count - 1) + [Some(LINE)];
    }
  }

  lemma FirstSubscriber()
    ensures Filled(Exec([Subscribe(0, 1)]), [], 0)
  {
    assert [Subscribe(0, 1)] == [] + [Subscribe(0, 1)];
    ExecAnd([], Subscribe(0, 1));
  }

  lemma {:induction false} ItemsUnmarked(q: seq<Item>)
    requires forall i :: 0 <= i < |q| ==> q[i].Some?
    ensures !Marked(q)
  {
    if q != [] { ItemsUnmarked(q[1..]); }
  }

  lemma FullQueue500()
    ensures Filled(Exec(Lines([Subscribe(0, 1)], QUEUE_SIZE)), [], QUEUE_SIZE)
    ensures !Marked(Items(QUEUE_SIZE)) && [] + Items(QUEUE_SIZE) == Items(QUEUE_SIZE)
  {
    hide Exec;
    FirstSubscriber();
    LinesFill([Subscribe(0, 1)], [], QUEUE_SIZE);
    ItemsUnmarked(Items(QUEUE_SIZE));
  }

  /** A subscriber whose queue is full when it is told is left waiting, although it was there from the start. */
  lemma FullQueueLeavesWaiting()
    ensures Waiting(Exec(Lines([Subscribe(0, 1)], QUEUE_SIZE) + [StartFinish(1)] + [Tell(1)] + [EndFinish(1)]), 1, 0)
  {
    hide Exec, Marked;
    var t := Lines([Subscribe(0, 1)], QUEUE_SIZE);
    FullQueue500();
    ExecAnd(t, StartFinish(1));
    ExecAnd(t + [StartFinish(1)], Tell(1));
    ExecAnd(t + [StartFinish(1)] + [Tell(1)], EndFinish(1));
  }

  /** An id that was finished and is used again, as when the database gives out the id of a deleted row: whoever
      subscribes to the new run is shown what it has said so far, is not registered, and gets nothing more. */
  lemma ReusedIdIsSilent(e: Event, later: Event)
    requires !IsStats(e) && !IsStats(later)
    ensures var s := Exec([StartFinish(7), EndFinish(7), Publish(7, e), Subscribe(0, 7), Publish(7, later)]);
            && 0 in s.subs && s.subs[0].mode == Late && s.subs[0].out + s.subs[0].replay == [e]
            && RunOf(s, 7).log == [e, later] && Lookup(s.b.subscribers, 7) == []
  {
    hide Exec;
    var t1, t2 := [StartFinish(7)], [StartFinish(7), EndFinish(7)];
    var t3 := t2 + [Publish(7, e)];
    var t4 := t3 + [Subscribe(0, 7)];
    assert Exec([]) == Init by { ExecNothing(); }
    ExecAnd([], StartFinish(7));
    assert [] + [StartFinish(7)] == t1;
    ExecAnd(t1, EndFinish(7));
    assert t1 + [EndFinish(7)] == t2;
    ExecAnd(t2, Publish(7, e));
    ExecAnd(t3, Subscribe(0, 7));
    ExecAnd(t4, Publish(7, later));
    assert t4 + [Publish(7, later)]
      == [StartFinish(7), EndFinish(7), Publish(7, e), Subscribe(0, 7), Publish(7, later)];
  }

  lemma ExecNothing()
    ensures Exec([]) == Init
  {
  }

  /** And someone left waiting by the first run gets the lines of the second, and its end. */
  lemma NextRunEndsIt(e: Event)
    requires !IsStats(e)
    ensures var gap := [StartFinish(1), Subscribe(0, 1), EndFinish(1)];
            var u := Exec(gap + [Publish(1, e)] + [Serve(1)] + [StartFinish(1)] + [Tell(1)] + [Get(0)] + [Get(0)]).subs;
            0 in u && u[0].mode == Closed && u[0].out == [e]
  {
    hide Exec, Next;
    var t := NextRun(e);
    ExecAnd(t, Get(0));
    ExecAnd(t + [Get(0)], Get(0));
    ReadsLineAndEnd(Exec(t), e);
  }

  lemma ReadsLineAndEnd(s: System, e: Event)
    requires LookupQueue(s.b, 0) == [Some(e), None]
    requires 0 in s.subs && s.subs[0].mode == Live && s.subs[0].replay == [] && s.subs[0].out == []
    ensures var u := Next(Next(s, Get(0)), Get(0)).subs; 0 in u && u[0].mode == Closed && u[0].out == [e]
  {
    var s' := Next(s, Get(0));
    assert LookupQueue(s'.b, 0) == [None] && s'.subs[0] == s.subs[0].(out := [e]);
  }

  lemma NextRun(e: Event) returns (t: seq<Step>)
    requires !IsStats(e)
    ensures t == [StartFinish(1), Subscribe(0, 1), EndFinish(1)] + [Publish(1, e)] + [Serve(1)] + [StartFinish(1)]
            + [Tell(1)]
    ensures var s := Exec(t);
            && LookupQueue(s.b, 0) == [Some(e), None]
            && 0 in s.subs && s.subs[0].mode == Live && s.subs[0].replay == [] && s.subs[0].out == []
  {
    hide Exec;
    var gap := [StartFinish(1), Subscribe(0, 1), EndFinish(1)];
    GapState();
    ExecAnd(gap, Publish(1, e));
    ExecAnd(gap + [Publish(1, e)], Serve(1));
    var t1 := gap + [Publish(1, e)] + [Serve(1)];
    assert LookupQueue(Exec(t1).b, 0) == [Some(e)];
    ExecAnd(t1, StartFinish(1));
    ExecAnd(t1 + [StartFinish(1)], Tell(1));
    t := t1 + [StartFinish(1)] + [Tell(1)];
  }

  /** A `finish` beside a `publish` can take the slot that the oldest line was dropped for: the line is lost with 499
      older ones still in the queue. */
  lemma ClashLosesTheNewest(e: Event)
    ensures var t := Lines([Subscribe(0, 1)], QUEUE_SIZE) + [StartFinish(1)] + [Publish(1, e)] + [Serve(1)] + [Serve(1)]
            + [Tell(1)] + [Serve(1)];
            var s := Exec(t);
            && 0 in s.subs && s.subs[0].skipped && RunOf(s, 1).log != [] && RunOf(s, 1).log[|RunOf(s, 1).log| - 1] == e
            && RunOf(s, 1).pub == Idle && |LookupQueue(s.b, 0)| == QUEUE_SIZE
            && LookupQueue(s.b, 0)[QUEUE_SIZE - 1] == None
  {
    hide Exec, Marked, LookupQueue;
    var t := SlotMade(e);
    TellTakesSlot(Exec(t), e);
    ExecAnd(t, Tell(1));
    ExecAnd(t + [Tell(1)], Serve(1));
  }

  lemma TellTakesSlot(s: System, e: Event)
    requires RunOf(s, 1).pub == Putting(e, [0], Retrying) && RunOf(s, 1).fin == Ending([0])
    requires 0 in s.subs && |LookupQueue(s.b, 0)| == QUEUE_SIZE - 1
    requires RunOf(s, 1).log != [] && RunOf(s, 1).log[|RunOf(s, 1).log| - 1] == e
    ensures var s' := Next(Next(s, Tell(1)), Serve(1));
            && 0 in s'.subs && s'.subs[0].skipped && RunOf(s', 1).log == RunOf(s, 1).log
            && RunOf(s', 1).pub == Idle && |LookupQueue(s'.b, 0)| == QUEUE_SIZE
            && LookupQueue(s'.b, 0)[QUEUE_SIZE - 1] == None
  {
  }

  lemma SlotMade(e: Event) returns (t: seq<Step>)
    ensures t == Lines([Subscribe(0, 1)], QUEUE_SIZE) + [StartFinish(1)] + [Publish(1, e)] + [Serve(1)] + [Serve(1)]
    ensures var s := Exec(t);
            && RunOf(s, 1).pub == Putting(e, [0], Retrying) && RunOf(s, 1).fin == Ending([0])
            && 0 in s.subs && |LookupQueue(s.b, 0)| == QUEUE_SIZE - 1
            && RunOf(s, 1).log != [] && RunOf(s, 1).log[|RunOf(s, 1).log| - 1] == e
  {
    hide Exec, Marked;
    t := Lines([Subscribe(0, 1)], QUEUE_SIZE);
    FullQueue500();
    ExecAnd(t, StartFinish(1));
    ExecAnd(t + [StartFinish(1)], Publish(1, e));
    t := t + [StartFinish(1)] + [Publish(1, e)];
    ExecAnd(t, Serve(1));
    ExecAnd(t + [Serve(1)], Serve(1));
    t := t + [Serve(1)] + [Serve(1)];
  }

  /** The subscriber reads `count` items. */
  function Gets(start: seq<Step>, count: nat): seq<Step> {
    if count == 0 then start else Gets(start, count - 1) + [Get(0)]
  }

  predicate Draining(s: System, e: Event, count: nat) {
    && RunOf(s, 1).pub == Putting(e, [0], Dropping) && RunOf(s, 1).log != []
    && RunOf(s, 1).log[|RunOf(s, 1).log| - 1] == e
    && Lookup(s.b.subscribers, 1) == [0]
    && 0 in s.subs && s.subs[0].run == 1 && s.subs[0].mode == Live && s.subs[0].replay == [] && !s.subs[0].skipped
    && count <= QUEUE_SIZE && LookupQueue(s.b, 0) == Items(QUEUE_SIZE - count)
    && |s.subs[0].out| == count && forall i :: 0 <= i < count ==> s.subs[0].out[i] == LINE
  }

  lemma ItemsTail(count: nat)
    requires count > 0
    ensures Items(count)[1..] == Items(count - 1)
  {
  }

  lemma {:induction false} GetsDrain(start: seq<Step>, e: Event, count: nat)
    requires Draining(Exec(start), e, 0) && count <= QUEUE_SIZE
    ensures Draining(Exec(Gets(start, count)), e, count)
    decreases count
  {
    hide Exec, Items;
    if count > 0 {
      GetsDrain(start, e, count - 1);
      ExecAnd(Gets(start, count - 1), Get(0));
      ItemsTail(QUEUE_SIZE - count + 1);
    }
  }

  lemma PutFails(e: Event) returns (t: seq<Step>)
    ensures t == Lines([Subscribe(0, 1)], QUEUE_SIZE) + [Publish(1, e)] + [Serve(1)] && Draining(Exec(t), e, 0)
  {
    hide Exec;
    t := Lines([Subscribe(0, 1)], QUEUE_SIZE);
    FullQueue500();
    ExecAnd(t, Publish(1, e));
    ExecAnd(t + [Publish(1, e)], Serve(1));
    t := t + [Publish(1, e)] + [Serve(1)];
  }

  /** A subscriber that reads its whole queue between a failed put and the drop loses the event that was to be put,
      with nothing older dropped for it, and goes on with the next one. No `finish` is involved. */
  lemma DrainLosesTheNewest(e: Event, later: Event)
    ensures var t := Gets(Lines([Subscribe(0, 1)], QUEUE_SIZE) + [Publish(1, e)] + [Serve(1)], QUEUE_SIZE);
            var s := Exec(t + [Serve(1)] + [Publish(1, later)] + [Serve(1)]);
            var log := RunOf(s, 1).log;
            && 0 in s.subs && s.subs[0].mode == Live && s.subs[0].drained && !s.subs[0].skipped
            && |log| >= 2 && log[|log| - 2..] == [e, later]
            && LookupQueue(s.b, 0) == [Some(later)]
            && |s.subs[0].out| == QUEUE_SIZE && forall i :: 0 <= i < QUEUE_SIZE ==> s.subs[0].out[i] == LINE
  {
    hide Exec, Items;
    var start := PutFails(e);
    var t := Gets(start, QUEUE_SIZE);
    GetsDrain(start, e, QUEUE_SIZE);
    assert Items(0) == [];
    ExecAnd(t, Serve(1));
    ExecAnd(t + [Serve(1)], Publish(1, later));
    ExecAnd(t + [Serve(1)] + [Publish(1, later)], Serve(1));
    var before := RunOf(Exec(t), 1).log;
    var log := before + [later];
    assert log[|log| - 2..] == [e, later];
  }

  /** A subscriber that was told, but has not read its marker yet: 500 lines of the next run under the id drop it. */
  lemma DroppedMarkLeavesWaiting()
    ensures var told := [Subscribe(0, 1), StartFinish(1), Tell(1), EndFinish(1)];
            Waiting(Exec(Lines(told, QUEUE_SIZE - 1) + [Publish(1, LINE)] + [Serve(1)] + [Serve(1)] + [Serve(1)]), 1, 0)
  {
    hide Exec, Items;
    var told := [Subscribe(0, 1), StartFinish(1), Tell(1), EndFinish(1)];
    ToldFirst();
    LinesFill(told, [None], QUEUE_SIZE - 1);
    var t := Lines(told, QUEUE_SIZE - 1);
    DropsTheMark(Exec(t));
    ExecAnd(t, Publish(1, LINE));
    ExecAnd(t + [Publish(1, LINE)], Serve(1));
    ExecAnd(t + [Publish(1, LINE)] + [Serve(1)], Serve(1));
    ExecAnd(t + [Publish(1, LINE)] + [Serve(1)] + [Serve(1)], Serve(1));
  }

  lemma DropsTheMark(s: System)
    requires Filled(s, [None], QUEUE_SIZE - 1)
    ensures Waiting(Next(Next(Next(Next(s, Publish(1, LINE)), Serve(1)), Serve(1)), Serve(1)), 1, 0)
  {
    hide Marked;
    var items := Items(QUEUE_SIZE - 1);
    assert ([None] + items)[1..] == items;
    ItemsUnmarked(items + [Some(LINE)]);
  }

  lemma ToldFirst()
    ensures Filled(Exec([Subscribe(0, 1), StartFinish(1), Tell(1), EndFinish(1)]), [None], 0)
  {
    hide Exec;
    var t := [Subscribe(0, 1)];
    FirstSubscriber();
    ExecAnd(t, StartFinish(1));
    ExecAnd(t + [StartFinish(1)], Tell(1));
    ExecAnd(t + [StartFinish(1)] + [Tell(1)], EndFinish(1));
    assert t + [StartFinish(1)] + [Tell(1)] + [EndFinish(1)]
      == [Subscribe(0, 1), StartFinish(1), Tell(1), EndFinish(1)];
    assert [] + Items(0) == [] && [None] + Items(0) == [None];
  }

  // ------------------------------------------------------------------ the object performs these steps

  lemma {:induction false} DeliverAllHead(b: Broker, cs: seq<nat>, e: Event)
    requires cs != []
    ensures DeliverAll(b, cs, e) == DeliverAll(Deliver(b, cs[0], e), cs[1..], e)
  {
    if |cs| > 1 {
      DeliverAllHead(b, cs[..|cs| - 1], e);
      assert cs[..|cs| - 1][1..] == cs[1..][..|cs| - 2];
    } else {
      assert cs[..0] == [] && cs[1..] == [];
    }
  }

  function ServeTimes(s: System, r: int, n: nat): System
    decreases n
  {
    if n == 0 then s else ServeTimes(DoServe(s, r), r, n - 1)
  }

  lemma {:induction false} ServeTimesAdd(s: System, r: int, m: nat, n: nat)
    ensures ServeTimes(s, r, m + n) == ServeTimes(ServeTimes(s, r, m), r, n)
    decreases m
  {
    if m > 0 { ServeTimesAdd(DoServe(s, r), r, m - 1, n); }
  }

  lemma ServeOne(s: System, r: int) returns (n: nat)
    requires RunOf(s, r).pub.Putting? && RunOf(s, r).pub.todo != [] && RunOf(s, r).pub.phase == First
    requires forall c :: c in RunOf(s, r).pub.todo ==> |LookupQueue(s.b, c)| <= QUEUE_SIZE
    ensures forall c :: c in RunOf(s, r).pub.todo ==> |LookupQueue(ServeTimes(s, r, n).b, c)| <= QUEUE_SIZE
    ensures var pub := RunOf(s, r).pub; var s' := ServeTimes(s, r, n);
            s'.b == Deliver(s.b, pub.todo[0], pub.e) && RunOf(s', r).pub == After(pub.e, pub.todo[1..])
  {
    var s1 := DoServe(s, r);
    if HasRoom(s.b, RunOf(s, r).pub.todo[0]) {
      n := 1;
      assert ServeTimes(s1, r, 0) == s1;
    } else {
      n := 3;
      var s2 := DoServe(s1, r);
      var s3 := DoServe(s2, r);
      assert ServeTimes(s3, r, 0) == s3 && ServeTimes(s2, r, 1) == s3 && ServeTimes(s1, r, 2) == s3;
    }
  }

  /** An uninterrupted `publish` of the object is the worker's steps of the protocol in a row. */
  lemma {:induction false} ServingDelivers(s: System, r: int) returns (n: nat)
    requires RunOf(s, r).pub.Putting? && RunOf(s, r).pub.todo != [] && RunOf(s, r).pub.phase == First
    requires forall c :: c in RunOf(s, r).pub.todo ==> |LookupQueue(s.b, c)| <= QUEUE_SIZE
    ensures var pub := RunOf(s, r).pub; var s' := ServeTimes(s, r, n);
            s'.b == DeliverAll(s.b, pub.todo, pub.e) && RunOf(s', r).pub == Idle
    decreases |RunOf(s, r).pub.todo|
  {
    var pub := RunOf(s, r).pub;
    DeliverAllHead(s.b, pub.todo, pub.e);
    n := ServeOne(s, r);
    if |pub.todo| > 1 {
      var m := ServingDelivers(ServeTimes(s, r, n), r);
      ServeTimesAdd(s, r, n, m);
      n := n + m;
    }
  }

  // ------------------------------------------------------------------ leaving

  /** A subscriber whose stream ended, or that left, is in no list once it has cleaned up; the others of its id stay
      registered in the order they came, the id's entry goes with the last of them, and nobody else notices. */
  lemma CleanUpExactly(trace: seq<Step>, c: nat)
    requires c in Exec(trace).subs && Exec(trace).subs[c].mode in {Closed, Left}
    ensures var s, s' := Exec(trace), Exec(trace + [CleanUp(c)]);
            var r := s.subs[c].run;
            && (forall run :: c !in Lookup(s'.b.subscribers, run))
            && IsWithout(Lookup(s'.b.subscribers, r), Lookup(s.b.subscribers, r), c)
            && (r in s'.b.subscribers <==> Lookup(s'.b.subscribers, r) != [])
            && (forall run :: run != r ==> Lookup(s'.b.subscribers, run) == Lookup(s.b.subscribers, run))
            && s' == s.(b := s.b.(subscribers := s'.b.subscribers))
  {
    hide SubInv, UnsubscribeLocked, RunInv, IsWithout, Distinct;
    Reachable(trace);
    var s := Exec(trace);
    assert (trace + [CleanUp(c)])[..|trace|] == trace;
    InOwnList(s, c, s.subs[c].run);
    UnsubscribedExactly(s.b, s.subs[c].run, c);
    var s' := Exec(trace + [CleanUp(c)]);
    forall run
      ensures c !in Lookup(s'.b.subscribers, run)
    {
      InOwnList(s, c, run);
      if run == s.subs[c].run { WithoutIt(Lookup(s'.b.subscribers, run), Lookup(s.b.subscribers, run), c); }
    }
  }

  lemma InOwnList(s: System, c: nat, run: int)
    requires RunInv(s, run) && c in s.subs
    ensures Distinct(Lookup(s.b.subscribers, run))
    ensures run != s.subs[c].run ==> c !in Lookup(s.b.subscribers, run)
  {
    hide BacklogInv;
  }

  lemma WithoutIt(left: seq<nat>, channels: seq<nat>, c: nat)
    requires IsWithout(left, channels, c)
    ensures c !in left
  {
  }

  /** Whoever is live is registered, so a subscriber that was never told still gets what is published. */
  lemma LiveIsRegistered(trace: seq<Step>, c: nat)
    requires c in Exec(trace).subs && Exec(trace).subs[c].mode == Live
    ensures c in Lookup(Exec(trace).b.subscribers, Exec(trace).subs[c].run)
  {
    hide RunInv, StreamInv, MarkInv, BaseInv;
    Reachable(trace);
    assert SubInv(Exec(trace), c);
  }

  // ------------------------------------------------------------------ the object's `finish`

  lemma {:induction false} MarkAllHead(b: Broker, cs: seq<nat>)
    requires cs != []
    ensures MarkAll(b, cs) == MarkAll(Mark(b, cs[0]), cs[1..])
  {
    hide Mark;
    if |cs| > 1 {
      MarkAllHead(b, cs[..|cs| - 1]);
      assert cs[..|cs| - 1][1..] == cs[1..][..|cs| - 2];
    } else {
      assert cs[..0] == [] && cs[1..] == [];
    }
  }

  function TellTimes(s: System, r: int, n: nat): System
    decreases n
  {
    if n == 0 then s else TellTimes(DoTell(s, r), r, n - 1)
  }

  /** An uninterrupted `finish` of the object is the steps of the protocol's finishing thread in a row. */
  lemma {:induction false} TellingMarks(s: System, r: int)
    requires RunOf(s, r).fin.Ending?
    ensures var todo := RunOf(s, r).fin.todo; var s' := TellTimes(s, r, |todo|);
            && s'.b == MarkAll(s.b, todo) && RunOf(s', r).fin == Ending([])
            && DoEndFinish(s', r).b == FinishLocked(MarkAll(s.b, todo), r)
    decreases |RunOf(s, r).fin.todo|
  {
    hide FinishLocked;
    var todo := RunOf(s, r).fin.todo;
    if todo != [] {
      MarkAllHead(s.b, todo);
      TellingMarks(DoTell(s, r), r);
    }
  }
}

/** Live run output: publish, subscribe, finish (app/jobs/events.py, class RunBroker).

    Every lock-protected section and every queue operation is one atomic step, written as a function
    on `Broker`. The class performs them on its fields; `BrokerProtocol` interleaves them. */
module Broker {
  import opened Wrappers

  const QUEUE_SIZE := 500
  const FINISHED_MEMORY := 500
  const BACKLOG_LIMIT := 200

  datatype Event = Event(kind: string, text: string)

  /** What travels through a subscriber's queue: an event, or the end-of-stream marker. */
  type Item = Option<Event>

  predicate IsStats(e: Event) { e.kind == "stats" }

  datatype Broker = Broker(
    backlog: map<int, seq<Event>>,
    subscribers: map<int, seq<nat>>,
    latestStats: map<int, Event>,
    finished: seq<int>,
    queues: map<nat, seq<Item>>)

  function LastN<T>(s: seq<T>, n: nat): seq<T> {
    if |s| <= n then s else s[|s| - n..]
  }

  /** All of a list, or as many as asked for from its end. */
  lemma LastNIsNewest<T>(s: seq<T>, n: nat)
    ensures var r := LastN(s, n);
            && |r| == (if |s| <= n then |s| else n)
            && forall i :: 0 <= i < |r| ==> r[i] == s[|s| - |r| + i]
  {
  }

  function Lookup<T>(m: map<int, seq<T>>, key: int): seq<T> {
    if key in m then m[key] else []
  }

  function LookupQueue(b: Broker, c: nat): seq<Item> {
    if c in b.queues then b.queues[c] else []
  }

  // ------------------------------------------------------------------ atomic steps

  /** The locked half of `publish`. The subscribers to serve are those registered right now. */
  function PublishLocked(b: Broker, run: int, e: Event): Broker {
    if IsStats(e) then b.(latestStats := b.latestStats[run := e])
    else b.(backlog := b.backlog[run := LastN(Lookup(b.backlog, run) + [e], BACKLOG_LIMIT)])
  }

  predicate HasRoom(b: Broker, c: nat) { |LookupQueue(b, c)| < QUEUE_SIZE }

  /** `put_nowait` on a queue with a free slot. */
  function Put(b: Broker, c: nat, item: Item): Broker {
    b.(queues := b.queues[c := LookupQueue(b, c) + [item]])
  }

  /** `get_nowait` on a queue that is not empty. */
  function DropHead(b: Broker, c: nat): Broker
    requires LookupQueue(b, c) != []
  {
    b.(queues := b.queues[c := LookupQueue(b, c)[1..]])
  }

  /** `publish` putting one event into one queue with nobody else running: drop the oldest, retry once. */
  function Deliver(b: Broker, c: nat, e: Event): Broker {
    if HasRoom(b, c) then Put(b, c, Some(e)) else Put(DropHead(b, c), c, Some(e))
  }

  function DeliverAll(b: Broker, cs: seq<nat>, e: Event): Broker {
    if cs == [] then b else Deliver(DeliverAll(b, cs[..|cs| - 1], e), cs[|cs| - 1], e)
  }

  /** `finish` offering its marker to one queue: suppressed when the queue is full. */
  function Mark(b: Broker, c: nat): Broker {
    if HasRoom(b, c) then Put(b, c, None) else b
  }

  function MarkAll(b: Broker, cs: seq<nat>): Broker {
    if cs == [] then b else Mark(MarkAll(b, cs[..|cs| - 1]), cs[|cs| - 1])
  }

  /** Setting a key of an OrderedDict: a new key goes last, a known one keeps its place. */
  function Remember(finished: seq<int>, run: int): seq<int> {
    LastN(if run in finished then finished else finished + [run], FINISHED_MEMORY)
  }

  /** The second locked section of `finish`. */
  function FinishLocked(b: Broker, run: int): Broker {
    b.(backlog := b.backlog - {run}, latestStats := b.latestStats - {run}, finished := Remember(b.finished, run))
  }

  /** What a subscriber is shown before it reads its queue. */
  function Replay(b: Broker, run: int): seq<Event> {
    Lookup(b.backlog, run)
    + if run !in b.finished && run in b.latestStats then [b.latestStats[run]] else []
  }

  /** The locked section of `subscribe`, with a fresh channel. */
  function SubscribeLocked(b: Broker, run: int, c: nat): Broker {
    if run in b.finished then b
    else b.(subscribers := b.subscribers[run := Lookup(b.subscribers, run) + [c]], queues := b.queues[c := []])
  }

  function Remove<T(==)>(s: seq<T>, x: T): seq<T> {
    if s == [] then [] else if s[0] == x then s[1..] else [s[0]] + Remove(s[1..], x)
  }

  predicate Distinct<T(==)>(s: seq<T>) {
    forall i, j :: 0 <= i < j < |s| ==> s[i] != s[j]
  }

  /** Of a list without repetitions one element goes, and the others stay in order. */
  lemma {:induction false} RemoveExactly<T>(s: seq<T>, x: T)
    requires Distinct(s)
    ensures x !in Remove(s, x) && (x !in s ==> Remove(s, x) == s)
    ensures forall i :: 0 <= i < |s| && s[i] == x ==> Remove(s, x) == s[..i] + s[i + 1..]
  {
    hide Remove;
    forall i | 0 <= i < |s| && s[i] == x
      ensures Remove(s, x) == s[..i] + s[i + 1..]
    {
      RemoveAt(s, x, i);
    }
    if i :| 0 <= i < |s| && s[i] == x {
      assert x !in s[..i] + s[i + 1..];
    } else {
      RemoveNothing(s, x);
    }
  }

  lemma {:induction false} RemoveAt<T>(s: seq<T>, x: T, i: nat)
    requires Distinct(s) && i < |s| && s[i] == x
    ensures Remove(s, x) == s[..i] + s[i + 1..]
  {
    if i > 0 {
      RemoveAt(s[1..], x, i - 1);
      assert s[..i] == [s[0]] + s[1..][..i - 1] && s[1..][i..] == s[i + 1..];
    }
  }

  lemma {:induction false} RemoveNothing<T>(s: seq<T>, x: T)
    requires x !in s
    ensures Remove(s, x) == s
  {
    if s != [] {
      RemoveNothing(s[1..], x);
      assert s == [s[0]] + s[1..];
    }
  }

  /** What `left` is of the channels of a run once one of them is gone: the others, in order. */
  predicate IsWithout(left: seq<nat>, channels: seq<nat>, c: nat) {
    && c !in left && (c !in channels ==> left == channels)
    && forall i :: 0 <= i < |channels| && channels[i] == c ==> left == channels[..i] + channels[i + 1..]
  }

  /** Afterwards the run's channels are the others, in order; its entry is there only while it has any; no other run's
      entry changes, and nothing else. */
  lemma UnsubscribedExactly(b: Broker, run: int, c: nat)
    requires Distinct(Lookup(b.subscribers, run))
    ensures var after := UnsubscribeLocked(b, run, c);
            && IsWithout(Lookup(after.subscribers, run), Lookup(b.subscribers, run), c)
            && (run in after.subscribers <==> Lookup(after.subscribers, run) != [])
            && (forall other :: other != run ==>
                  && (other in after.subscribers <==> other in b.subscribers)
                  && Lookup(after.subscribers, other) == Lookup(b.subscribers, other))
            && after == b.(subscribers := after.subscribers)
  {
    RemoveExactly(Lookup(b.subscribers, run), c);
  }

  /** The locked section of `subscribe`'s clean-up. */
  function UnsubscribeLocked(b: Broker, run: int, c: nat): Broker {
    if run !in b.subscribers then b
    else
      var left := Remove(b.subscribers[run], c);
      if left == [] then b.(subscribers := b.subscribers - {run})
      else b.(subscribers := b.subscribers[run := left])
  }

  // ------------------------------------------------------------------ the object

  class RunBroker {
    var backlog: map<int, seq<Event>>
    var subscribers: map<int, seq<nat>>
    var latestStats: map<int, Event>
    var finished: seq<int>
    var queues: map<nat, seq<Item>>
    var nextChannel: nat

    ghost function State(): Broker
      reads this
    {
      Broker(backlog, subscribers, latestStats, finished, queues)
    }

    ghost predicate Valid()
      reads this
    {
      && (forall c :: c in queues ==> c < nextChannel)
      && (forall run :: run in backlog ==> |backlog[run]| <= BACKLOG_LIMIT)
      && (forall c :: c in queues ==> |queues[c]| <= QUEUE_SIZE)
      && (forall run :: run in subscribers ==> forall c :: c in subscribers[run] ==> c in queues)
      && (forall run :: run in subscribers ==> Distinct(subscribers[run]))
      && |finished| <= FINISHED_MEMORY
    }

    constructor ()
      ensures Valid() && State() == Broker(map[], map[], map[], [], map[])
    {
      backlog, subscribers, latestStats, finished, queues, nextChannel := map[], map[], map[], [], map[], 0;
    }

    method PutNowait(c: nat, item: Item) returns (ok: bool)
      requires Valid() && c in queues
      modifies this`queues
      ensures Valid() && ok == old(HasRoom(State(), c))
      ensures State() == if ok then Put(old(State()), c, item) else old(State())
    {
      ok := |queues[c]| < QUEUE_SIZE;
      if ok {
        queues := queues[c := queues[c] + [item]];
      }
    }

    method GetNowait(c: nat) returns (item: Option<Item>)
      requires Valid() && c in queues
      modifies this`queues
      ensures Valid()
      ensures item == if old(queues[c]) == [] then None else Some(old(queues[c][0]))
      ensures State() == if old(queues[c]) == [] then old(State()) else DropHead(old(State()), c)
    {
      if queues[c] == [] {
        return None;
      }
      item := Some(queues[c][0]);
      queues := queues[c := queues[c][1..]];
    }

    /** The locked section of `publish`. */
    method PublishSection(run: int, e: Event) returns (targets: seq<nat>)
      requires Valid()
      modifies this`backlog, this`latestStats
      ensures Valid() && State() == PublishLocked(old(State()), run, e)
      ensures targets == Lookup(subscribers, run)
    {
      if e.kind == "stats" {
        latestStats := latestStats[run := e];
      } else {
        var lines := (if run in backlog then backlog[run] else []) + [e];
        if |lines| > BACKLOG_LIMIT {
          lines := lines[|lines| - BACKLOG_LIMIT..];
        }
        backlog := backlog[run := lines];
      }
      targets := if run in subscribers then subscribers[run] else [];
    }

    method DeliverTo(c: nat, e: Event)
      requires Valid() && c in queues
      modifies this`queues
      ensures Valid() && State() == Deliver(old(State()), c, e)
    {
      var ok := PutNowait(c, Some(e));
      if !ok {
        var dropped := GetNowait(c);
        if dropped.Some? {
          ok := PutNowait(c, Some(e));
        }
      }
    }

    method Publish(run: int, e: Event)
      requires Valid()
      modifies this
      ensures Valid()
      ensures State() == DeliverAll(PublishLocked(old(State()), run, e), Lookup(old(subscribers), run), e)
      ensures subscribers == old(subscribers) && finished == old(finished)
      ensures if e.kind == "stats" then backlog == old(backlog) && latestStats == old(latestStats)[run := e]
              else
                && latestStats == old(latestStats)
                && backlog == old(backlog)[run := LastN(Lookup(old(backlog), run) + [e], BACKLOG_LIMIT)]
    {
      var targets := PublishSection(run, e);
      for i := 0 to |targets|
        modifies this`queues
        invariant Valid()
        invariant State() == DeliverAll(PublishLocked(old(State()), run, e), targets[..i], e)
      {
        assert targets[..i + 1][..i] == targets[..i];
        assert run in subscribers && targets[i] in subscribers[run];
        DeliverTo(targets[i], e);
      }
      assert targets[..|targets|] == targets;
    }

    /** The second locked section of `finish`. */
    method FinishSection(run: int)
      requires Valid()
      modifies this`backlog, this`latestStats, this`finished
      ensures Valid() && State() == FinishLocked(old(State()), run)
    {
      backlog := backlog - {run};
      latestStats := latestStats - {run};
      if run !in finished {
        finished := finished + [run];
      }
      while |finished| > FINISHED_MEMORY
        modifies this`finished
        invariant LastN(finished, FINISHED_MEMORY) == Remember(old(finished), run)
      {
        finished := finished[1..];
      }
    }

    method Finish(run: int)
      requires Valid()
      modifies this
      ensures Valid()
      ensures State() == FinishLocked(MarkAll(old(State()), Lookup(old(subscribers), run)), run)
    {
      var targets := if run in subscribers then subscribers[run] else [];
      for i := 0 to |targets|
        modifies this`queues
        invariant Valid()
        invariant State() == MarkAll(old(State()), targets[..i])
      {
        assert targets[..i + 1][..i] == targets[..i];
        assert run in subscribers && targets[i] in subscribers[run];
        var ok := PutNowait(targets[i], None);
      }
      assert targets[..|targets|] == targets;
      FinishSection(run);
    }

    /** Register for a run. `ended` subscribers get the backlog and no channel. */
    method Subscribe(run: int) returns (channel: nat, replay: seq<Event>, ended: bool)
      requires Valid()
      modifies this
      ensures Valid() && ended == (run in old(finished))
      ensures old(nextChannel) == channel && channel !in old(queues)
      ensures replay == Replay(old(State()), run)
      ensures State() == SubscribeLocked(old(State()), run, channel)
    {
      channel := nextChannel;
      nextChannel := nextChannel + 1;
      replay := if run in backlog then backlog[run] else [];
      ended := run in finished;
      if !ended {
        subscribers := subscribers[run := (if run in subscribers then subscribers[run] else []) + [channel]];
        queues := queues[channel := []];
        if run in latestStats {
          replay := replay + [latestStats[run]];
        }
      }
    }

    method Unsubscribe(run: int, channel: nat)
      requires Valid()
      modifies this`subscribers
      ensures Valid() && State() == UnsubscribeLocked(old(State()), run, channel)
      ensures IsWithout(Lookup(subscribers, run), Lookup(old(subscribers), run), channel)
      ensures run in subscribers <==> Lookup(subscribers, run) != []
    {
      UnsubscribedExactly(State(), run, channel);
      if run in subscribers {
        var left := Remove(subscribers[run], channel);
        RemoveKeepsOthers(subscribers[run], channel);
        if left == [] {
          subscribers := subscribers - {run};
        } else {
          subscribers := subscribers[run := left];
        }
      }
    }

    method BacklogFor(run: int) returns (lines: seq<Event>)
      ensures lines == Lookup(backlog, run)
    {
      lines := if run in backlog then backlog[run] else [];
    }
  }

  lemma {:induction false} RemoveKeepsOthers<T>(s: seq<T>, x: T)
    requires Distinct(s)
    ensures Distinct(Remove(s, x))
    ensures forall y :: y in Remove(s, x) ==> y in s
    ensures forall y :: y in s && y != x ==> y in Remove(s, x)
  {
    if s != [] && s[0] != x {
      RemoveKeepsOthers(s[1..], x);
      var r := Remove(s[1..], x);
      forall i | 0 <= i < |r|
        ensures r[i] != s[0]
      {
        assert r[i] in s[1..];
      }
    }
  }
}

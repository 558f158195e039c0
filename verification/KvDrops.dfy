/** What becomes of a subscriber that closes its receiver without unsubscribing: its inbox
    stays as it was, and the bus counts every notification it would have received. */
module KvDrops {
  import opened Types
  import opened Notifications
  import opened KvStore
  import opened KvReplay

  type Subscribers = map<SubscriptionId, Subscriber>

  /** How many deliveries of the stream fail for want of a receiver. */
  function MissedIn(subscribers: Subscribers, stream: seq<Notification>): nat {
    if stream == [] then 0
    else MissedIn(subscribers, stream[..|stream| - 1]) + |Missing(subscribers, stream[|stream| - 1])|
  }

  /** The same, for one subscriber: what its filter selects, once it is closed. */
  function MissedBy(s: Subscriber, stream: seq<Notification>): nat {
    if s.open then 0 else |Select(s.filter, stream)|
  }

  lemma MissingWithout(subscribers: Subscribers, n: Notification, id: SubscriptionId)
    requires id in subscribers
    ensures |Missing(subscribers, n)| ==
            |Missing(subscribers - {id}, n)| + if Matches(subscribers[id].filter, n) && !subscribers[id].open then 1 else 0
  {
    var s, rest := subscribers[id], Missing(subscribers - {id}, n);
    if Matches(s.filter, n) && !s.open {
      assert Missing(subscribers, n) == rest + {id};
    } else {
      assert Missing(subscribers, n) == rest;
    }
  }

  /** Each closed subscriber adds exactly what its filter selects from the stream. */
  lemma {:induction false} MissedBySubscriber(subscribers: Subscribers, stream: seq<Notification>, id: SubscriptionId)
    requires id in subscribers
    ensures MissedIn(subscribers, stream) == MissedIn(subscribers - {id}, stream) + MissedBy(subscribers[id], stream)
  {
    if stream != [] {
      var before, n := stream[..|stream| - 1], stream[|stream| - 1];
      MissedBySubscriber(subscribers, before, id);
      MissingWithout(subscribers, n, id);
    }
  }

  lemma {:induction false} NobodyMisses(stream: seq<Notification>)
    ensures MissedIn(map[], stream) == 0
  {
    if stream != [] {
      NobodyMisses(stream[..|stream| - 1]);
      assert Missing(map[], stream[|stream| - 1]) == {};
    }
  }

  // ---- One operation ----

  ghost predicate SameListeners(a: Subscribers, b: Subscribers) {
    a.Keys == b.Keys && forall id | id in a :: a[id].filter == b[id].filter && a[id].open == b[id].open
  }

  lemma SameMissing(a: Subscribers, b: Subscribers, n: Notification)
    requires SameListeners(a, b)
    ensures Missing(a, n) == Missing(b, n)
  {
  }

  /** Between `b` and `b'` the stream was published and nobody joined, left or closed. */
  ghost predicate Told(b: BusState, b': BusState, stream: seq<Notification>) {
    && b'.published == b.published + stream
    && b'.dropped == b.dropped + MissedIn(b.subscribers, stream)
    && SameListeners(b.subscribers, b'.subscribers)
    && forall id | id in b.subscribers && !b.subscribers[id].open :: b'.subscribers[id] == b.subscribers[id]
  }

  lemma PublishTells(b: BusState, b': BusState, stream: seq<Notification>, n: Notification)
    requires Told(b, b', stream)
    ensures Told(b, Publish(b', n), stream + [n])
  {
    SameMissing(b.subscribers, b'.subscribers, n);
    assert (stream + [n])[..|stream|] == stream;
    assert b.published + (stream + [n]) == b.published + stream + [n];
  }

  lemma OperateTells(b: BusState, s: State, stream: seq<Notification>, op: KVOperation, now: nat)
    returns (stream': seq<Notification>)
    requires Told(b, s.bus, stream)
    ensures Told(b, Operate(s, op, now).0.bus, stream')
  {
    var s' := Operate(s, op, now).0;
    stream' := stream;
    if s'.bus != s.bus {
      var n := s'.bus.published[|s.bus.published|];
      PublishTells(b, s.bus, stream, n);
      stream' := stream + [n];
    }
  }

  lemma {:induction false} BatchTells(s: State, ops: seq<KVOperation>, now: nat) returns (stream: seq<Notification>)
    ensures Told(s.bus, ApplyBatch(s, ops, now).0.bus, stream)
  {
    if ops == [] {
      stream := [];
    } else {
      stream := BatchTells(s, ops[..|ops| - 1], now);
      var (s1, r1) := ApplyBatch(s, ops[..|ops| - 1], now);
      if r1.Ok? {
        stream := OperateTells(s.bus, s1, stream, ops[|ops| - 1], now);
      }
    }
  }

  /** What an operation of a run publishes. */
  function News(b: BusState, b': BusState): seq<Notification> {
    if |b.published| <= |b'.published| then b'.published[|b.published|..] else []
  }

  lemma ToldNews(b: BusState, b': BusState, stream: seq<Notification>)
    requires Told(b, b', stream)
    ensures Told(b, b', News(b, b'))
  {
    assert b'.published[|b.published|..] == stream;
  }

  /** An operation that is none of the listeners' own tells every one of them its news. */
  lemma StepTells(s: State, op: Op)
    requires !op.Listen? && !op.Leave? && !op.Close?
    ensures Told(s.bus, Step(s, op).bus, News(s.bus, Step(s, op).bus))
  {
    var stream: seq<Notification> := [];
    assert Told(s.bus, s.bus, []);
    match op {
      case Operation(o, now) => stream := OperateTells(s.bus, s, [], o, now);
      case Batch(ops, now) => stream := BatchTells(s, ops, now);
      case ClearStore(now) =>
        var s' := Step(s, op);
        if s'.bus != s.bus {
          var n := s'.bus.published[|s.bus.published|];
          PublishTells(s.bus, s.bus, [], n);
          stream := [] + [n];
        }
      case _ =>
    }
    ToldNews(s.bus, Step(s, op).bus, stream);
  }

  lemma ListenersTellNothing(s: State, op: Op)
    requires op.Listen? || op.Leave? || op.Close?
    ensures News(s.bus, Step(s, op).bus) == [] && Step(s, op).bus.dropped == s.bus.dropped
  {
  }

  // ---- Runs ----

  /** The deliveries that failed during the first `n` operations, each counted for the
      subscribers there were at the time. */
  function MissedSoFar(run: seq<State>, n: nat): nat
    requires n < |run|
  {
    if n == 0 then 0
    else MissedSoFar(run, n - 1) + MissedIn(run[n - 1].bus.subscribers, News(run[n - 1].bus, run[n].bus))
  }

  /** The bus counts as dropped exactly the notifications that closed subscribers would
      have received. */
  lemma {:induction false} DroppedAreMissed(run: seq<State>, ops: seq<Op>, n: nat)
    requires IsRun(run, ops) && n < |run|
    ensures run[n].bus.dropped == MissedSoFar(run, n)
  {
    if n > 0 {
      DroppedAreMissed(run, ops, n - 1);
      var s, op := run[n - 1], ops[n - 1];
      assert run[n - 1 + 1] == Step(s, op);
      if op.Listen? || op.Leave? || op.Close? {
        ListenersTellNothing(s, op);
      } else {
        StepTells(s, op);
      }
    }
  }

  lemma ClosedStays(s: State, op: Op, id: SubscriptionId)
    requires id in s.bus.subscribers && !s.bus.subscribers[id].open && Enabled(s, op) && op != Leave(id)
    ensures id in Step(s, op).bus.subscribers && Step(s, op).bus.subscribers[id] == s.bus.subscribers[id]
  {
    if !op.Listen? && !op.Leave? && !op.Close? {
      StepTells(s, op);
    }
  }

  /** The subscription that operation `h` made and operation `i` closed. */
  function Closed(run: seq<State>, ops: seq<Op>, h: nat, i: nat): Subscriber
    requires h < |ops| <= |run| && ops[h].Listen? && i < |run|
    requires |run[h].bus.published| <= |run[i].bus.published|
  {
    Subscriber(ops[h].filter, false, Select(ops[h].filter, run[i].bus.published[|run[h].bus.published|..]))
  }

  lemma ClosingFreezes(run: seq<State>, ops: seq<Op>, h: nat, i: nat)
    requires IsRun(run, ops) && h < i < |ops| && ops[h].Listen? && ops[i] == Close(ops[h].id)
    requires forall k | h < k < i :: ops[k] != Leave(ops[h].id) && ops[k] != Close(ops[h].id)
    ensures |run[h].bus.published| <= |run[i].bus.published|
    ensures ops[h].id in run[i + 1].bus.subscribers
    ensures run[i + 1].bus.subscribers[ops[h].id] == Closed(run, ops, h, i)
  {
    SubscriberReceivesSelection(run, ops, h, i);
    assert run[i + 1] == Step(run[i], ops[i]);
  }

  /** Closing its receiver ends a subscription as far as the subscriber can tell: until it
      is removed, its inbox stays what its filter selected up to then. */
  lemma {:induction false} ClosedInboxStays(run: seq<State>, ops: seq<Op>, h: nat, i: nat, j: nat)
    requires IsRun(run, ops) && h < i < |ops| && i < j < |run|
    requires ops[h].Listen? && ops[i] == Close(ops[h].id)
    requires forall k | h < k < i :: ops[k] != Leave(ops[h].id) && ops[k] != Close(ops[h].id)
    requires forall k | i < k < j :: ops[k] != Leave(ops[h].id)
    ensures |run[h].bus.published| <= |run[i].bus.published|
    ensures ops[h].id in run[j].bus.subscribers && run[j].bus.subscribers[ops[h].id] == Closed(run, ops, h, i)
    decreases j
  {
    if j == i + 1 {
      ClosingFreezes(run, ops, h, i);
    } else {
      ClosedInboxStays(run, ops, h, i, j - 1);
      ClosedStays(run[j - 1], ops[j - 1], ops[h].id);
      assert run[j - 1 + 1] == Step(run[j - 1], ops[j - 1]);
    }
  }

  lemma GoneStays(s: State, op: Op, id: SubscriptionId)
    requires id !in s.bus.subscribers && !(op.Listen? && op.id == id)
    ensures id !in Step(s, op).bus.subscribers
  {
    if !op.Listen? && !op.Leave? && !op.Close? {
      StepTells(s, op);
    }
  }

  /** Unsubscribing ends a subscription: nothing is kept for it or counted as dropped for it
      until the id is subscribed again. */
  lemma {:induction false} LeavingEnds(run: seq<State>, ops: seq<Op>, i: nat, j: nat, id: SubscriptionId)
    requires IsRun(run, ops) && i < |ops| && i < j < |run| && ops[i] == Leave(id)
    requires forall k | i < k < j && ops[k].Listen? :: ops[k].id != id
    ensures id !in run[j].bus.subscribers
    decreases j
  {
    if j > i + 1 {
      LeavingEnds(run, ops, i, j - 1, id);
      GoneStays(run[j - 1], ops[j - 1], id);
    } else {
      LeaveRemoves(run[i], id);
    }
    assert run[j - 1 + 1] == Step(run[j - 1], ops[j - 1]);
  }

  lemma LeaveRemoves(s: State, id: SubscriptionId)
    ensures id !in Step(s, Leave(id)).bus.subscribers
  {
  }
}

/** Change notifications: filters and the bus that distributes them
    (`rabia-kvstore/src/notifications.rs`). A string stands for its UTF-8 bytes. */
module Notifications {
  import opened Types

  datatype ChangeType = Created | Updated | Deleted | Cleared

  datatype Notification = Notification(
    key: string,
    change: ChangeType,
    oldValue: Option<string>,
    newValue: Option<string>,
    version: nat,
    timestamp: nat)

  datatype Filter =
    | All
    | Key(key: string)
    | KeyPrefix(prefix: string)
    | OfType(change: ChangeType)
    | And(filters: seq<Filter>)
    | Or(filters: seq<Filter>)

  predicate Matches(f: Filter, n: Notification) {
    match f
    case All => true
    case Key(key) => n.key == key
    case KeyPrefix(prefix) => prefix <= n.key
    case OfType(change) => n.change == change
    case And(filters) => forall i | 0 <= i < |filters| :: Matches(filters[i], n)
    case Or(filters) => exists i | 0 <= i < |filters| :: Matches(filters[i], n)
  }

  /** The notifications of a stream that a filter lets through, in order. */
  function Select(f: Filter, stream: seq<Notification>): seq<Notification> {
    if stream == [] then []
    else
      var before, n := stream[..|stream| - 1], stream[|stream| - 1];
      Select(f, before) + if Matches(f, n) then [n] else []
  }

  lemma SelectAppend(f: Filter, stream: seq<Notification>, n: Notification)
    ensures Select(f, stream + [n]) == Select(f, stream) + if Matches(f, n) then [n] else []
  {
    assert (stream + [n])[..|stream|] == stream;
  }

  lemma {:induction false} AllSelected(stream: seq<Notification>)
    ensures Select(And([]), stream) == stream
  {
    if stream != [] {
      AllSelected(stream[..|stream| - 1]);
    }
  }

  lemma AndMatches(filters: seq<Filter>, n: Notification)
    requires filters != []
    ensures Matches(And(filters), n) <==> Matches(filters[0], n) && Matches(And(filters[1..]), n)
  {
    assert And(filters[1..]).filters == filters[1..];
    if Matches(filters[0], n) && Matches(And(filters[1..]), n) {
      forall i | 0 <= i < |filters|
        ensures Matches(filters[i], n)
      {
        if i > 0 {
          assert filters[i] == filters[1..][i - 1];
        }
      }
    }
    if Matches(And(filters), n) {
      forall i | 0 <= i < |filters[1..]|
        ensures Matches(filters[1..][i], n)
      {
        assert filters[1..][i] == filters[i + 1];
      }
    }
  }

  lemma {:induction false} AndPeels(filters: seq<Filter>, stream: seq<Notification>)
    requires filters != []
    ensures Select(And(filters), stream) == Select(And(filters[1..]), Select(filters[0], stream))
  {
    if stream != [] {
      var before, n := stream[..|stream| - 1], stream[|stream| - 1];
      AndPeels(filters, before);
      AndMatches(filters, n);
      if Matches(filters[0], n) {
        SelectAppend(And(filters[1..]), Select(filters[0], before), n);
      } else {
        assert Select(filters[0], before) + [] == Select(filters[0], before);
      }
    }
  }

  /** Applying the filters one after the other. */
  function SelectInTurn(filters: seq<Filter>, stream: seq<Notification>): seq<Notification> {
    if filters == [] then stream else SelectInTurn(filters[1..], Select(filters[0], stream))
  }

  /** A conjunction applied to a stream is its members applied one after the other. */
  lemma {:induction false} AndSelectsInTurn(filters: seq<Filter>, stream: seq<Notification>)
    ensures Select(And(filters), stream) == SelectInTurn(filters, stream)
    decreases |filters|
  {
    if filters == [] {
      AllSelected(stream);
    } else {
      AndPeels(filters, stream);
      AndSelectsInTurn(filters[1..], Select(filters[0], stream));
    }
  }

  lemma {:induction false} SelectMembers(f: Filter, stream: seq<Notification>, n: Notification)
    ensures n in Select(f, stream) <==> n in stream && Matches(f, n)
  {
    if stream != [] {
      SelectMembers(f, stream[..|stream| - 1], n);
      assert stream == stream[..|stream| - 1] + [stream[|stream| - 1]];
    }
  }

  /** What each simple filter lets through: everything, one key, the keys that begin with
      the prefix, one kind of change. */
  lemma SimpleFiltersSelect(stream: seq<Notification>, n: Notification, key: string, change: ChangeType)
    ensures n in Select(All, stream) <==> n in stream
    ensures n in Select(Key(key), stream) <==> n in stream && n.key == key
    ensures n in Select(KeyPrefix(key), stream) <==> n in stream && |key| <= |n.key| && n.key[..|key|] == key
    ensures n in Select(OfType(change), stream) <==> n in stream && n.change == change
  {
    SelectMembers(All, stream, n);
    SelectMembers(Key(key), stream, n);
    SelectMembers(KeyPrefix(key), stream, n);
    SelectMembers(OfType(change), stream, n);
  }

  /** A disjunction lets through exactly what one of its members does. */
  lemma OrSelectsAny(filters: seq<Filter>, stream: seq<Notification>, n: Notification)
    ensures n in Select(Or(filters), stream) <==> exists i :: 0 <= i < |filters| && n in Select(filters[i], stream)
  {
    SelectMembers(Or(filters), stream, n);
    forall i | 0 <= i < |filters|
      ensures n in Select(filters[i], stream) <==> n in stream && Matches(filters[i], n)
    {
      SelectMembers(filters[i], stream, n);
    }
    if n in Select(Or(filters), stream) {
      var i :| 0 <= i < |filters| && Matches(filters[i], n);
      assert n in Select(filters[i], stream);
    }
  }

  /** What is let through is a part of the stream, as often and in the order it came. */
  lemma {:induction false} SelectCounts(f: Filter, stream: seq<Notification>, n: Notification)
    ensures multiset(Select(f, stream))[n] == if n in Select(f, stream) then multiset(stream)[n] else 0
    ensures n in Select(f, stream) ==> n in stream
  {
    if stream != [] {
      var before, last := stream[..|stream| - 1], stream[|stream| - 1];
      assert stream == before + [last];
      SelectCounts(f, before, n);
      SelectMembers(f, before, n);
      SelectMembers(f, stream, n);
      NotInNotCounted(before, n);
    }
  }

  lemma NotInNotCounted(stream: seq<Notification>, n: Notification)
    ensures n in stream <==> multiset(stream)[n] > 0
  {
  }

  type SubscriptionId = nat

  /** A subscriber: what it asked for, whether it still listens, what it received. */
  datatype Subscriber = Subscriber(filter: Filter, open: bool, inbox: seq<Notification>)

  /** `published` is the broadcast stream. */
  datatype BusState = BusState(
    published: seq<Notification>,
    subscribers: map<SubscriptionId, Subscriber>,
    totalSubscribers: nat,
    dropped: nat)

  const EMPTY_BUS := BusState([], map[], 0, 0)

  function Receive(s: Subscriber, n: Notification): Subscriber {
    if Matches(s.filter, n) && s.open then s.(inbox := s.inbox + [n]) else s
  }

  /** The subscribers that would get `n` but no longer listen. */
  function Missing(subscribers: map<SubscriptionId, Subscriber>, n: Notification): set<SubscriptionId> {
    set id | id in subscribers && Matches(subscribers[id].filter, n) && !subscribers[id].open
  }

  function Publish(b: BusState, n: Notification): BusState {
    BusState(b.published + [n],
             map id | id in b.subscribers :: Receive(b.subscribers[id], n),
             b.totalSubscribers,
             b.dropped + |Missing(b.subscribers, n)|)
  }

  function Subscribe(b: BusState, id: SubscriptionId, f: Filter): BusState {
    b.(subscribers := b.subscribers[id := Subscriber(f, true, [])], totalSubscribers := b.totalSubscribers + 1)
  }

  function Unsubscribe(b: BusState, id: SubscriptionId): BusState {
    if id in b.subscribers then
      b.(subscribers := b.subscribers - {id}, totalSubscribers := if b.totalSubscribers > 0 then b.totalSubscribers - 1 else 0)
    else b
  }

  /** The subscriber drops its receiver; the bus does not notice until it sends. */
  function HangUp(b: BusState, id: SubscriptionId): BusState {
    if id in b.subscribers then b.(subscribers := b.subscribers[id := b.subscribers[id].(open := false)]) else b
  }

  class NotificationBus {
    var published: seq<Notification>
    var subscribers: map<SubscriptionId, Subscriber>
    var totalSubscribers: nat
    var dropped: nat

    function View(): BusState
      reads this
    {
      BusState(published, subscribers, totalSubscribers, dropped)
    }

    constructor ()
      ensures View() == EMPTY_BUS
    {
      published, subscribers, totalSubscribers, dropped := [], map[], 0, 0;
    }

    /** `id` is the freshly generated subscription id. */
    method AddSubscriber(id: SubscriptionId, f: Filter)
      requires id !in subscribers
      modifies this
      ensures View() == Subscribe(old(View()), id, f)
    {
      subscribers := subscribers[id := Subscriber(f, true, [])];
      totalSubscribers := totalSubscribers + 1;
    }

    method RemoveSubscriber(id: SubscriptionId)
      modifies this
      ensures View() == Unsubscribe(old(View()), id)
    {
      if id in subscribers {
        subscribers := subscribers - {id};
        totalSubscribers := if totalSubscribers > 0 then totalSubscribers - 1 else 0;
      }
    }

    method Send(n: Notification)
      modifies this
      ensures View() == Publish(old(View()), n)
    {
      published := published + [n];
      var after, missed := Deliver(subscribers, n);
      subscribers := after;
      dropped := dropped + missed;
    }
  }

  lemma MissedOneMore(missing: set<SubscriptionId>, todo: set<SubscriptionId>, id: SubscriptionId)
    requires id in todo
    ensures |missing - (todo - {id})| == |missing - todo| + if id in missing then 1 else 0
  {
    if id in missing {
      assert missing - (todo - {id}) == missing - todo + {id};
    } else {
      assert missing - (todo - {id}) == missing - todo;
    }
  }

  /** All subscribers but those in `todo` have been visited. */
  ghost predicate VisitedBut(todo: set<SubscriptionId>, before: map<SubscriptionId, Subscriber>,
                             after: map<SubscriptionId, Subscriber>, n: Notification) {
    && todo <= before.Keys == after.Keys
    && forall id | id in before :: after[id] == if id in todo then before[id] else Receive(before[id], n)
  }

  lemma VisitOneMore(todo: set<SubscriptionId>, before: map<SubscriptionId, Subscriber>,
                     after: map<SubscriptionId, Subscriber>, n: Notification, id: SubscriptionId)
    requires VisitedBut(todo, before, after, n) && id in todo
    ensures VisitedBut(todo - {id}, before, after[id := Receive(before[id], n)], n)
  {
  }

  /** Subscribers are visited in an arbitrary order. */
  method Deliver(before: map<SubscriptionId, Subscriber>, n: Notification)
    returns (after: map<SubscriptionId, Subscriber>, missed: nat)
    ensures after == map id | id in before :: Receive(before[id], n)
    ensures missed == |Missing(before, n)|
  {
    after, missed := before, 0;
    ghost var missing := Missing(before, n);
    var todo := before.Keys;
    assert missing - todo == {};
    while todo != {}
      invariant VisitedBut(todo, before, after, n)
      invariant missed == |missing - todo|
      decreases todo
    {
      var id :| id in todo;
      var s := before[id];
      VisitOneMore(todo, before, after, n, id);
      MissedOneMore(missing, todo, id);
      if Matches(s.filter, n) {
        if s.open {
          s := s.(inbox := s.inbox + [n]);
        } else {
          missed := missed + 1;
        }
      }
      after := after[id := s];
      todo := todo - {id};
    }
    assert missing - {} == missing;
  }
}

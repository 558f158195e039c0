/** What a listener can rebuild from the notifications of a store. */
module KvReplay {
  import opened Types
  import opened Notifications
  import opened KvStore

  /** The part of the data a listener can know: value and version of each key. */
  type Contents = map<string, (string, nat)>

  function ContentsOf(data: map<string, ValueEntry>): Contents {
    map k | k in data :: (data[k].value, data[k].version)
  }

  function ReplayOne(m: Contents, n: Notification): Contents {
    match n.change
    case Created => if n.newValue.Some? then m[n.key := (n.newValue.value, 1)] else m
    case Updated => if n.newValue.Some? && n.key in m then m[n.key := (n.newValue.value, m[n.key].1 + 1)] else m
    case Deleted => m - {n.key}
    case Cleared => map[]
  }

  function Replay(stream: seq<Notification>): Contents {
    if stream == [] then map[] else ReplayOne(Replay(stream[..|stream| - 1]), stream[|stream| - 1])
  }

  /** The notification fits the contents it is published over: its kind, and the old
      value it reports. */
  ghost predicate Describes(m: Contents, n: Notification) {
    match n.change
    case Created => n.key !in m && n.oldValue == None && n.newValue.Some?
    case Updated => n.key in m && n.oldValue == Some(m[n.key].0) && n.newValue.Some?
    case Deleted => n.key in m && n.oldValue == Some(m[n.key].0) && n.newValue == None
    case Cleared => m != map[] && n.key == "*" && n.oldValue == Some(KeysText(|m|)) && n.newValue == None
  }

  /** Each notification describes the contents replayed from those before it, and
      carries its position as version. */
  ghost predicate Faithful(stream: seq<Notification>) {
    stream == [] ||
    (var before, n := stream[..|stream| - 1], stream[|stream| - 1];
     Faithful(before) && Describes(Replay(before), n) && n.version == |before|)
  }

  lemma StreamAppend(stream: seq<Notification>, n: Notification)
    ensures Replay(stream + [n]) == ReplayOne(Replay(stream), n)
    ensures Faithful(stream + [n]) <==> Faithful(stream) && Describes(Replay(stream), n) && n.version == |stream|
  {
    assert (stream + [n])[..|stream|] == stream;
  }

  // ---- Runs ----

  datatype Op = Operation(op: KVOperation, now: nat) | Batch(ops: seq<KVOperation>, now: nat) | ClearStore(now: nat)
              | Listen(id: SubscriptionId, filter: Filter) | Leave(id: SubscriptionId) | Close(id: SubscriptionId)

  /** A subscription id is generated afresh for every subscription. */
  predicate Enabled(s: State, op: Op) {
    op.Listen? ==> op.id !in s.bus.subscribers
  }

  function Step(s: State, op: Op): State {
    match op
    case Operation(o, now) => Operate(s, o, now).0
    case Batch(ops, now) => ApplyBatch(s, ops, now).0
    case ClearStore(now) => Clear(s, now)
    case Listen(id, f) => s.(bus := Subscribe(s.bus, id, f))
    case Leave(id) => s.(bus := Unsubscribe(s.bus, id))
    case Close(id) => s.(bus := HangUp(s.bus, id))
  }

  ghost predicate IsRun(run: seq<State>, ops: seq<Op>) {
    && |run| == |ops| + 1
    && run[0] == New(run[0].config) && run[0].config.enableNotifications
    && forall i | 0 <= i < |ops| :: Enabled(run[i], ops[i]) && run[i + 1] == Step(run[i], ops[i])
  }

  // ---- Replay rebuilds the store ----

  ghost predicate KeysValid(s: State) {
    && (forall k | k in s.data :: |k| <= 256)
    && (forall i | 0 <= i < |s.bus.published| && s.bus.published[i].change != Cleared :: |s.bus.published[i].key| <= 256)
  }

  ghost predicate Mirrored(s: State) {
    && s.config.enableNotifications
    && s.version == |s.bus.published|
    && Faithful(s.bus.published)
    && Replay(s.bus.published) == ContentsOf(s.data)
    && KeysValid(s)
  }

  /** Publishing a notification that describes the contents over which it is published
      and leads to the new data keeps the mirror. */
  lemma AnnouncementMirrors(s: State, s': State, n: Notification)
    requires Mirrored(s) && s'.config == s.config && s'.version == s.version + 1
    requires s'.bus.published == s.bus.published + [n] && n.version == s.version
    requires Describes(ContentsOf(s.data), n) && ReplayOne(ContentsOf(s.data), n) == ContentsOf(s'.data)
    requires n.change != Cleared ==> |n.key| <= 256
    requires forall k | k in s'.data :: |k| <= 256
    ensures Mirrored(s')
  {
    StreamAppend(s.bus.published, n);
  }

  lemma ContentsAfterSet(data: map<string, ValueEntry>, key: string, e: ValueEntry)
    ensures ContentsOf(data[key := e]) == ContentsOf(data)[key := (e.value, e.version)]
  {
  }

  function SetNotice(s: State, key: string, value: string, now: nat): Notification {
    if key in s.data then Notification(key, Updated, Some(s.data[key].value), Some(value), s.version, now)
    else Notification(key, Created, None, Some(value), s.version, now)
  }

  lemma SetNoticeDescribes(s: State, key: string, value: string, now: nat)
    ensures var n := SetNotice(s, key, value, now);
            && Describes(ContentsOf(s.data), n)
            && ReplayOne(ContentsOf(s.data), n) == ContentsOf(s.data[key := Written(s, key, value, now)])
  {
    ContentsAfterSet(s.data, key, Written(s, key, value, now));
  }

  lemma SetMirrors(s: State, key: string, value: string, now: nat)
    requires Mirrored(s)
    ensures Mirrored(Set(s, key, value, now).0)
  {
    var s' := Set(s, key, value, now).0;
    if Set(s, key, value, now).1.Ok? {
      SetNoticeDescribes(s, key, value, now);
      AnnouncementMirrors(s, s', SetNotice(s, key, value, now));
    }
  }

  lemma DeleteMirrors(s: State, key: string, now: nat)
    requires Mirrored(s)
    ensures Mirrored(Delete(s, key, now).0)
  {
    var s' := Delete(s, key, now).0;
    if key in s.data && KeyValid(key) {
      assert ContentsOf(s'.data) == ContentsOf(s.data) - {key};
      AnnouncementMirrors(s, s', s'.bus.published[|s.bus.published|]);
    } else {
      assert s'.data == s.data;
    }
  }

  lemma ClearMirrors(s: State, now: nat)
    requires Mirrored(s)
    ensures Mirrored(Clear(s, now))
  {
    var s' := Clear(s, now);
    if |s.data| > 0 {
      assert ContentsOf(s.data).Keys == s.data.Keys;
      assert |ContentsOf(s.data)| == |ContentsOf(s.data).Keys| == |s.data.Keys| == |s.data|;
      AnnouncementMirrors(s, s', s'.bus.published[|s.bus.published|]);
    } else {
      assert s'.data == s.data;
    }
  }

  lemma OperateMirrors(s: State, op: KVOperation, now: nat)
    requires Mirrored(s)
    ensures Mirrored(Operate(s, op, now).0)
  {
    match op {
      case SetOp(key, value) => SetMirrors(s, key, value, now);
      case DeleteOp(key) => DeleteMirrors(s, key, now);
      case GetOp(_) =>
      case ExistsOp(_) =>
    }
  }

  lemma {:induction false} BatchMirrors(s: State, ops: seq<KVOperation>, now: nat)
    requires Mirrored(s)
    ensures Mirrored(ApplyBatch(s, ops, now).0)
  {
    if ops != [] {
      BatchMirrors(s, ops[..|ops| - 1], now);
      OperateMirrors(ApplyBatch(s, ops[..|ops| - 1], now).0, ops[|ops| - 1], now);
    }
  }

  lemma StepMirrors(s: State, op: Op)
    requires Mirrored(s)
    ensures Mirrored(Step(s, op))
  {
    match op {
      case Operation(o, now) => OperateMirrors(s, o, now);
      case Batch(ops, now) => BatchMirrors(s, ops, now);
      case ClearStore(now) => ClearMirrors(s, now);
      case Listen(_, _) =>
      case Leave(_) =>
      case Close(_) =>
    }
  }

  /** Replaying everything published so far over an empty map gives the store's values
      and entry versions; every old value reported was the replayed one; versions count
      the notifications from zero, so they strictly increase. */
  lemma {:induction false} ReplayRebuildsStore(run: seq<State>, ops: seq<Op>, i: nat)
    requires IsRun(run, ops) && i < |run|
    ensures Mirrored(run[i])
  {
    if i > 0 {
      ReplayRebuildsStore(run, ops, i - 1);
      StepMirrors(run[i - 1], ops[i - 1]);
      assert run[i - 1 + 1] == Step(run[i - 1], ops[i - 1]);
    }
  }

  lemma {:induction false} VersionsCount(stream: seq<Notification>, i: nat)
    requires Faithful(stream) && i < |stream|
    ensures stream[i].version == i && Describes(Replay(stream[..i]), stream[i])
  {
    var before := stream[..|stream| - 1];
    if i < |before| {
      VersionsCount(before, i);
      assert before[..i] == stream[..i];
    }
  }

  // ---- What a subscriber receives ----

  /** A listener that joined with nothing missed since `start` has exactly what its
      filter selects from the stream published since. */
  ghost predicate UpToDate(b: BusState, id: SubscriptionId, f: Filter, start: nat) {
    && id in b.subscribers && start <= |b.published|
    && b.subscribers[id] == Subscriber(f, true, Select(f, b.published[start..]))
  }

  lemma PublishKeepsUpToDate(b: BusState, n: Notification, id: SubscriptionId, f: Filter, start: nat)
    requires UpToDate(b, id, f, start)
    ensures UpToDate(Publish(b, n), id, f, start)
  {
    assert Publish(b, n).published[start..] == b.published[start..] + [n];
    SelectAppend(f, b.published[start..], n);
    assert b.subscribers[id].inbox + [] == b.subscribers[id].inbox;
  }

  lemma OperateKeepsUpToDate(s: State, op: KVOperation, now: nat, id: SubscriptionId, f: Filter, start: nat)
    requires UpToDate(s.bus, id, f, start)
    ensures UpToDate(Operate(s, op, now).0.bus, id, f, start)
  {
    var s' := Operate(s, op, now).0;
    if s'.bus != s.bus {
      PublishKeepsUpToDate(s.bus, s'.bus.published[|s.bus.published|], id, f, start);
    }
  }

  lemma {:induction false} BatchKeepsUpToDate(s: State, ops: seq<KVOperation>, now: nat,
                                              id: SubscriptionId, f: Filter, start: nat)
    requires UpToDate(s.bus, id, f, start)
    ensures UpToDate(ApplyBatch(s, ops, now).0.bus, id, f, start)
  {
    if ops != [] {
      BatchKeepsUpToDate(s, ops[..|ops| - 1], now, id, f, start);
      OperateKeepsUpToDate(ApplyBatch(s, ops[..|ops| - 1], now).0, ops[|ops| - 1], now, id, f, start);
    }
  }

  lemma StepKeepsUpToDate(s: State, op: Op, id: SubscriptionId, f: Filter, start: nat)
    requires UpToDate(s.bus, id, f, start) && Enabled(s, op) && op != Leave(id) && op != Close(id)
    ensures UpToDate(Step(s, op).bus, id, f, start)
  {
    match op {
      case Operation(o, now) => OperateKeepsUpToDate(s, o, now, id, f, start);
      case Batch(ops, now) => BatchKeepsUpToDate(s, ops, now, id, f, start);
      case ClearStore(now) =>
        var s' := Step(s, op);
        if s'.bus != s.bus {
          PublishKeepsUpToDate(s.bus, s'.bus.published[|s.bus.published|], id, f, start);
        }
      case Listen(_, _) =>
      case Leave(_) =>
      case Close(_) =>
    }
  }

  /** From the moment it subscribes until it leaves or closes its receiver, a listener receives exactly the
      published notifications its filter matches, each once and in order. */
  lemma {:induction false} SubscriberReceivesSelection(run: seq<State>, ops: seq<Op>, i: nat, j: nat)
    requires IsRun(run, ops) && i < |ops| && i < j < |run|
    requires ops[i].Listen?
    requires forall k | i < k < j :: ops[k] != Leave(ops[i].id) && ops[k] != Close(ops[i].id)
    ensures UpToDate(run[j].bus, ops[i].id, ops[i].filter, |run[i].bus.published|)
    decreases j
  {
    if j == i + 1 {
      var b := run[i + 1].bus;
      assert b.published[|run[i].bus.published|..] == [];
    } else {
      SubscriberReceivesSelection(run, ops, i, j - 1);
      StepKeepsUpToDate(run[j - 1], ops[j - 1], ops[i].id, ops[i].filter, |run[i].bus.published|);
      assert run[j - 1 + 1] == Step(run[j - 1], ops[j - 1]);
    }
  }

  // ---- Prefix listeners ----

  function WithPrefix(m: Contents, prefix: string): Contents {
    map k | k in m && prefix <= k :: m[k]
  }

  /** No clear went by that the listener's filter would not show it. */
  ghost predicate ClearsSeen(stream: seq<Notification>, prefix: string) {
    forall i | 0 <= i < |stream| && stream[i].change == Cleared :: prefix <= "*"
  }

  lemma ReplayOneWithPrefix(m: Contents, n: Notification, prefix: string)
    requires n.change == Cleared ==> n.key == "*" && prefix <= "*"
    ensures WithPrefix(ReplayOne(m, n), prefix) ==
            if prefix <= n.key then ReplayOne(WithPrefix(m, prefix), n) else WithPrefix(m, prefix)
  {
  }

  lemma {:induction false} ReplaySelection(stream: seq<Notification>, prefix: string)
    requires Faithful(stream) && ClearsSeen(stream, prefix)
    ensures Replay(Select(KeyPrefix(prefix), stream)) == WithPrefix(Replay(stream), prefix)
  {
    if stream != [] {
      var before, n := stream[..|stream| - 1], stream[|stream| - 1];
      assert forall i | 0 <= i < |before| :: before[i] == stream[i];
      ReplaySelection(before, prefix);
      ReplayOneWithPrefix(Replay(before), n, prefix);
      var selected := Select(KeyPrefix(prefix), before);
      if prefix <= n.key {
        StreamAppend(selected, n);
      } else {
        assert selected + [] == selected;
      }
    }
  }

  /** Subscriber `id` can rebuild the keys of its prefix from what it received. */
  ghost predicate SeesItsKeys(s: State, id: SubscriptionId, prefix: string) {
    && id in s.bus.subscribers
    && Replay(s.bus.subscribers[id].inbox) == WithPrefix(ContentsOf(s.data), prefix)
  }

  /** Subscriber `id` listens to a prefix from before the first notification, since
      operation `i`, until the state after operation `j - 1`. */
  ghost predicate ListensFrom(run: seq<State>, ops: seq<Op>, i: nat, j: nat, id: SubscriptionId, prefix: string) {
    && i < |ops| < |run| && i < j < |run|
    && ops[i] == Listen(id, KeyPrefix(prefix)) && run[i].bus.published == []
    && forall k | i < k < j && k < |ops| :: ops[k] != Leave(id) && ops[k] != Close(id)
  }

  lemma InboxIsSelection(run: seq<State>, ops: seq<Op>, i: nat, j: nat, id: SubscriptionId, prefix: string)
    requires IsRun(run, ops) && ListensFrom(run, ops, i, j, id, prefix)
    ensures id in run[j].bus.subscribers
    ensures run[j].bus.subscribers[id].inbox == Select(KeyPrefix(prefix), run[j].bus.published)
  {
    SubscriberReceivesSelection(run, ops, i, j);
    assert run[j].bus.published[0..] == run[j].bus.published;
  }

  /** A listener for a prefix, present from the start, rebuilds the store restricted to
      its keys, in every run in which nothing is cleared that its filter hides. */
  lemma PrefixListenerRebuilds(run: seq<State>, ops: seq<Op>, i: nat, j: nat, id: SubscriptionId, prefix: string)
    requires IsRun(run, ops) && ListensFrom(run, ops, i, j, id, prefix) && ClearsSeen(run[j].bus.published, prefix)
    ensures SeesItsKeys(run[j], id, prefix)
  {
    ReplayRebuildsStore(run, ops, j);
    ReplaySelection(run[j].bus.published, prefix);
    InboxIsSelection(run, ops, i, j, id, prefix);
  }

  lemma {:induction false} NothingSelected(stream: seq<Notification>, prefix: string)
    requires forall i | 0 <= i < |stream| :: !(prefix <= stream[i].key)
    ensures Select(KeyPrefix(prefix), stream) == []
  {
    if stream != [] {
      NothingSelected(stream[..|stream| - 1], prefix);
    }
  }

  lemma LongPrefixSeesNothing(s: State, prefix: string)
    requires Mirrored(s) && |prefix| > 256
    ensures Select(KeyPrefix(prefix), s.bus.published) == [] && WithPrefix(ContentsOf(s.data), prefix) == map[]
  {
    forall i | 0 <= i < |s.bus.published|
      ensures !(prefix <= s.bus.published[i].key)
    {
      if s.bus.published[i].change == Cleared {
        VersionsCount(s.bus.published, i);
      }
    }
    NothingSelected(s.bus.published, prefix);
  }

  ghost predicate NothingHappened(c: Config, s: State) {
    s.data == map[] && s.bus.published == [] && s.config == c
  }

  lemma FullOperateStaysEmpty(c: Config, s: State, op: KVOperation, now: nat)
    requires NothingHappened(c, s) && c.maxKeys == 0
    ensures NothingHappened(c, Operate(s, op, now).0)
  {
  }

  lemma {:induction false} FullBatchStaysEmpty(c: Config, s: State, ops: seq<KVOperation>, now: nat)
    requires NothingHappened(c, s) && c.maxKeys == 0
    ensures NothingHappened(c, ApplyBatch(s, ops, now).0)
  {
    if ops != [] {
      FullBatchStaysEmpty(c, s, ops[..|ops| - 1], now);
      FullOperateStaysEmpty(c, ApplyBatch(s, ops[..|ops| - 1], now).0, ops[|ops| - 1], now);
    }
  }

  lemma {:induction false} FullStoreStaysEmpty(run: seq<State>, ops: seq<Op>, i: nat)
    requires IsRun(run, ops) && i < |run| && run[0].config.maxKeys == 0
    ensures NothingHappened(run[0].config, run[i])
  {
    if i > 0 {
      FullStoreStaysEmpty(run, ops, i - 1);
      var c, s, op := run[0].config, run[i - 1], ops[i - 1];
      assert run[i - 1 + 1] == Step(s, op);
      match op {
        case Operation(o, now) => FullOperateStaysEmpty(c, s, o, now);
        case Batch(os, now) => FullBatchStaysEmpty(c, s, os, now);
        case _ =>
      }
    }
  }

  lemma SetThenClear(s: State, key: string)
    requires s.config.enableNotifications && s.config.maxKeys > 0 && KeyValid(key)
    requires s.data == map[] && s.version == 0 && s.bus.published == []
    ensures var s1 := Set(s, key, "", 0).0;
            && s1.bus.published == [Notification(key, Created, None, Some(""), 0, 0)]
            && |s1.data| == 1
            && Clear(s1, 0).data == map[]
            && Clear(s1, 0).bus.published == s1.bus.published + [Notification("*", Cleared, Some(KeysText(1)), None, 1, 0)]
  {
    var s1 := Set(s, key, "", 0).0;
    assert s1.data.Keys == {key};
    assert |s1.data| == |s1.data.Keys|;
  }

  lemma CreatedStaysSelected(created: Notification, cleared: Notification)
    requires created.change == Created && created.newValue.Some? && !(created.key <= cleared.key)
    ensures created.key in Replay(Select(KeyPrefix(created.key), [created] + [cleared]))
  {
    var f, one := KeyPrefix(created.key), [created];
    assert Select(f, one + [cleared]) == one by {
      SelectAppend(f, one, cleared);
      SelectAppend(f, [], created);
      assert [] + [created] == one && one + [] == one;
    }
    assert created.key in Replay(one) by {
      StreamAppend([], created);
      assert [] + [created] == one;
    }
  }

  lemma ListenSetClear(c: Config, id: SubscriptionId, prefix: string) returns (run: seq<State>, ops: seq<Op>)
    requires c.enableNotifications && c.maxKeys > 0 && KeyValid(prefix)
    ensures IsRun(run, ops) && |run| == 4 && run[0].config == c && ListensFrom(run, ops, 0, 3, id, prefix)
    ensures run[3].data == map[]
    ensures run[3].bus.published == [Notification(prefix, Created, None, Some(""), 0, 0)]
                                    + [Notification("*", Cleared, Some(KeysText(1)), None, 1, 0)]
  {
    ops := [Listen(id, KeyPrefix(prefix)), Operation(SetOp(prefix, ""), 0), ClearStore(0)];
    var s1 := Step(New(c), ops[0]);
    SetThenClear(s1, prefix);
    var s2 := Step(s1, ops[1]);
    run := [New(c), s1, s2, Step(s2, ops[2])];
  }

  /** A listener joins, a key with its prefix is set and the store cleared: the listener
      still takes the key to be there. */
  lemma HiddenClear(c: Config, id: SubscriptionId, prefix: string) returns (run: seq<State>, ops: seq<Op>)
    requires c.enableNotifications && c.maxKeys > 0 && |prefix| <= 256 && !(prefix <= "*")
    ensures IsRun(run, ops) && |run| == 4 && run[0].config == c && ListensFrom(run, ops, 0, 3, id, prefix)
    ensures !SeesItsKeys(run[3], id, prefix)
  {
    run, ops := ListenSetClear(c, id, prefix);
    InboxIsSelection(run, ops, 0, 3, id, prefix);
    CreatedStaysSelected(run[3].bus.published[0], run[3].bus.published[1]);
    assert prefix !in WithPrefix(ContentsOf(run[3].data), prefix);
  }

  /** The prefixes a listener can rely on in every run of a store: those that the clear
      notification's key "*" starts with, those no key can have, and all of them when the
      store can hold no key. */
  predicate Reliable(c: Config, prefix: string) {
    prefix <= "*" || |prefix| > 256 || c.maxKeys == 0
  }

  lemma ReliableSees(c: Config, run: seq<State>, ops: seq<Op>, i: nat, j: nat, id: SubscriptionId, prefix: string)
    requires IsRun(run, ops) && run[0].config == c && ListensFrom(run, ops, i, j, id, prefix) && Reliable(c, prefix)
    ensures SeesItsKeys(run[j], id, prefix)
  {
    if prefix <= "*" {
      PrefixListenerRebuilds(run, ops, i, j, id, prefix);
    } else {
      InboxIsSelection(run, ops, i, j, id, prefix);
      if |prefix| > 256 {
        ReplayRebuildsStore(run, ops, j);
        LongPrefixSeesNothing(run[j], prefix);
      } else {
        FullStoreStaysEmpty(run, ops, j);
        assert WithPrefix(ContentsOf(run[j].data), prefix) == map[];
      }
    }
  }

  /** Exactly the reliable prefixes let every listener rebuild its keys in every run. */
  lemma PrefixListenerRebuildsIff(c: Config, prefix: string)
    requires c.enableNotifications
    ensures Reliable(c, prefix) <==>
            forall run: seq<State>, ops: seq<Op>, i: nat, j: nat, id: SubscriptionId
              | IsRun(run, ops) && run[0].config == c && ListensFrom(run, ops, i, j, id, prefix) ::
              SeesItsKeys(run[j], id, prefix)
  {
    if Reliable(c, prefix) {
      forall run: seq<State>, ops: seq<Op>, i: nat, j: nat, id: SubscriptionId
        | IsRun(run, ops) && run[0].config == c && ListensFrom(run, ops, i, j, id, prefix)
        ensures SeesItsKeys(run[j], id, prefix)
      {
        ReliableSees(c, run, ops, i, j, id, prefix);
      }
    } else {
      var run, ops := HiddenClear(c, 0, prefix);
      assert !SeesItsKeys(run[3], 0, prefix);
    }
  }
}

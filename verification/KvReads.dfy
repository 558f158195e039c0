/** What the key-value store answers, told from the notifications it has published or from
    the operations before: reads, deletes, sets, and the results of a batch. */
module KvReads {
  import opened Types
  import opened Notifications
  import opened KvStore
  import opened KvBatch
  import opened KvReplay

  // ---- Answers told from the stream ----

  lemma KeysInStep(s: State)
    requires Mirrored(s)
    ensures var m := Replay(s.bus.published);
            && m.Keys == s.data.Keys && |m| == |s.data|
            && forall k | k in m :: m[k].0 == s.data[k].value
  {
    var m := Replay(s.bus.published);
    assert m == ContentsOf(s.data);
    assert m.Keys == s.data.Keys;
    assert |m| == |m.Keys| && |s.data| == |s.data.Keys|;
  }

  /** The error for a key that is not allowed, if it is not. */
  ghost predicate KeyRefused(key: string, error: StoreError) {
    error == InvalidKey(if key == "" then "Key cannot be empty" else "Key too long")
  }

  /** A get or an existence check answers what the replayed stream holds. */
  lemma ReadsAnswer(run: seq<State>, ops: seq<Op>, i: nat, key: string)
    requires IsRun(run, ops) && i < |run|
    ensures var m := Replay(run[i].bus.published);
            if 0 < |key| <= 256 then
              && Get(run[i], key).1 == Ok(if key in m then Some(m[key].0) else None)
              && Exists(run[i], key).1 == Ok(key in m)
            else
              && Get(run[i], key).1.Err? && KeyRefused(key, Get(run[i], key).1.error)
              && Exists(run[i], key).1.Err? && KeyRefused(key, Exists(run[i], key).1.error)
    ensures Get(run[i], key).0.data == Exists(run[i], key).0.data == run[i].data
    ensures Get(run[i], key).0.bus == Exists(run[i], key).0.bus == run[i].bus
  {
    ReplayRebuildsStore(run, ops, i);
    KeysInStep(run[i]);
  }

  /** A delete answers whether the replayed stream held the key. */
  lemma DeleteAnswers(run: seq<State>, ops: seq<Op>, i: nat, key: string, now: nat)
    requires IsRun(run, ops) && i < |run|
    ensures var m, r := Replay(run[i].bus.published), Delete(run[i], key, now).1;
            if 0 < |key| <= 256 then r == Ok(if key in m then Success else NotFound)
            else r.Err? && KeyRefused(key, r.error)
  {
    ReplayRebuildsStore(run, ops, i);
    KeysInStep(run[i]);
  }

  /** A set succeeds unless the key is not allowed, the value too large, or the key new and
      the store full. */
  lemma SetAnswers(run: seq<State>, ops: seq<Op>, i: nat, key: string, value: string, now: nat)
    requires IsRun(run, ops) && i < |run|
    ensures var m, r := Replay(run[i].bus.published), Set(run[i], key, value, now).1;
            if !(0 < |key| <= 256) then r.Err? && KeyRefused(key, r.error)
            else if |value| > run[0].config.maxValueSize then r == Err(ValueTooLarge)
            else if key !in m && |m| >= run[0].config.maxKeys then r == Err(StoreFull)
            else r == Ok(Success)
  {
    ReplayRebuildsStore(run, ops, i);
    KeysInStep(run[i]);
    ConfigStays(run, ops, i);
  }

  lemma {:induction false} ConfigStays(run: seq<State>, ops: seq<Op>, i: nat)
    requires IsRun(run, ops) && i < |run|
    ensures run[i].config == run[0].config
  {
    if i > 0 {
      ConfigStays(run, ops, i - 1);
      assert run[i - 1 + 1] == Step(run[i - 1], ops[i - 1]);
      if ops[i - 1].Batch? {
        BatchForeseen(run[i - 1], ops[i - 1].ops, ops[i - 1].now);
      }
    }
  }

  // ---- Answers told from the operations ----

  type Values = map<string, string>

  function ValuesOf(data: map<string, ValueEntry>): Values {
    map k | k in data :: data[k].value
  }

  function WriteTo(m: Values, op: KVOperation): Values {
    match op
    case SetOp(key, value) => m[key := value]
    case DeleteOp(key) => m - {key}
    case _ => m
  }

  /** An accepted operation writes its own key and no other; a refused one none. */
  lemma OperateWritesValues(s: State, op: KVOperation, now: nat)
    ensures ValuesOf(Operate(s, op, now).0.data) ==
            if Operate(s, op, now).1.Ok? then WriteTo(ValuesOf(s.data), op) else ValuesOf(s.data)
  {
    match op {
      case SetOp(key, value) =>
      case DeleteOp(key) =>
      case _ =>
    }
  }

  /** What an accepted operation answers: a set succeeds, and the others tell whether the
      key is there. */
  function Told(m: Values, op: KVOperation): KVResult {
    if op.SetOp? || op.key in m then Success else NotFound
  }

  lemma OperateTells(s: State, op: KVOperation, now: nat)
    requires Operate(s, op, now).1.Ok?
    ensures Operate(s, op, now).1.value == Told(ValuesOf(s.data), op)
  {
  }

  function AllWritten(m: Values, ops: seq<KVOperation>): Values {
    if ops == [] then m else WriteTo(AllWritten(m, ops[..|ops| - 1]), ops[|ops| - 1])
  }

  lemma BatchSplits(s: State, ops: seq<KVOperation>, now: nat)
    requires ops != [] && ApplyBatch(s, ops, now).1.Ok?
    ensures var before, op := ApplyBatch(s, ops[..|ops| - 1], now), ops[|ops| - 1];
            && before.1.Ok?
            && Operate(before.0, op, now).1.Ok?
            && ApplyBatch(s, ops, now) ==
               (Operate(before.0, op, now).0, Ok(before.1.value + [Operate(before.0, op, now).1.value]))
  {
  }

  /** A batch that succeeds leaves the values its operations wrote, one after the other. */
  lemma {:induction false} BatchWritesValues(s: State, ops: seq<KVOperation>, now: nat)
    requires ApplyBatch(s, ops, now).1.Ok?
    ensures ValuesOf(ApplyBatch(s, ops, now).0.data) == AllWritten(ValuesOf(s.data), ops)
    ensures |ApplyBatch(s, ops, now).1.value| == |ops|
  {
    if ops != [] {
      BatchSplits(s, ops, now);
      BatchWritesValues(s, ops[..|ops| - 1], now);
      OperateWritesValues(ApplyBatch(s, ops[..|ops| - 1], now).0, ops[|ops| - 1], now);
    }
  }

  /** And it answers each operation as if those before it had been applied one by one. */
  lemma {:induction false} BatchAnswers(s: State, ops: seq<KVOperation>, now: nat, k: nat)
    requires ApplyBatch(s, ops, now).1.Ok? && k < |ops|
    ensures |ApplyBatch(s, ops, now).1.value| == |ops|
    ensures ApplyBatch(s, ops, now).1.value[k] == Told(AllWritten(ValuesOf(s.data), ops[..k]), ops[k])
    decreases |ops|
  {
    var most, op := ops[..|ops| - 1], ops[|ops| - 1];
    BatchSplits(s, ops, now);
    BatchWritesValues(s, most, now);
    if k < |most| {
      BatchAnswers(s, most, now, k);
      assert most[..k] == ops[..k];
    } else {
      OperateTells(ApplyBatch(s, most, now).0, op, now);
    }
  }

  /** An entry remembers its value's size and its times; other entries are left alone. */
  lemma SetStamps(s: State, key: string, value: string, now: nat)
    requires Set(s, key, value, now).1.Ok?
    ensures var s' := Set(s, key, value, now).0;
            && key in s'.data && s'.data[key].value == value && s'.data[key].size == |value|
            && s'.data[key].updatedAt == now
            && s'.data[key].createdAt == (if key in s.data then s.data[key].createdAt else now)
            && s'.data[key].version == (if key in s.data then s.data[key].version + 1 else 1)
            && s'.data - {key} == s.data - {key}
  {
  }

  /** Each accepted operation is counted once, refused ones are not. */
  lemma OperationCounted(s: State, op: KVOperation, now: nat)
    ensures Operate(s, op, now).0.totalOperations ==
            s.totalOperations + if Operate(s, op, now).1.Ok? then 1 else 0
    ensures Clear(s, now).totalOperations == s.totalOperations + 1
  {
  }

  lemma {:induction false} BatchCounted(s: State, ops: seq<KVOperation>, now: nat)
    ensures s.totalOperations <= ApplyBatch(s, ops, now).0.totalOperations <= s.totalOperations + |ops|
    ensures ApplyBatch(s, ops, now).1.Ok? ==> ApplyBatch(s, ops, now).0.totalOperations == s.totalOperations + |ops|
  {
    if ops != [] {
      BatchCounted(s, ops[..|ops| - 1], now);
      OperationCounted(ApplyBatch(s, ops[..|ops| - 1], now).0, ops[|ops| - 1], now);
    }
  }

  /** A clear leaves nothing to read. */
  lemma ClearEmpties(s: State, key: string, now: nat)
    requires 0 < |key| <= 256
    ensures Get(Clear(s, now), key).1 == Ok(None)
  {
  }

  /** Without notifications nothing is ever published; with them, by the clock. */
  lemma AnnouncedNow(s: State, op: KVOperation, now: nat)
    ensures !s.config.enableNotifications ==> Operate(s, op, now).0.bus == s.bus && Clear(s, now).bus == s.bus
    ensures var p := Operate(s, op, now).0.bus.published;
            |p| > |s.bus.published| ==> p == s.bus.published + [p[|s.bus.published|]] && p[|s.bus.published|].timestamp == now
    ensures var p := Clear(s, now).bus.published;
            |p| > |s.bus.published| ==> p == s.bus.published + [p[|s.bus.published|]] && p[|s.bus.published|].timestamp == now
  {
  }

  // ---- The text of a clear, and the count of subscribers ----

  function ReadDigit(c: char): int {
    c as int - '0' as int
  }

  function ReadDecimal(text: string): int {
    if text == "" then 0 else 10 * ReadDecimal(text[..|text| - 1]) + ReadDigit(text[|text| - 1])
  }

  lemma DigitReads(d: nat)
    requires d < 10
    ensures ReadDigit(Digit(d)) == d
  {
    assert d in {0, 1, 2, 3, 4, 5, 6, 7, 8, 9};
  }

  /** The number of keys in a clear notification can be read back. */
  lemma {:induction false} DecimalReads(n: nat)
    ensures ReadDecimal(Decimal(n)) == n && Decimal(n) != ""
  {
    DigitReads(n % 10);
    if n < 10 {
      assert [Digit(n)][..0] == "";
    } else {
      DecimalReads(n / 10);
      assert Decimal(n)[..|Decimal(n)| - 1] == Decimal(n / 10);
    }
  }

  /** Nobody came or went. */
  ghost predicate SameAudience(b: BusState, b': BusState) {
    b'.subscribers.Keys == b.subscribers.Keys && b'.totalSubscribers == b.totalSubscribers
  }

  lemma OperateKeepsAudience(s: State, op: KVOperation, now: nat)
    ensures SameAudience(s.bus, Operate(s, op, now).0.bus) && SameAudience(s.bus, Clear(s, now).bus)
  {
  }

  lemma {:induction false} BatchKeepsAudience(s: State, ops: seq<KVOperation>, now: nat)
    ensures SameAudience(s.bus, ApplyBatch(s, ops, now).0.bus)
  {
    if ops != [] {
      BatchKeepsAudience(s, ops[..|ops| - 1], now);
      OperateKeepsAudience(ApplyBatch(s, ops[..|ops| - 1], now).0, ops[|ops| - 1], now);
    }
  }

  ghost predicate AudienceCounted(b: BusState) {
    b.totalSubscribers == |b.subscribers.Keys|
  }

  lemma AudienceChanges(b: BusState, id: SubscriptionId, f: Filter)
    requires AudienceCounted(b)
    ensures id !in b.subscribers ==> AudienceCounted(Subscribe(b, id, f))
    ensures AudienceCounted(Unsubscribe(b, id)) && AudienceCounted(HangUp(b, id))
  {
    assert Subscribe(b, id, f).subscribers.Keys == b.subscribers.Keys + {id};
    if id in b.subscribers {
      assert b.subscribers.Keys == Unsubscribe(b, id).subscribers.Keys + {id};
      assert HangUp(b, id).subscribers.Keys == b.subscribers.Keys;
    }
  }

  lemma StepKeepsCount(s: State, op: Op)
    requires AudienceCounted(s.bus) && Enabled(s, op)
    ensures AudienceCounted(Step(s, op).bus)
  {
    match op {
      case Operation(o, now) => OperateKeepsAudience(s, o, now);
      case Batch(os, now) => BatchKeepsAudience(s, os, now);
      case ClearStore(now) => OperateKeepsAudience(s, GetOp(""), now);
      case Listen(id, f) => AudienceChanges(s.bus, id, f);
      case Leave(id) => AudienceChanges(s.bus, id, All);
      case Close(id) => AudienceChanges(s.bus, id, All);
    }
  }

  /** The bus counts its subscribers: one more for each subscription, one less for each
      removal of one that was there. */
  lemma {:induction false} SubscribersCounted(run: seq<State>, ops: seq<Op>, i: nat)
    requires IsRun(run, ops) && i < |run|
    ensures run[i].bus.totalSubscribers == |run[i].bus.subscribers.Keys|
  {
    if i > 0 {
      SubscribersCounted(run, ops, i - 1);
      StepKeepsCount(run[i - 1], ops[i - 1]);
      assert run[i - 1 + 1] == Step(run[i - 1], ops[i - 1]);
    }
  }
}

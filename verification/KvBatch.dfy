/** When a batch of operations on the key-value store is all or nothing. Whether it is can
    be told before the call, from the keys in the store and the batch. */
module KvBatch {
  import opened Types
  import opened Notifications
  import opened KvStore

  /** The store refuses the operation when it holds `keys`. */
  predicate Refuses(c: Config, keys: set<string>, op: KVOperation) {
    || !KeyValid(op.key)
    || (op.SetOp? && (|op.value| > c.maxValueSize || (op.key !in keys && |keys| >= c.maxKeys)))
  }

  /** An operation that is not refused changes the store. */
  predicate Writes(keys: set<string>, op: KVOperation) {
    op.SetOp? || (op.DeleteOp? && op.key in keys)
  }

  function KeysAfter(keys: set<string>, op: KVOperation): set<string> {
    match op
    case SetOp(key, _) => keys + {key}
    case DeleteOp(key) => keys - {key}
    case _ => keys
  }

  /** What can be foreseen of a batch: the keys it leaves, whether one of its operations is
      refused, and whether one before that writes. */
  datatype Outlook = Outlook(keys: set<string>, refused: bool, wrote: bool)

  function Foresee(c: Config, keys: set<string>, ops: seq<KVOperation>): Outlook {
    if ops == [] then Outlook(keys, false, false)
    else
      var before, op := Foresee(c, keys, ops[..|ops| - 1]), ops[|ops| - 1];
      if before.refused then before
      else if Refuses(c, before.keys, op) then before.(refused := true)
      else Outlook(KeysAfter(before.keys, op), false, before.wrote || Writes(before.keys, op))
  }

  lemma SizeIsKeys(data: map<string, ValueEntry>)
    ensures |data| == |data.Keys|
  {
  }

  lemma OperateForeseen(s: State, op: KVOperation, now: nat)
    ensures var (s', r) := Operate(s, op, now);
            && s'.config == s.config
            && (r.Err? <==> Refuses(s.config, s.data.Keys, op))
            && (r.Err? ==> s' == s)
            && (r.Ok? ==> s'.data.Keys == KeysAfter(s.data.Keys, op))
  {
    SizeIsKeys(s.data);
  }

  /** An accepted operation leaves data and notifications as they were if and only if it
      does not write; and each write is announced, if notifications are enabled. */
  lemma OperateWritesIff(s: State, op: KVOperation, now: nat)
    requires !Refuses(s.config, s.data.Keys, op)
    ensures var s' := Operate(s, op, now).0;
            && (s'.data == s.data <==> !Writes(s.data.Keys, op))
            && |s'.bus.published| ==
               |s.bus.published| + (if Writes(s.data.Keys, op) && s.config.enableNotifications then 1 else 0)
            && (!Writes(s.data.Keys, op) ==> s'.bus == s.bus)
  {
    SizeIsKeys(s.data);
    var s' := Operate(s, op, now).0;
    match op {
      case SetOp(key, value) => assert s'.data[key].version != (if key in s.data then s.data[key].version else 0);
      case DeleteOp(key) => assert key !in s.data ==> s.data - {key} == s.data;
      case _ =>
    }
  }

  /** The batch turns out as foreseen. */
  ghost predicate Foreseen(s: State, s': State, failed: bool, o: Outlook) {
    && s'.config == s.config
    && s'.data.Keys == o.keys
    && (failed <==> o.refused)
    && |s'.bus.published| >= |s.bus.published|
    && (!o.wrote ==> s'.data == s.data && s'.bus == s.bus)
    && (o.wrote && s.config.enableNotifications ==> |s'.bus.published| > |s.bus.published|)
  }

  lemma {:induction false} BatchForeseen(s: State, ops: seq<KVOperation>, now: nat)
    ensures Foreseen(s, ApplyBatch(s, ops, now).0, ApplyBatch(s, ops, now).1.Err?, Foresee(s.config, s.data.Keys, ops))
  {
    if ops != [] {
      var most, op := ops[..|ops| - 1], ops[|ops| - 1];
      BatchForeseen(s, most, now);
      var s1 := ApplyBatch(s, most, now).0;
      if ApplyBatch(s, most, now).1.Ok? {
        OperateForeseen(s1, op, now);
        if !Refuses(s1.config, s1.data.Keys, op) {
          OperateWritesIff(s1, op, now);
        }
      }
    }
  }

  /** A failed batch has left data and notifications as they were. */
  ghost predicate AllOrNothing(s: State, ops: seq<KVOperation>, now: nat) {
    var (s', r) := ApplyBatch(s, ops, now);
    r.Err? ==> s'.data == s.data && s'.bus == s.bus
  }

  /** With notifications enabled a batch is all or nothing exactly when none of its
      operations is refused or none before the refused one writes. */
  lemma AllOrNothingIff(s: State, ops: seq<KVOperation>, now: nat)
    requires s.config.enableNotifications
    ensures var o := Foresee(s.config, s.data.Keys, ops); AllOrNothing(s, ops, now) <==> !(o.refused && o.wrote)
  {
    BatchForeseen(s, ops, now);
  }

  /** No operation of a failed batch has changed the data, not even for a moment. */
  ghost predicate NeverVisible(s: State, ops: seq<KVOperation>, now: nat) {
    ApplyBatch(s, ops, now).1.Err? ==> Untouched(s, ops, now)
  }

  ghost predicate UntouchedAt(s: State, ops: seq<KVOperation>, now: nat) {
    ApplyBatch(s, ops, now).0.data == s.data
  }

  ghost predicate Untouched(s: State, ops: seq<KVOperation>, now: nat) {
    forall k: nat | k <= |ops| :: UntouchedAt(s, ops[..k], now)
  }

  lemma UntouchedStep(s: State, ops: seq<KVOperation>, now: nat)
    requires ops != []
    ensures Untouched(s, ops, now) <==> Untouched(s, ops[..|ops| - 1], now) && UntouchedAt(s, ops, now)
  {
    var most := ops[..|ops| - 1];
    assert ops[..|ops|] == ops;
    forall k: nat | k <= |most|
      ensures ops[..k] == most[..k]
    {
    }
    if Untouched(s, ops, now) {
      forall k: nat | k <= |most|
        ensures UntouchedAt(s, most[..k], now)
      {
        assert UntouchedAt(s, ops[..k], now);
      }
      assert UntouchedAt(s, ops[..|ops|], now);
    }
    if Untouched(s, most, now) && UntouchedAt(s, ops, now) {
      forall k: nat | k <= |ops|
        ensures UntouchedAt(s, ops[..k], now)
      {
        if k < |ops| {
          assert UntouchedAt(s, most[..k], now);
        }
      }
    }
  }

  /** After a batch that wrote nothing, one more operation leaves the data as they were
      exactly when it is not foreseen to write. */
  lemma OneMoreUntouchedIff(s: State, ops: seq<KVOperation>, now: nat)
    requires ops != [] && !Foresee(s.config, s.data.Keys, ops[..|ops| - 1]).wrote
    ensures UntouchedAt(s, ops, now) <==> !Foresee(s.config, s.data.Keys, ops).wrote
  {
    var most, op := ops[..|ops| - 1], ops[|ops| - 1];
    BatchForeseen(s, most, now);
    var s1 := ApplyBatch(s, most, now).0;
    if ApplyBatch(s, most, now).1.Ok? {
      OperateForeseen(s1, op, now);
      if !Refuses(s1.config, s1.data.Keys, op) {
        OperateWritesIff(s1, op, now);
      }
    }
  }

  lemma {:induction false} UntouchedIff(s: State, ops: seq<KVOperation>, now: nat)
    ensures Untouched(s, ops, now) <==> !Foresee(s.config, s.data.Keys, ops).wrote
  {
    if ops == [] {
      assert forall k: nat | k <= |ops| :: ops[..k] == [];
    } else {
      UntouchedStep(s, ops, now);
      UntouchedIff(s, ops[..|ops| - 1], now);
      if !Foresee(s.config, s.data.Keys, ops[..|ops| - 1]).wrote {
        OneMoreUntouchedIff(s, ops, now);
      }
    }
  }

  /** The same condition, with or without notifications, decides whether a failing batch
      has ever shown a partial result to readers. */
  lemma NeverVisibleIff(s: State, ops: seq<KVOperation>, now: nat)
    ensures var o := Foresee(s.config, s.data.Keys, ops); NeverVisible(s, ops, now) <==> !(o.refused && o.wrote)
  {
    BatchForeseen(s, ops, now);
    UntouchedIff(s, ops, now);
  }

  /** A set followed by an operation without a key: the batch fails and the set stays. */
  lemma HalfABatch(c: Config, key: string, value: string, now: nat)
    requires KeyValid(key) && |value| <= c.maxValueSize && c.maxKeys > 0
    ensures var (s', r) := ApplyBatch(New(c), [SetOp(key, value), SetOp("", value)], now);
            r.Err? && key in s'.data && s'.data[key].value == value
  {
    var ops := [SetOp(key, value), SetOp("", value)];
    assert ops[..1] == [SetOp(key, value)] && ops[..1][..0] == [];
    assert ApplyBatch(New(c), ops[..1], now) == (Set(New(c), key, value, now).0, Ok([] + [Success]));
  }
}

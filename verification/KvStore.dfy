/** The key-value store (`rabia-kvstore/src/store.rs`). A string stands for its UTF-8
    bytes; clock readings are inputs. */
module KvStore {
  import opened Types
  import opened Notifications

  datatype Config = Config(maxKeys: nat, enableNotifications: bool, maxValueSize: nat)

  datatype ValueEntry = ValueEntry(value: string, version: nat, createdAt: nat, updatedAt: nat, size: nat)

  datatype State = State(config: Config, data: map<string, ValueEntry>, totalOperations: nat, version: nat, bus: BusState)

  datatype KVResult = Success | NotFound
  datatype StoreError = InvalidKey(message: string) | ValueTooLarge | StoreFull
  datatype Result<T> = Ok(value: T) | Err(error: StoreError)

  datatype KVOperation =
    | SetOp(key: string, value: string)
    | GetOp(key: string)
    | DeleteOp(key: string)
    | ExistsOp(key: string)

  function New(config: Config): State {
    State(config, map[], 0, 0, EMPTY_BUS)
  }

  predicate KeyValid(key: string) {
    0 < |key| <= 256
  }

  function KeyError(key: string): StoreError {
    InvalidKey(if key == "" then "Key cannot be empty" else "Key too long")
  }

  function Counted(s: State): State {
    s.(totalOperations := s.totalOperations + 1)
  }

  /** Publishing takes the current version and advances it. */
  function Announce(s: State, key: string, change: ChangeType,
                    oldValue: Option<string>, newValue: Option<string>, now: nat): State
  {
    s.(bus := Publish(s.bus, Notification(key, change, oldValue, newValue, s.version, now)), version := s.version + 1)
  }

  function Written(s: State, key: string, value: string, now: nat): ValueEntry {
    if key in s.data then s.data[key].(value := value, version := s.data[key].version + 1, updatedAt := now, size := |value|)
    else ValueEntry(value, 1, now, now, |value|)
  }

  function Set(s: State, key: string, value: string, now: nat): (State, Result<KVResult>) {
    if !KeyValid(key) then (s, Err(KeyError(key)))
    else if |value| > s.config.maxValueSize then (s, Err(ValueTooLarge))
    else if key !in s.data && |s.data| >= s.config.maxKeys then (s, Err(StoreFull))
    else
      var s1 := Counted(s.(data := s.data[key := Written(s, key, value, now)]));
      (if !s.config.enableNotifications then s1
       else if key in s.data then Announce(s1, key, Updated, Some(s.data[key].value), Some(value), now)
       else Announce(s1, key, Created, None, Some(value), now),
       Ok(Success))
  }

  function Get(s: State, key: string): (State, Result<Option<string>>) {
    if !KeyValid(key) then (s, Err(KeyError(key)))
    else (Counted(s), Ok(if key in s.data then Some(s.data[key].value) else None))
  }

  function Delete(s: State, key: string, now: nat): (State, Result<KVResult>) {
    if !KeyValid(key) then (s, Err(KeyError(key)))
    else
      var s1 := Counted(s.(data := s.data - {key}));
      if key !in s.data then (s1, Ok(NotFound))
      else
        (if s.config.enableNotifications then Announce(s1, key, Deleted, Some(s.data[key].value), None, now) else s1,
         Ok(Success))
  }

  function Exists(s: State, key: string): (State, Result<bool>) {
    if !KeyValid(key) then (s, Err(KeyError(key))) else (Counted(s), Ok(key in s.data))
  }

  function Digit(d: nat): char
    requires d < 10
  {
    "0123456789"[d]
  }

  function Decimal(n: nat): string {
    if n < 10 then [Digit(n)] else Decimal(n / 10) + [Digit(n % 10)]
  }

  function KeysText(n: nat): string {
    Decimal(n) + " keys"
  }

  function Clear(s: State, now: nat): State {
    var s1 := Counted(s.(data := map[]));
    if s.config.enableNotifications && |s.data| > 0 then
      Announce(s1, "*", Cleared, Some(KeysText(|s.data|)), None, now)
    else s1
  }

  function Found(r: Result<bool>): Result<KVResult> {
    match r
    case Ok(found) => Ok(if found then Success else NotFound)
    case Err(e) => Err(e)
  }

  function Operate(s: State, op: KVOperation, now: nat): (State, Result<KVResult>) {
    match op
    case SetOp(key, value) => Set(s, key, value, now)
    case GetOp(key) =>
      var (s1, r) := Get(s, key);
      (s1, Found(if r.Ok? then Ok(r.value.Some?) else Err(r.error)))
    case DeleteOp(key) => Delete(s, key, now)
    case ExistsOp(key) =>
      var (s1, r) := Exists(s, key);
      (s1, Found(r))
  }

  /** Operations are applied one after the other up to the first that fails; what was
      applied before it stays. */
  function ApplyBatch(s: State, ops: seq<KVOperation>, now: nat): (State, Result<seq<KVResult>>) {
    if ops == [] then (s, Ok([]))
    else
      var (s1, r1) := ApplyBatch(s, ops[..|ops| - 1], now);
      if r1.Err? then (s1, r1)
      else
        var (s2, r2) := Operate(s1, ops[|ops| - 1], now);
        (s2, if r2.Ok? then Ok(r1.value + [r2.value]) else Err(r2.error))
  }

  class KVStore {
    const config: Config
    const bus: NotificationBus
    var data: map<string, ValueEntry>
    var totalOperations: nat
    var version: nat

    function View(): State
      reads this, bus
    {
      State(config, data, totalOperations, version, bus.View())
    }

    constructor (config: Config)
      ensures View() == New(config) && fresh(bus)
    {
      this.config := config;
      bus := new NotificationBus();
      data, totalOperations, version := map[], 0, 0;
    }

    method Publishes(key: string, change: ChangeType, oldValue: Option<string>, newValue: Option<string>, now: nat)
      modifies this`version, bus
      ensures View() == Announce(old(View()), key, change, oldValue, newValue, now)
    {
      var n := Notification(key, change, oldValue, newValue, version, now);
      version := version + 1;
      bus.Send(n);
    }

    method SetKey(key: string, value: string, now: nat) returns (r: Result<KVResult>)
      modifies this, bus
      ensures (View(), r) == Set(old(View()), key, value, now)
    {
      if !KeyValid(key) { return Err(KeyError(key)); }
      if |value| > config.maxValueSize { return Err(ValueTooLarge); }
      var oldValue := None;
      if key in data {
        var entry := data[key];
        oldValue := Some(entry.value);
        data := data[key := entry.(value := value, version := entry.version + 1, updatedAt := now, size := |value|)];
      } else {
        if |data| >= config.maxKeys { return Err(StoreFull); }
        data := data[key := ValueEntry(value, 1, now, now, |value|)];
      }
      totalOperations := totalOperations + 1;
      if config.enableNotifications {
        var change := if oldValue.Some? then Updated else Created;
        Publishes(key, change, oldValue, Some(value), now);
      }
      return Ok(Success);
    }

    method GetKey(key: string) returns (r: Result<Option<string>>)
      modifies this`totalOperations
      ensures (View(), r) == Get(old(View()), key)
    {
      if !KeyValid(key) { return Err(KeyError(key)); }
      totalOperations := totalOperations + 1;
      return Ok(if key in data then Some(data[key].value) else None);
    }

    method DeleteKey(key: string, now: nat) returns (r: Result<KVResult>)
      modifies this, bus
      ensures (View(), r) == Delete(old(View()), key, now)
    {
      if !KeyValid(key) { return Err(KeyError(key)); }
      var oldValue := if key in data then Some(data[key].value) else None;
      data := data - {key};
      totalOperations := totalOperations + 1;
      if config.enableNotifications && oldValue.Some? {
        Publishes(key, Deleted, oldValue, None, now);
      }
      return Ok(if oldValue.Some? then Success else NotFound);
    }

    method KeyExists(key: string) returns (r: Result<bool>)
      modifies this`totalOperations
      ensures (View(), r) == Exists(old(View()), key)
    {
      if !KeyValid(key) { return Err(KeyError(key)); }
      totalOperations := totalOperations + 1;
      return Ok(key in data);
    }

    method ClearAll(now: nat)
      modifies this, bus
      ensures View() == Clear(old(View()), now)
    {
      var oldSize := |data|;
      data := map[];
      totalOperations := totalOperations + 1;
      if config.enableNotifications && oldSize > 0 {
        Publishes("*", Cleared, Some(KeysText(oldSize)), None, now);
      }
    }

    method OperateOn(op: KVOperation, now: nat) returns (r: Result<KVResult>)
      modifies this, bus
      ensures (View(), r) == Operate(old(View()), op, now)
    {
      match op {
        case SetOp(key, value) => r := SetKey(key, value, now);
        case GetOp(key) =>
          var found := GetKey(key);
          r := Found(if found.Ok? then Ok(found.value.Some?) else Err(found.error));
        case DeleteOp(key) => r := DeleteKey(key, now);
        case ExistsOp(key) =>
          var found := KeyExists(key);
          r := Found(found);
      }
    }

    method ApplyAll(ops: seq<KVOperation>, now: nat) returns (r: Result<seq<KVResult>>)
      modifies this, bus
      ensures (View(), r) == ApplyBatch(old(View()), ops, now)
    {
      var results := [];
      var i := 0;
      while i < |ops|
        invariant 0 <= i <= |ops|
        invariant (View(), Ok(results)) == ApplyBatch(old(View()), ops[..i], now)
      {
        assert ops[..i + 1][..i] == ops[..i];
        var one := OperateOn(ops[i], now);
        if one.Err? {
          FailedBatchStops(old(View()), ops, i + 1, now);
          return Err(one.error);
        }
        results := results + [one.value];
        i := i + 1;
      }
      assert ops[..i] == ops;
      return Ok(results);
    }
  }

  lemma {:induction false} FailedBatchStops(s: State, ops: seq<KVOperation>, k: nat, now: nat)
    requires k <= |ops| && ApplyBatch(s, ops[..k], now).1.Err?
    ensures ApplyBatch(s, ops, now) == ApplyBatch(s, ops[..k], now)
  {
    if k < |ops| {
      var before := ops[..|ops| - 1];
      assert before[..k] == ops[..k];
      FailedBatchStops(s, before, k, now);
    } else {
      assert ops[..k] == ops;
    }
  }
}

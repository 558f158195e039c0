/** The command batcher of `batching.rs`: commands are buffered and leave in batches
    when enough have gathered, when enough time has passed, or on request. Every
    clock reading is an input. */
module Batcher {
  import opened Types

  type Command = nat
  type Batch = seq<Command>

  datatype Config = Config(maxBatchSize: nat, maxBatchDelay: nat, bufferCapacity: nat, adaptive: bool)

  datatype Stats = Stats(
    totalCommands: nat,
    totalBatches: nat,
    commandsDropped: nat,
    flushTimeouts: nat,
    adaptiveAdjustments: nat)

  datatype State = State(config: Config, buffer: seq<Command>, stats: Stats, lastFlush: nat, adaptiveSize: nat)

  /** What `add_command` returns: an error, nothing yet, or a batch. */
  datatype Added = Overflow | Buffered | Flushed(batch: Batch)

  const NO_STATS := Stats(0, 0, 0, 0, 0)

  function New(config: Config, now: nat): State {
    State(config, [], NO_STATS, now, config.maxBatchSize)
  }

  function BatchSize(s: State): nat {
    if s.config.adaptive then s.adaptiveSize else s.config.maxBatchSize
  }

  /** The source compares total / (timeouts + 1) with 2.0 and 0.5; the comparison is
      made here without division. */
  function Adjust(s: State): State {
    var total, timeouts := s.stats.totalBatches, s.stats.flushTimeouts + 1;
    var counted := s.stats.(adaptiveAdjustments := s.stats.adaptiveAdjustments + 1);
    if total > 2 * timeouts && s.adaptiveSize < s.config.maxBatchSize then
      var grown := s.adaptiveSize * 11 / 10;
      s.(adaptiveSize := if grown < s.config.maxBatchSize then grown else s.config.maxBatchSize, stats := counted)
    else if 2 * total < timeouts && s.adaptiveSize > 10 then
      s.(adaptiveSize := Max(s.adaptiveSize * 9 / 10, 10), stats := counted)
    else s
  }

  function Taken(s: State): nat {
    if BatchSize(s) < |s.buffer| then BatchSize(s) else |s.buffer|
  }

  function FlushBatch(s: State, now: nat): (State, Batch) {
    var k := Taken(s);
    var s1 := s.(buffer := s.buffer[k..],
              stats := s.stats.(totalCommands := s.stats.totalCommands + k, totalBatches := s.stats.totalBatches + 1),
              lastFlush := now);
    (if s.config.adaptive then Adjust(s1) else s1, s.buffer[..k])
  }

  /** `checked` is the clock when the delay is checked, `now` when a flush completes. */
  function AddCommand(s: State, command: Command, checked: nat, now: nat): (State, Added) {
    if |s.buffer| >= s.config.bufferCapacity then
      (s.(stats := s.stats.(commandsDropped := s.stats.commandsDropped + 1)), Overflow)
    else
      var s1 := s.(buffer := s.buffer + [command]);
      if |s1.buffer| >= BatchSize(s1) then
        var (s2, b) := FlushBatch(s1, now);
        (s2, Flushed(b))
      else if Elapsed(s1.lastFlush, checked) >= s1.config.maxBatchDelay then
        var (s2, b) := FlushBatch(s1.(stats := s1.stats.(flushTimeouts := s1.stats.flushTimeouts + 1)), now);
        (s2, Flushed(b))
      else (s1, Buffered)
  }

  function Elapsed(since: nat, now: nat): nat {
    if now >= since then now - since else 0
  }

  function Flush(s: State, now: nat): (State, Option<Batch>) {
    if s.buffer == [] then (s, None)
    else
      var (s1, b) := FlushBatch(s, now);
      (s1, Some(b))
  }

  function UpdateConfig(s: State, config: Config): State {
    s.(adaptiveSize := config.maxBatchSize, config := config)
  }

  class CommandBatcher {
    var config: Config
    var buffer: seq<Command>
    var stats: Stats
    var lastFlush: nat
    var adaptiveSize: nat

    function View(): State
      reads this
    {
      State(config, buffer, stats, lastFlush, adaptiveSize)
    }

    constructor (config: Config, now: nat)
      ensures View() == New(config, now)
    {
      this.config, buffer, stats := config, [], NO_STATS;
      lastFlush, adaptiveSize := now, config.maxBatchSize;
    }

    method Add(command: Command, checked: nat, now: nat) returns (r: Added)
      modifies this
      ensures (View(), r) == AddCommand(old(View()), command, checked, now)
    {
      if |buffer| >= config.bufferCapacity {
        stats := stats.(commandsDropped := stats.commandsDropped + 1);
        return Overflow;
      }
      buffer := buffer + [command];
      if |buffer| >= CurrentBatchSize() {
        var b := DoFlush(now);
        return Flushed(b);
      }
      if Elapsed(lastFlush, checked) >= config.maxBatchDelay && buffer != [] {
        stats := stats.(flushTimeouts := stats.flushTimeouts + 1);
        var b := DoFlush(now);
        return Flushed(b);
      }
      return Buffered;
    }

    method FlushNow(now: nat) returns (r: Option<Batch>)
      modifies this
      ensures (View(), r) == Flush(old(View()), now)
    {
      if buffer == [] {
        return None;
      }
      var b := DoFlush(now);
      return Some(b);
    }

    method Reconfigure(config: Config)
      modifies this
      ensures View() == UpdateConfig(old(View()), config)
    {
      adaptiveSize := config.maxBatchSize;
      this.config := config;
    }

    function CurrentBatchSize(): nat
      reads this
    {
      if config.adaptive then adaptiveSize else config.maxBatchSize
    }

    method DoFlush(now: nat) returns (batch: Batch)
      modifies this
      ensures (View(), batch) == FlushBatch(old(View()), now)
    {
      var size := if CurrentBatchSize() < |buffer| then CurrentBatchSize() else |buffer|;
      batch := buffer[..size];
      buffer := buffer[size..];
      stats := stats.(totalCommands := stats.totalCommands + |batch|, totalBatches := stats.totalBatches + 1);
      lastFlush := now;
      if config.adaptive {
        AdjustSize();
      }
    }

    method AdjustSize()
      modifies this`adaptiveSize, this`stats
      ensures View() == Adjust(old(View()))
    {
      var total, timeouts := stats.totalBatches, stats.flushTimeouts + 1;
      if total > 2 * timeouts && adaptiveSize < config.maxBatchSize {
        var grown := adaptiveSize * 11 / 10;
        adaptiveSize := if grown < config.maxBatchSize then grown else config.maxBatchSize;
        stats := stats.(adaptiveAdjustments := stats.adaptiveAdjustments + 1);
      } else if 2 * total < timeouts && adaptiveSize > 10 {
        adaptiveSize := Max(adaptiveSize * 9 / 10, 10);
        stats := stats.(adaptiveAdjustments := stats.adaptiveAdjustments + 1);
      }
    }
  }
}

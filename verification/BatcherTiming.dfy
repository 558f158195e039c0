/** When the command batcher emits and what: told from the operations of a run and the
    batches emitted before, with every clock reading free. */
module BatcherTiming {
  import opened Types
  import opened Batcher
  import opened BatcherRuns

  /** The configuration in force after the first `n` operations. */
  function ConfigAt(first: Config, ops: seq<Op>, n: nat): Config
    requires n <= |ops|
  {
    if n == 0 then first
    else if ops[n - 1].Reconfigure? then ops[n - 1].config
    else ConfigAt(first, ops, n - 1)
  }

  /** The clock at the last batch, or at the beginning. */
  function LastBatchAt(run: seq<State>, ops: seq<Op>, n: nat): nat
    requires n <= |ops| < |run|
  {
    if n == 0 then run[0].lastFlush
    else if Emits(run[n - 1], ops[n - 1]).Some? && !ops[n - 1].Reconfigure? then ops[n - 1].now
    else LastBatchAt(run, ops, n - 1)
  }

  /** How many batches the first `n` operations emitted, and how many of them before the
      buffer held a full one, for reasons of time. */
  function BatchesIn(run: seq<State>, ops: seq<Op>, n: nat): nat
    requires n <= |ops| < |run|
  {
    if n == 0 then 0 else BatchesIn(run, ops, n - 1) + if Emits(run[n - 1], ops[n - 1]).Some? then 1 else 0
  }

  function TimeoutsIn(run: seq<State>, ops: seq<Op>, n: nat): nat
    requires n <= |ops| < |run|
  {
    if n == 0 then 0
    else
      TimeoutsIn(run, ops, n - 1)
      + if ops[n - 1].Add? && Emits(run[n - 1], ops[n - 1]).Some?
           && |run[n - 1].buffer| + 1 < run[n - 1].config.maxBatchSize then 1 else 0
  }

  lemma StepBooks(s: State, op: Op)
    requires SizeFixed(s)
    ensures Step(s, op).config == if op.Reconfigure? then op.config else s.config
    ensures Step(s, op).lastFlush == if Emits(s, op).Some? && !op.Reconfigure? then op.now else s.lastFlush
    ensures Step(s, op).stats.totalBatches == s.stats.totalBatches + if Emits(s, op).Some? then 1 else 0
    ensures Step(s, op).stats.flushTimeouts ==
            s.stats.flushTimeouts
            + if op.Add? && Emits(s, op).Some? && |s.buffer| + 1 < s.config.maxBatchSize then 1 else 0
  {
  }

  /** The books after the first `n` operations. */
  ghost predicate Books(run: seq<State>, ops: seq<Op>, n: nat)
    requires n <= |ops| < |run|
  {
    && run[n].config == ConfigAt(run[0].config, ops, n)
    && run[n].lastFlush == LastBatchAt(run, ops, n)
    && run[n].stats.totalBatches == BatchesIn(run, ops, n)
    && run[n].stats.flushTimeouts == TimeoutsIn(run, ops, n)
  }

  lemma BooksStep(run: seq<State>, ops: seq<Op>, n: nat)
    requires n < |ops| < |run| && SizeFixed(run[n]) && run[n + 1] == Step(run[n], ops[n]) && Books(run, ops, n)
    ensures Books(run, ops, n + 1)
  {
    StepBooks(run[n], ops[n]);
  }

  /** The batcher keeps its books: configuration, time of the last batch, batches, timeouts. */
  lemma {:induction false} BooksKept(run: seq<State>, ops: seq<Op>, n: nat)
    requires IsRun(run, ops) && n <= |ops|
    ensures Books(run, ops, n)
  {
    if n > 0 {
      BooksKept(run, ops, n - 1);
      AdaptiveSizeNeverMoves(run, ops, n - 1);
      assert run[n - 1 + 1] == Step(run[n - 1], ops[n - 1]);
      BooksStep(run, ops, n - 1);
    }
  }

  lemma AddEmits(s: State, command: Command, checked: nat, now: nat)
    requires SizeFixed(s)
    ensures var op, c, held := Op.Add(command, checked, now), s.config, s.buffer + [command];
            if |s.buffer| >= c.bufferCapacity then !Accepts(s, op) && Emits(s, op) == None
            else
              && Accepts(s, op)
              && (Emits(s, op).Some? <==>
                  || |held| >= c.maxBatchSize
                  || checked >= s.lastFlush + c.maxBatchDelay
                  || c.maxBatchDelay == 0)
              && (Emits(s, op).Some? ==>
                    Emits(s, op).value == if c.maxBatchSize < |held| then held[..c.maxBatchSize] else held)
  {
  }

  /** An addition is refused exactly when the buffer is full. Otherwise it emits a batch
      exactly when the buffer then holds a full one or the delay since the last batch is
      over; and the batch is the front of the buffer, up to the maximum. */
  lemma AddEmitsIff(run: seq<State>, ops: seq<Op>, i: nat)
    requires IsRun(run, ops) && i < |ops| && ops[i].Add?
    ensures var c, held := ConfigAt(run[0].config, ops, i), run[i].buffer + [ops[i].command];
            if |run[i].buffer| >= c.bufferCapacity then !Accepts(run[i], ops[i]) && Emits(run[i], ops[i]) == None
            else
              && Accepts(run[i], ops[i])
              && (Emits(run[i], ops[i]).Some? <==>
                  || |held| >= c.maxBatchSize
                  || ops[i].checked >= LastBatchAt(run, ops, i) + c.maxBatchDelay
                  || c.maxBatchDelay == 0)
              && (Emits(run[i], ops[i]).Some? ==>
                    Emits(run[i], ops[i]).value == if c.maxBatchSize < |held| then held[..c.maxBatchSize] else held)
  {
    AdaptiveSizeNeverMoves(run, ops, i);
    BooksKept(run, ops, i);
    AddEmits(run[i], ops[i].command, ops[i].checked, ops[i].now);
  }

  /** A flush emits the front of the buffer, up to the maximum, unless the buffer is empty;
      a reconfiguration emits nothing and keeps the buffer. */
  lemma FlushEmitsIff(run: seq<State>, ops: seq<Op>, i: nat)
    requires IsRun(run, ops) && i < |ops| && !ops[i].Add?
    ensures var c, held := ConfigAt(run[0].config, ops, i), run[i].buffer;
            Emits(run[i], ops[i]) ==
            if ops[i].Reconfigure? || held == [] then None
            else Some(if c.maxBatchSize < |held| then held[..c.maxBatchSize] else held)
    ensures ops[i].Reconfigure? ==> run[i + 1].buffer == run[i].buffer
  {
    AdaptiveSizeNeverMoves(run, ops, i);
    BooksKept(run, ops, i);
    FlushEmits(run[i], ops[i]);
    assert run[i + 1] == Step(run[i], ops[i]);
  }

  lemma FlushEmits(s: State, op: Op)
    requires SizeFixed(s) && !op.Add?
    ensures Emits(s, op) ==
            if op.Reconfigure? || s.buffer == [] then None
            else Some(if s.config.maxBatchSize < |s.buffer| then s.buffer[..s.config.maxBatchSize] else s.buffer)
    ensures op.Reconfigure? ==> Step(s, op).buffer == s.buffer
  {
    assert s.buffer[..|s.buffer|] == s.buffer;
  }

  /** Where it would move, the adaptive size grows by a tenth, up to the maximum, when there
      are more than two batches for each timeout, and shrinks by a tenth, down to ten, when
      there is less than one for two; every such move is counted. */
  lemma AdjustMoves(s: State)
    ensures var s', size, batches, timeouts := Adjust(s), s.adaptiveSize, s.stats.totalBatches, s.stats.flushTimeouts + 1;
            var grows := batches > 2 * timeouts && size < s.config.maxBatchSize;
            var shrinks := 2 * batches < timeouts && size > 10;
            && (grows ==> s'.adaptiveSize <= s.config.maxBatchSize && 10 * s'.adaptiveSize <= 11 * size)
            && (grows ==> s'.adaptiveSize == s.config.maxBatchSize || 11 * size < 10 * (s'.adaptiveSize + 1))
            && (shrinks ==> s'.adaptiveSize >= 10 && 9 * size < 10 * (s'.adaptiveSize + 1))
            && (shrinks ==> s'.adaptiveSize == 10 || 10 * s'.adaptiveSize <= 9 * size)
            && (!grows && !shrinks ==> s'.adaptiveSize == size)
            && s'.stats.adaptiveAdjustments == s.stats.adaptiveAdjustments + (if grows || shrinks then 1 else 0)
            && s' == s.(adaptiveSize := s'.adaptiveSize, stats := s'.stats)
            && s'.stats == s.stats.(adaptiveAdjustments := s'.stats.adaptiveAdjustments)
  {
  }

  /** The first delay counts from the creation of the batcher. */
  lemma FirstDelay(run: seq<State>, ops: seq<Op>, config: Config, now: nat)
    requires IsRun(run, ops) && run[0] == New(config, now)
    ensures LastBatchAt(run, ops, 0) == now && ConfigAt(run[0].config, ops, 0) == config && run[0].buffer == []
  {
  }
}

/** Laws of whole runs of the command batcher. */
module BatcherRuns {
  import opened Types
  import opened Batcher

  datatype Op = Add(command: Command, checked: nat, now: nat) | FlushNow(now: nat) | Reconfigure(config: Config)

  function Step(s: State, op: Op): State {
    match op
    case Add(command, checked, now) => AddCommand(s, command, checked, now).0
    case FlushNow(now) => Flush(s, now).0
    case Reconfigure(config) => UpdateConfig(s, config)
  }

  /** The batch an operation emits, if any. */
  function Emits(s: State, op: Op): Option<Batch> {
    match op
    case Add(command, checked, now) =>
      var r := AddCommand(s, command, checked, now).1;
      if r.Flushed? then Some(r.batch) else None
    case FlushNow(now) => Flush(s, now).1
    case Reconfigure(_) => None
  }

  ghost predicate IsRun(run: seq<State>, ops: seq<Op>) {
    && |run| == |ops| + 1
    && (exists config, now :: run[0] == New(config, now))
    && forall i | 0 <= i < |ops| :: run[i + 1] == Step(run[i], ops[i])
  }

  // ---- Adaptive batching is fixed batching ----

  /** Timeouts never outnumber batches, so the size never needs to shrink, and it starts
      at the maximum, so it never can grow. */
  ghost predicate SizeFixed(s: State) {
    && s.adaptiveSize == s.config.maxBatchSize
    && s.stats.flushTimeouts <= s.stats.totalBatches
    && s.stats.adaptiveAdjustments == 0
  }

  lemma StepKeepsSize(s: State, op: Op)
    requires SizeFixed(s)
    ensures SizeFixed(Step(s, op))
  {
  }

  lemma {:induction false} AdaptiveSizeNeverMoves(run: seq<State>, ops: seq<Op>, i: nat)
    requires IsRun(run, ops) && i < |run|
    ensures SizeFixed(run[i])
    ensures BatchSize(run[i]) == run[i].config.maxBatchSize
  {
    if i > 0 {
      AdaptiveSizeNeverMoves(run, ops, i - 1);
      StepKeepsSize(run[i - 1], ops[i - 1]);
      assert run[i - 1 + 1] == Step(run[i - 1], ops[i - 1]);
    }
  }

  /** The same batcher, and the same operation, with adaptation switched off. */
  function Fixed(s: State): State {
    s.(config := s.config.(adaptive := false))
  }

  function FixedOp(op: Op): Op {
    if op.Reconfigure? then Reconfigure(op.config.(adaptive := false)) else op
  }

  lemma FlushIgnoresAdaptive(s: State, now: nat)
    requires s.adaptiveSize == s.config.maxBatchSize && s.stats.flushTimeouts <= s.stats.totalBatches + 1
    ensures FlushBatch(Fixed(s), now) == (Fixed(FlushBatch(s, now).0), FlushBatch(s, now).1)
  {
  }

  /** An adaptive batcher steps as the fixed one does. */
  lemma StepIgnoresAdaptive(s: State, op: Op)
    requires SizeFixed(s)
    ensures Step(Fixed(s), FixedOp(op)) == Fixed(Step(s, op)) && Emits(Fixed(s), FixedOp(op)) == Emits(s, op)
  {
    match op {
      case Add(command, _, now) =>
        var s1 := s.(buffer := s.buffer + [command]);
        FlushIgnoresAdaptive(s1, now);
        FlushIgnoresAdaptive(s1.(stats := s1.stats.(flushTimeouts := s1.stats.flushTimeouts + 1)), now);
      case FlushNow(now) => FlushIgnoresAdaptive(s, now);
      case Reconfigure(_) =>
    }
  }

  lemma StepsAgree(s1: State, op1: Op, s2: State, op2: Op)
    requires SizeFixed(s1) && SizeFixed(s2) && Fixed(s1) == Fixed(s2) && FixedOp(op1) == FixedOp(op2)
    ensures Fixed(Step(s1, op1)) == Fixed(Step(s2, op2)) && Emits(s1, op1) == Emits(s2, op2)
  {
    StepIgnoresAdaptive(s1, op1);
    StepIgnoresAdaptive(s2, op2);
  }

  ghost predicate SameOps(ops1: seq<Op>, ops2: seq<Op>) {
    |ops1| == |ops2| && forall k | 0 <= k < |ops1| :: FixedOp(ops1[k]) == FixedOp(ops2[k])
  }

  lemma {:induction false} AdaptiveStatesAgree(run1: seq<State>, ops1: seq<Op>, run2: seq<State>, ops2: seq<Op>, i: nat)
    requires IsRun(run1, ops1) && IsRun(run2, ops2) && SameOps(ops1, ops2) && i < |run1|
    requires Fixed(run1[0]) == Fixed(run2[0])
    ensures SizeFixed(run1[i]) && SizeFixed(run2[i]) && Fixed(run1[i]) == Fixed(run2[i])
  {
    AdaptiveSizeNeverMoves(run1, ops1, i);
    AdaptiveSizeNeverMoves(run2, ops2, i);
    if i > 0 {
      AdaptiveStatesAgree(run1, ops1, run2, ops2, i - 1);
      StepsAgree(run1[i - 1], ops1[i - 1], run2[i - 1], ops2[i - 1]);
      assert run1[i - 1 + 1] == Step(run1[i - 1], ops1[i - 1]) && run2[i - 1 + 1] == Step(run2[i - 1], ops2[i - 1]);
    }
  }

  /** Two batchers given the same operations at the same times, differing in nothing but
      the adaptive flags of their configurations, emit the same batches throughout. */
  lemma AdaptiveIsFixed(run1: seq<State>, ops1: seq<Op>, run2: seq<State>, ops2: seq<Op>, i: nat)
    requires IsRun(run1, ops1) && IsRun(run2, ops2) && SameOps(ops1, ops2) && i < |ops1|
    requires Fixed(run1[0]) == Fixed(run2[0])
    ensures Emits(run1[i], ops1[i]) == Emits(run2[i], ops2[i])
  {
    AdaptiveStatesAgree(run1, ops1, run2, ops2, i);
    StepsAgree(run1[i], ops1[i], run2[i], ops2[i]);
  }

  // ---- Conservation ----

  predicate Accepts(s: State, op: Op) {
    op.Add? && AddCommand(s, op.command, op.checked, op.now).1 != Overflow
  }

  /** The commands accepted during the first `n` operations, in order. */
  function Accepted(run: seq<State>, ops: seq<Op>, n: nat): seq<Command>
    requires n <= |ops| <= |run|
  {
    if n == 0 then []
    else if Accepts(run[n - 1], ops[n - 1]) then Accepted(run, ops, n - 1) + [ops[n - 1].command]
    else Accepted(run, ops, n - 1)
  }

  /** The commands in the batches emitted during the first `n` operations, in order. */
  function Emitted(run: seq<State>, ops: seq<Op>, n: nat): seq<Command>
    requires n <= |ops| <= |run|
  {
    if n == 0 then []
    else Emitted(run, ops, n - 1) + Contents(Emits(run[n - 1], ops[n - 1]))
  }

  function Attempts(ops: seq<Op>, n: nat): nat
    requires n <= |ops|
  {
    if n == 0 then 0 else Attempts(ops, n - 1) + if ops[n - 1].Add? then 1 else 0
  }

  lemma FlushSplits(s: State, now: nat)
    ensures var (s', b) := FlushBatch(s, now);
            && b + s'.buffer == s.buffer
            && s'.stats.totalCommands == s.stats.totalCommands + |b|
            && s'.stats.commandsDropped == s.stats.commandsDropped
  {
  }

  function Contents(b: Option<Batch>): Batch {
    if b.Some? then b.value else []
  }

  function Taking(s: State, op: Op): seq<Command> {
    if Accepts(s, op) then [op.command] else []
  }

  /** One operation moves commands from the front of the buffer to the batch and from
      the caller to the back of the buffer, and nothing else. */
  lemma StepMovesCommands(s: State, op: Op)
    ensures Contents(Emits(s, op)) + Step(s, op).buffer == s.buffer + Taking(s, op)
    ensures Step(s, op).stats.totalCommands == s.stats.totalCommands + |Contents(Emits(s, op))|
    ensures Step(s, op).stats.commandsDropped == s.stats.commandsDropped + (if op.Add? && !Accepts(s, op) then 1 else 0)
  {
    match op {
      case Add(command, _, now) =>
        var s1 := s.(buffer := s.buffer + [command]);
        FlushSplits(s1, now);
        FlushSplits(s1.(stats := s1.stats.(flushTimeouts := s1.stats.flushTimeouts + 1)), now);
      case FlushNow(now) => FlushSplits(s, now);
      case Reconfigure(_) =>
    }
  }

  lemma Regroup<T>(e: seq<T>, out: seq<T>, buffer: seq<T>, held: seq<T>, x: seq<T>, a: seq<T>)
    requires out + buffer == held + x && e + held == a
    ensures (e + out) + buffer == a + x
    ensures |e + out| == |e| + |out| && |out| + |buffer| == |held| + |x|
  {
    assert (e + out) + buffer == e + (out + buffer);
    assert e + (held + x) == (e + held) + x;
    assert |out + buffer| == |held + x|;
  }

  lemma AcceptedGrows(run: seq<State>, ops: seq<Op>, n: nat)
    requires 0 < n <= |ops| <= |run|
    ensures Accepted(run, ops, n) == Accepted(run, ops, n - 1) + Taking(run[n - 1], ops[n - 1])
  {
  }

  /** Nothing is lost, repeated or reordered: emitted batches followed by the buffer are
      the accepted commands, and every attempt was emitted, is buffered or was counted
      as dropped. Reconfiguration at any point changes none of this. */
  lemma {:induction false} CommandsConserved(run: seq<State>, ops: seq<Op>, n: nat)
    requires IsRun(run, ops) && n <= |ops|
    ensures Emitted(run, ops, n) + run[n].buffer == Accepted(run, ops, n)
    ensures run[n].stats.totalCommands == |Emitted(run, ops, n)|
    ensures Attempts(ops, n) == |Emitted(run, ops, n)| + |run[n].buffer| + run[n].stats.commandsDropped
  {
    if n > 0 {
      CommandsConserved(run, ops, n - 1);
      var s, op := run[n - 1], ops[n - 1];
      var out, x := Contents(Emits(s, op)), Taking(s, op);
      StepMovesCommands(s, op);
      AcceptedGrows(run, ops, n);
      Regroup(Emitted(run, ops, n - 1), out, Step(s, op).buffer, s.buffer, x, Accepted(run, ops, n - 1));
      assert run[n - 1 + 1] == Step(s, op);
    }
  }

  // ---- When nothing is ever dropped ----

  /** The configurations under which no command can be dropped. */
  predicate NeverOverflows(c: Config) {
    c.maxBatchSize >= 1 && c.bufferCapacity >= 1 && (c.bufferCapacity >= c.maxBatchSize || c.maxBatchDelay == 0)
  }

  ghost predicate IsFixedRun(c: Config, run: seq<State>, ops: seq<Op>) {
    && IsRun(run, ops)
    && run[0].config == c
    && forall k | 0 <= k < |ops| :: !ops[k].Reconfigure?
  }

  ghost predicate Roomy(c: Config, s: State) {
    && SizeFixed(s) && s.config == c
    && s.stats.commandsDropped == 0
    && |s.buffer| < c.maxBatchSize && |s.buffer| < c.bufferCapacity
    && (c.maxBatchDelay == 0 ==> s.buffer == [])
  }

  lemma StepStaysRoomy(c: Config, s: State, op: Op)
    requires NeverOverflows(c) && Roomy(c, s) && !op.Reconfigure?
    ensures Roomy(c, Step(s, op))
    ensures op.FlushNow? ==> Step(s, op).buffer == []
    ensures Emits(s, op).Some? ==> Step(s, op).buffer == [] && 1 <= |Emits(s, op).value| <= c.maxBatchSize
  {
  }

  lemma {:induction false} StaysRoomy(c: Config, run: seq<State>, ops: seq<Op>, i: nat)
    requires NeverOverflows(c) && IsFixedRun(c, run, ops) && i < |run|
    ensures Roomy(c, run[i])
  {
    if i > 0 {
      StaysRoomy(c, run, ops, i - 1);
      StepStaysRoomy(c, run[i - 1], ops[i - 1]);
      assert run[i - 1 + 1] == Step(run[i - 1], ops[i - 1]);
    }
  }

  /** Under such a configuration a flush always empties the buffer, and so does every
      batch that an addition emits, which is never empty nor over the maximum. */
  lemma FlushEmpties(c: Config, run: seq<State>, ops: seq<Op>, i: nat)
    requires NeverOverflows(c) && IsFixedRun(c, run, ops) && i < |ops|
    requires ops[i].FlushNow? || Emits(run[i], ops[i]).Some?
    ensures run[i + 1].buffer == []
    ensures Emits(run[i], ops[i]).Some? ==> 1 <= |Emits(run[i], ops[i]).value| <= c.maxBatchSize
  {
    StaysRoomy(c, run, ops, i);
    StepStaysRoomy(c, run[i], ops[i]);
  }

  /** Adding commands while no time passes fills the buffer of any other configuration. */
  lemma {:induction false} FillRun(c: Config, n: nat) returns (run: seq<State>, ops: seq<Op>)
    requires !NeverOverflows(c) && n <= c.bufferCapacity + 1
    ensures IsFixedRun(c, run, ops) && |ops| == n
    ensures n <= c.bufferCapacity ==> |run[n].buffer| == n
    ensures n == c.bufferCapacity + 1 ==> run[n].stats.commandsDropped > 0
    ensures run[n].lastFlush == 0 && SizeFixed(run[n]) && run[n].config == c
  {
    if n == 0 {
      run, ops := [New(c, 0)], [];
    } else {
      var run0, ops0 := FillRun(c, n - 1);
      var op := Op.Add(0, 0, 0);
      run, ops := run0 + [Step(run0[n - 1], op)], ops0 + [op];
    }
  }

  /** Exactly those configurations never drop a command in any run. */
  lemma NothingDroppedIff(c: Config)
    ensures NeverOverflows(c) <==>
            forall run: seq<State>, ops: seq<Op>, i: nat | IsFixedRun(c, run, ops) && i < |run| ::
              run[i].stats.commandsDropped == 0
  {
    if NeverOverflows(c) {
      forall run: seq<State>, ops: seq<Op>, i: nat | IsFixedRun(c, run, ops) && i < |run|
        ensures run[i].stats.commandsDropped == 0
      {
        StaysRoomy(c, run, ops, i);
      }
    } else {
      var run, ops := FillRun(c, c.bufferCapacity + 1);
      assert IsFixedRun(c, run, ops) && run[c.bufferCapacity + 1].stats.commandsDropped > 0;
    }
  }
}

/** `EngineState::commit_phase` and `advance_phase` under every interleaving: each
    step below is one access to a shared atomic. Finished calls are kept, so a state
    also tells which results the calls so far returned. */
module CommitInterleaving {
  import opened Types

  type CallId = nat

  /** `Ok(true)`, `Ok(false)` and the error of `commit_phase`. */
  datatype Result = Raised | Unchanged | Rejected

  /** `failures` counts the failed exchanges of the call. */
  datatype Call =
    | Entered(p: Phase)
    | Checked(p: Phase)
    | Looping(p: Phase, seen: Phase, failures: nat)
    | Finished(p: Phase, result: Result, failures: nat)

  datatype State = State(current: Phase, committed: Phase, calls: map<CallId, Call>)

  /** One step: a call begins, loads `current_phase`, loads `last_committed_phase`,
      leaves its loop, tries the compare-exchange (which may fail spuriously), or some
      caller of `advance_phase` adds one. */
  datatype Step =
    | Enter(id: CallId, p: Phase)
    | CheckPhase(id: CallId)
    | LoadCommitted(id: CallId)
    | LeaveLoop(id: CallId)
    | CompareExchange(id: CallId, spurious: bool)
    | Advance

  predicate Enabled(s: State, step: Step) {
    match step
    case Enter(id, _) => id !in s.calls
    case CheckPhase(id) => id in s.calls && s.calls[id].Entered?
    case LoadCommitted(id) => id in s.calls && s.calls[id].Checked?
    case LeaveLoop(id) => id in s.calls && s.calls[id].Looping? && s.calls[id].seen >= s.calls[id].p
    case CompareExchange(id, _) => id in s.calls && s.calls[id].Looping? && s.calls[id].seen < s.calls[id].p
    case Advance => true
  }

  function Apply(s: State, step: Step): State
    requires Enabled(s, step)
  {
    match step
    case Enter(id, p) => s.(calls := s.calls[id := Entered(p)])
    case CheckPhase(id) =>
      var p := s.calls[id].p;
      s.(calls := s.calls[id := if p > s.current then Finished(p, Rejected, 0) else Checked(p)])
    case LoadCommitted(id) =>
      s.(calls := s.calls[id := Looping(s.calls[id].p, s.committed, 0)])
    case LeaveLoop(id) =>
      s.(calls := s.calls[id := Finished(s.calls[id].p, Unchanged, s.calls[id].failures)])
    case CompareExchange(id, spurious) =>
      var Looping(p, seen, failures) := s.calls[id];
      if s.committed == seen && !spurious then
        s.(committed := p, calls := s.calls[id := Finished(p, Raised, failures)])
      else if s.committed >= p then
        s.(calls := s.calls[id := Finished(p, Unchanged, failures + 1)])
      else
        s.(calls := s.calls[id := Looping(p, s.committed, failures + 1)])
    case Advance => s.(current := s.current + 1)
  }

  /** A run: from counters in order and no calls, any steps by anyone. */
  ghost predicate IsRun(run: seq<State>, steps: seq<Step>) {
    && |run| == |steps| + 1
    && run[0].calls == map[]
    && run[0].committed <= run[0].current
    && forall i | 0 <= i < |steps| :: Enabled(run[i], steps[i]) && run[i + 1] == Apply(run[i], steps[i])
  }

  /** The phases whose commit was accepted (either `Ok`). */
  function Accepted(s: State): set<Phase> {
    set id | id in s.calls && s.calls[id].Finished? && s.calls[id].result != Rejected :: s.calls[id].p
  }

  predicate IsMaxOf(m: Phase, xs: set<Phase>) {
    m in xs && forall x | x in xs :: x <= m
  }

  ghost predicate CallInv(s: State, call: Call) {
    match call
    case Entered(_) => true
    case Checked(p) => p <= s.current
    case Looping(p, seen, _) => p <= s.current && seen <= s.committed
    case Finished(p, r, _) => r != Rejected ==> p <= s.committed
  }

  /** Call `id` returned `Ok(true)`. */
  predicate DidRaise(s: State, id: CallId) {
    id in s.calls && s.calls[id].Finished? && s.calls[id].result == Raised
  }

  ghost predicate CallsInv(s: State) {
    && s.committed <= s.current
    && forall id | id in s.calls :: CallInv(s, s.calls[id])
  }

  /** The committed phase is the first one or one that some call raised it to. */
  ghost predicate RaisedFrom(first: Phase, s: State) {
    && first <= s.committed
    && (forall id | DidRaise(s, id) :: s.calls[id].p > first)
    && (s.committed == first || exists id :: DidRaise(s, id) && s.calls[id].p == s.committed)
  }

  ghost predicate SeenFrom(first: Phase, s: State) {
    forall id | id in s.calls && s.calls[id].Looping? :: first <= s.calls[id].seen
  }

  ghost predicate RaisedOnce(s: State) {
    forall i, j | DidRaise(s, i) && DidRaise(s, j) && i != j :: s.calls[i].p != s.calls[j].p
  }

  ghost predicate Inv(first: Phase, s: State) {
    CallsInv(s) && RaisedFrom(first, s) && SeenFrom(first, s) && RaisedOnce(s)
  }

  /** A step changes one call at most, and raises the committed phase only together
      with that call's `Ok(true)`. */
  lemma StepShape(s: State, step: Step)
    requires CallsInv(s) && Enabled(s, step)
    ensures var s' := Apply(s, step);
            && CallsInv(s')
            && (step.Advance? ==> s'.calls == s.calls && s'.committed == s.committed)
            && (!step.Advance? ==>
                  step.id in s'.calls && s'.calls == s.calls[step.id := s'.calls[step.id]] && !DidRaise(s, step.id))
            && (s'.committed != s.committed <==> !step.Advance? && DidRaise(s', step.id))
            && (!step.Advance? && DidRaise(s', step.id) ==> s.committed < s'.committed == s'.calls[step.id].p)
            && (!step.Advance? && step.id in s.calls ==>
                  !s.calls[step.id].Finished? && s'.calls[step.id].p == s.calls[step.id].p)
  {
    var s' := Apply(s, step);
    if !step.Advance? && step.id in s.calls {
      assert CallInv(s, s.calls[step.id]);
    }
    forall id | id in s'.calls
      ensures CallInv(s', s'.calls[id])
    {
      if id in s.calls {
        assert CallInv(s, s.calls[id]);
      }
    }
  }

  lemma RaisersPersist(s: State, step: Step)
    requires CallsInv(s) && Enabled(s, step)
    ensures var s' := Apply(s, step);
            forall id | DidRaise(s, id) :: DidRaise(s', id) && s'.calls[id] == s.calls[id] && s.calls[id].p <= s.committed
  {
    StepShape(s, step);
    forall id | DidRaise(s, id)
      ensures s.calls[id].p <= s.committed
    {
      assert CallInv(s, s.calls[id]);
    }
  }

  lemma StepKeepsSeen(first: Phase, s: State, step: Step)
    requires CallsInv(s) && first <= s.committed && SeenFrom(first, s) && Enabled(s, step)
    ensures SeenFrom(first, Apply(s, step))
  {
  }

  lemma RaisersAfter(s: State, step: Step)
    requires CallsInv(s) && Enabled(s, step)
    ensures forall id | DidRaise(Apply(s, step), id) ::
              DidRaise(s, id) || (!step.Advance? && id == step.id && s.committed < Apply(s, step).calls[id].p)
  {
    StepShape(s, step);
  }

  lemma StepKeeps(first: Phase, s: State, step: Step)
    requires Inv(first, s) && Enabled(s, step)
    ensures Inv(first, Apply(s, step))
  {
    var s' := Apply(s, step);
    StepShape(s, step);
    RaisersPersist(s, step);
    RaisersAfter(s, step);
    StepKeepsSeen(first, s, step);
    if s'.committed == s.committed && s.committed != first {
      var id :| DidRaise(s, id) && s.calls[id].p == s.committed;
      assert DidRaise(s', id);
    }
  }

  lemma {:induction false} RunInv(run: seq<State>, steps: seq<Step>, i: nat)
    requires IsRun(run, steps) && i < |run|
    ensures Inv(run[0].committed, run[i])
  {
    if i > 0 {
      RunInv(run, steps, i - 1);
      StepKeeps(run[0].committed, run[i - 1], steps[i - 1]);
      assert run[i - 1 + 1] == Apply(run[i - 1], steps[i - 1]);
    }
  }

  // ---- The atomic maximum ----

  /** The specification: every commit happens at one instant. */
  datatype Atomic = Atomic(
    current: Phase,
    committed: Phase,
    pending: map<CallId, Phase>,
    done: map<CallId, (Phase, Result)>)

  function CommitAtOnce(a: Atomic, id: CallId): Atomic
    requires id in a.pending
  {
    var p := a.pending[id];
    var result := if p > a.current then Rejected else if p > a.committed then Raised else Unchanged;
    a.(committed := if result == Raised then p else a.committed,
    pending := a.pending - {id},
    done := a.done[id := (p, result)])
  }

  function Begin(a: Atomic, id: CallId, p: Phase): Atomic {
    a.(pending := a.pending[id := p])
  }

  ghost predicate AtomicNext(a: Atomic, a': Atomic) {
    || a' == a
    || a' == a.(current := a.current + 1)
    || (exists id, p :: a' == Begin(a, id, p) && id !in a.pending && id !in a.done)
    || (exists id :: id in a.pending && a' == CommitAtOnce(a, id))
  }

  function Abstract(s: State): Atomic {
    Atomic(s.current, s.committed,
           map id | id in s.calls && !s.calls[id].Finished? :: s.calls[id].p,
           map id | id in s.calls && s.calls[id].Finished? :: (s.calls[id].p, s.calls[id].result))
  }

  lemma FinishingIsAtomic(s: State, s': State, id: CallId, p: Phase, r: Result, k: nat)
    requires id in s.calls && !s.calls[id].Finished? && s.calls[id].p == p
    requires s'.calls == s.calls[id := Finished(p, r, k)] && s'.current == s.current
    requires r == if p > s.current then Rejected else if p > s.committed then Raised else Unchanged
    requires s'.committed == if r == Raised then p else s.committed
    ensures Abstract(s') == CommitAtOnce(Abstract(s), id)
  {
    assert Abstract(s').pending == Abstract(s).pending - {id};
    assert Abstract(s').done == Abstract(s).done[id := (p, r)];
  }

  lemma ContinuingIsInvisible(s: State, s': State, id: CallId, call: Call)
    requires id in s.calls && !s.calls[id].Finished? && !call.Finished? && call.p == s.calls[id].p
    requires s' == s.(calls := s.calls[id := call])
    ensures Abstract(s') == Abstract(s)
  {
    assert Abstract(s').pending == Abstract(s).pending;
    assert Abstract(s').done == Abstract(s).done;
  }

  lemma EnterIsBegin(s: State, id: CallId, p: Phase)
    requires id !in s.calls
    ensures Abstract(s.(calls := s.calls[id := Entered(p)])) == Begin(Abstract(s), id, p)
  {
    var s' := s.(calls := s.calls[id := Entered(p)]);
    assert Abstract(s').pending == Abstract(s).pending[id := p];
    assert Abstract(s').done == Abstract(s).done;
  }

  lemma AdvanceIsAtomic(s: State)
    ensures Abstract(s.(current := s.current + 1)) == Abstract(s).(current := s.current + 1)
  {
  }

  lemma OwnStepRefines(s: State, step: Step)
    requires CallsInv(s) && Enabled(s, step) && !step.Advance? && !step.Enter?
    ensures var a, a' := Abstract(s), Abstract(Apply(s, step));
            a' == a || (step.id in a.pending && a' == CommitAtOnce(a, step.id))
  {
    var s', id := Apply(s, step), step.id;
    var call := s'.calls[id];
    assert CallInv(s, s.calls[id]);
    if call.Finished? {
      FinishingIsAtomic(s, s', id, call.p, call.result, call.failures);
    } else {
      ContinuingIsInvisible(s, s', id, call);
    }
  }

  /** Every interleaved step is one atomic step or none: the compare-exchange loop is
      an atomic maximum that rejects phases beyond the current one. */
  lemma StepRefines(s: State, step: Step)
    requires CallsInv(s) && Enabled(s, step)
    ensures AtomicNext(Abstract(s), Abstract(Apply(s, step)))
  {
    match step {
      case Advance => AdvanceIsAtomic(s);
      case Enter(id, p) => EnterIsBegin(s, id, p);
      case _ => OwnStepRefines(s, step);
    }
  }

  lemma Linearizable(run: seq<State>, steps: seq<Step>, i: nat)
    requires IsRun(run, steps) && i < |steps|
    ensures AtomicNext(Abstract(run[i]), Abstract(run[i + 1]))
  {
    RunInv(run, steps, i);
    StepRefines(run[i], steps[i]);
  }

  // ---- What callers can rely on ----

  /** At every moment the committed phase is the largest of its first value and the
      phases accepted so far, and it never passes the current phase. */
  lemma CommittedIsMaximum(run: seq<State>, steps: seq<Step>, i: nat)
    requires IsRun(run, steps) && i < |run|
    ensures IsMaxOf(run[i].committed, {run[0].committed} + Accepted(run[i]))
    ensures run[i].committed <= run[i].current
  {
    RunInv(run, steps, i);
    var s := run[i];
    if s.committed != run[0].committed {
      var id :| DidRaise(s, id) && s.calls[id].p == s.committed;
      assert s.calls[id].p in Accepted(s);
    }
  }

  /** `Ok(true)` goes exactly to the calls that raised the committed phase, and to no
      two calls for the same phase. */
  lemma RaisedExactlyWhenRaising(run: seq<State>, steps: seq<Step>, i: nat)
    requires IsRun(run, steps) && i < |steps|
    ensures run[i + 1].committed != run[i].committed <==> exists id :: DidRaise(run[i + 1], id) && !DidRaise(run[i], id)
    ensures forall id | DidRaise(run[i + 1], id) && !DidRaise(run[i], id) ::
              run[i].committed < run[i + 1].committed == run[i + 1].calls[id].p
    ensures RaisedOnce(run[i + 1])
  {
    RunInv(run, steps, i);
    RunInv(run, steps, i + 1);
    StepShape(run[i], steps[i]);
    if run[i + 1].committed != run[i].committed {
      assert DidRaise(run[i + 1], steps[i].id) && !DidRaise(run[i], steps[i].id);
    }
  }

  // ---- Progress ----

  predicate StrongOnly(steps: seq<Step>) {
    forall step | step in steps :: step.CompareExchange? ==> !step.spurious
  }

  /** A strong compare-exchange fails exactly when the committed phase has moved since the
      call last saw it, and then another call has raised it beyond what was seen; the
      failing call either ends, its phase reached, or goes round strictly closer to it. */
  lemma FailureMeansProgress(run: seq<State>, steps: seq<Step>, i: nat)
    requires IsRun(run, steps) && i < |steps| && steps[i].CompareExchange? && !steps[i].spurious
    ensures var id := steps[i].id;
            && id in run[i].calls && run[i].calls[id].Looping? && id in run[i + 1].calls
            && (!DidRaise(run[i + 1], id) <==> run[i].committed > run[i].calls[id].seen)
            && (!DidRaise(run[i + 1], id) ==>
                  && (exists other :: other != id && DidRaise(run[i], other) && run[i].calls[other].p == run[i].committed)
                  && match run[i + 1].calls[id]
                     case Looping(p, seen, _) => run[i].calls[id].seen < seen < p
                     case Finished(p, _, _) => p <= run[i].committed
                     case _ => false)
  {
    RunInv(run, steps, i);
    var s, id := run[i], steps[i].id;
    assert CallInv(s, s.calls[id]);
    assert run[i + 1] == Apply(s, steps[i]);
    if s.committed > s.calls[id].seen {
      assert s.committed != run[0].committed;
      var other :| DidRaise(s, other) && s.calls[other].p == s.committed;
    }
  }

  /** Every failure took the call at least one phase on from the first committed one. */
  ghost predicate CallFailures(first: Phase, call: Call) {
    match call
    case Looping(p, seen, failures) => failures <= seen - first && (seen >= p ==> failures == 0)
    case Finished(p, _, failures) => failures == 0 || failures <= p - first
    case _ => true
  }

  ghost predicate FailuresBounded(first: Phase, s: State) {
    forall id | id in s.calls :: CallFailures(first, s.calls[id])
  }

  lemma FailuresStayBounded(first: Phase, s: State, step: Step)
    requires Inv(first, s) && FailuresBounded(first, s) && Enabled(s, step)
    requires step.CompareExchange? ==> !step.spurious
    ensures FailuresBounded(first, Apply(s, step))
  {
    if !step.Advance? && step.id in s.calls {
      assert CallInv(s, s.calls[step.id]) && CallFailures(first, s.calls[step.id]);
    }
  }

  /** Without spurious failures a call for phase `p` fails at most `p - first` times in all,
      where `first` was committed at first, and fewer times as long as it goes on trying. */
  lemma {:induction false} LoopIsBounded(run: seq<State>, steps: seq<Step>, i: nat)
    requires IsRun(run, steps) && StrongOnly(steps) && i < |run|
    ensures FailuresBounded(run[0].committed, run[i])
    ensures forall id | id in run[i].calls && run[i].calls[id].Looping? && run[i].calls[id].seen < run[i].calls[id].p ::
              run[i].calls[id].failures < run[i].calls[id].p - run[0].committed
    ensures forall id | id in run[i].calls && run[i].calls[id].Finished? && run[i].calls[id].failures > 0 ::
              run[i].calls[id].failures <= run[i].calls[id].p - run[0].committed
  {
    if i > 0 {
      LoopIsBounded(run, steps, i - 1);
      RunInv(run, steps, i - 1);
      assert steps[i - 1] in steps;
      FailuresStayBounded(run[0].committed, run[i - 1], steps[i - 1]);
      assert run[i - 1 + 1] == Apply(run[i - 1], steps[i - 1]);
    }
    assert forall id | id in run[i].calls :: CallFailures(run[0].committed, run[i].calls[id]);
  }

  // ---- The bound is met ----

  lemma AppendStep(run: seq<State>, steps: seq<Step>, step: Step) returns (run': seq<State>, steps': seq<Step>)
    requires IsRun(run, steps) && StrongOnly(steps) && Enabled(run[|steps|], step)
    requires step.CompareExchange? ==> !step.spurious
    ensures IsRun(run', steps') && StrongOnly(steps') && |steps'| == |steps| + 1
    ensures run'[0] == run[0] && run'[|steps'|] == Apply(run[|steps|], step)
  {
    run', steps' := run + [Apply(run[|steps|], step)], steps + [step];
  }

  /** A call goes through undisturbed and raises the committed phase. */
  lemma RaiseTo(run: seq<State>, steps: seq<Step>, id: CallId, p: Phase) returns (run': seq<State>, steps': seq<Step>)
    requires IsRun(run, steps) && StrongOnly(steps)
    requires id !in run[|steps|].calls && run[|steps|].committed < p <= run[|steps|].current
    ensures IsRun(run', steps') && StrongOnly(steps') && run'[0] == run[0]
    ensures run'[|steps'|] ==
            State(run[|steps|].current, p, run[|steps|].calls[id := Finished(p, Raised, 0)])
  {
    var s := run[|steps|];
    run', steps' := AppendStep(run, steps, Enter(id, p));
    run', steps' := AppendStep(run', steps', CheckPhase(id));
    run', steps' := AppendStep(run', steps', LoadCommitted(id));
    assert run'[|steps'|] == s.(calls := s.calls[id := Looping(p, s.committed, 0)]);
    run', steps' := AppendStep(run', steps', CompareExchange(id, false));
    assert run'[|steps'|].calls == s.calls[id := Finished(p, Raised, 0)];
  }

  lemma LoadFirst(first: Phase, p: Phase) returns (run: seq<State>, steps: seq<Step>)
    requires first < p
    ensures IsRun(run, steps) && StrongOnly(steps) && run[0] == State(p, first, map[])
    ensures run[|steps|] == State(p, first, map[0 := Looping(p, first, 0)])
  {
    run, steps := [State(p, first, map[])], [];
    run, steps := AppendStep(run, steps, Enter(0, p));
    run, steps := AppendStep(run, steps, CheckPhase(0));
    run, steps := AppendStep(run, steps, LoadCommitted(0));
  }

  /** Call 0 has been overtaken once for every phase from `first + 1` to `v`. */
  ghost predicate Overtaken(s: State, first: Phase, p: Phase, v: Phase)
    requires first <= v <= p
  {
    && s.current == p && s.committed == v
    && (forall id | id in s.calls :: id <= v)
    && 0 in s.calls
    && s.calls[0] == if v < p then Looping(p, v, v - first) else Finished(p, Unchanged, p - first)
  }

  lemma {:induction false} OvertakeTo(first: Phase, p: Phase, v: Phase) returns (run: seq<State>, steps: seq<Step>)
    requires first <= v <= p && first < p
    ensures IsRun(run, steps) && StrongOnly(steps) && run[0] == State(p, first, map[])
    ensures Overtaken(run[|steps|], first, p, v)
    decreases v
  {
    if v == first {
      run, steps := LoadFirst(first, p);
    } else {
      run, steps := OvertakeTo(first, p, v - 1);
      run, steps := RaiseTo(run, steps, v, v);
      run, steps := AppendStep(run, steps, CompareExchange(0, false));
    }
  }

  /** For every phase `p` and first committed phase below it there is a run in which a call
      for `p` fails as often as the bound allows: others overtake it phase by phase. */
  lemma BoundIsMet(first: Phase, p: Phase) returns (run: seq<State>, steps: seq<Step>)
    requires first < p
    ensures IsRun(run, steps) && StrongOnly(steps) && run[0].committed == first
    ensures 0 in run[|steps|].calls && run[|steps|].calls[0] == Finished(p, Unchanged, p - first)
  {
    run, steps := OvertakeTo(first, p, p);
  }
}

/** What a replica applies when decision messages arrive in any order, any number of
    times, and the state machine may refuse commands (`handle_decision`). */
module DecisionRuns {
  import opened Types
  import opened Replica

  /** A decision message arrives, of whose batch the state machine takes up to `accepts`
      commands (and saving afterwards works or not); or the replica moves to its next phase. */
  datatype Event = Deliver(d: Decision, accepts: nat, saveOk: bool) | Advance

  /** The phases and commands taken from decisions, in the order they were applied. */
  type Applied = seq<(Phase, Batch)>

  function Step(s: State, e: Event): State {
    match e
    case Deliver(d, accepts, saveOk) => HandleDecision(s, d, accepts, saveOk).0
    case Advance => s.(current := s.current + 1)
  }

  /** `run` lists the states the events `es` lead through. */
  ghost predicate IsRun(run: seq<State>, es: seq<Event>) {
    && |run| == |es| + 1
    && forall i | 0 <= i < |es| :: run[i + 1] == Step(run[i], es[i])
  }

  /** A decision to commit that carries its batch. */
  predicate Commits(e: Event) {
    e.Deliver? && e.d.value == V1 && e.d.batch.Some?
  }

  /** The commands of the batch that the state machine takes. */
  function Prefix(e: Event): Batch
    requires Commits(e)
  {
    if e.accepts < |e.d.batch.value| then e.d.batch.value[..e.accepts] else e.d.batch.value
  }

  /** The decision goes through: the state machine takes the whole batch, and the replica
      has reached the phase. */
  predicate Lands(s: State, e: Event) {
    Commits(e) && e.accepts >= |e.d.batch.value| && e.d.phase <= s.current
  }

  /** The event leaves a trace: commands, or a commit. */
  predicate TakesEffect(s: State, e: Event) {
    Commits(e) && Applies(s, e.d) && (Lands(s, e) || Prefix(e) != [])
  }

  /** Whatever takes effect goes through. */
  predicate AppliedWhole(s: State, e: Event) {
    TakesEffect(s, e) ==> Lands(s, e)
  }

  ghost predicate AlwaysWhole(run: seq<State>, es: seq<Event>, n: nat)
    requires n <= |es| <= |run|
  {
    forall i | 0 <= i < n :: AppliedWhole(run[i], es[i])
  }

  function Stamp(e: Event): (Phase, Batch)
    requires Commits(e)
  {
    (e.d.phase, Prefix(e))
  }

  /** What was applied during the first `n` events. */
  function AppliedIn(run: seq<State>, es: seq<Event>, n: nat): Applied
    requires n <= |es| <= |run|
  {
    if n == 0 then []
    else if TakesEffect(run[n - 1], es[n - 1]) then AppliedIn(run, es, n - 1) + [Stamp(es[n - 1])]
    else AppliedIn(run, es, n - 1)
  }

  function Commands(a: Applied): Machine {
    if a == [] then [] else Commands(a[..|a| - 1]) + a[|a| - 1].1
  }

  // ---- What every run keeps ----

  /** `c` is the largest of the first committed phase and the phases of the decisions that
      went through during the first `n` events. */
  ghost predicate IsLargest(run: seq<State>, es: seq<Event>, n: nat, c: Phase)
    requires n <= |es| < |run|
  {
    && c >= run[0].committed
    && (forall j | 0 <= j < n && Lands(run[j], es[j]) :: es[j].d.phase <= c)
    && (c == run[0].committed || exists j :: 0 <= j < n && Lands(run[j], es[j]) && es[j].d.phase == c)
  }

  /** What one event does to the machine and the committed phase. */
  lemma StepEffect(s: State, e: Event)
    ensures Step(s, e).machine == if TakesEffect(s, e) then s.machine + Prefix(e) else s.machine
    ensures Step(s, e).committed == if Lands(s, e) && e.d.phase > s.committed then e.d.phase else s.committed
    ensures Step(s, e).current == if e.Advance? then s.current + 1 else s.current
  {
    if Commits(e) && Prefix(e) == [] {
      assert s.machine + Prefix(e) == s.machine;
    }
  }

  /** What the handler reports: a failure exactly when the decision was due and did not go
      through, and which of the two reasons came first. */
  lemma OutcomeTells(s: State, e: Event)
    requires e.Deliver?
    ensures var outcome := HandleDecision(s, e.d, e.accepts, e.saveOk).1;
            && (outcome != Done <==> Commits(e) && e.d.phase > s.committed && !Lands(s, e))
            && (outcome == ApplyFailed <==> Commits(e) && e.d.phase > s.committed && |Prefix(e)| < |e.d.batch.value|)
            && (outcome == Done && Commits(e) ==> Step(s, e).committed >= e.d.phase)
  {
  }

  lemma {:induction false} CommittedTracks(run: seq<State>, es: seq<Event>, n: nat)
    requires IsRun(run, es) && n <= |es|
    ensures IsLargest(run, es, n, run[n].committed)
  {
    if n > 0 {
      CommittedTracks(run, es, n - 1);
      StepEffect(run[n - 1], es[n - 1]);
      assert run[n - 1 + 1] == Step(run[n - 1], es[n - 1]);
    }
  }

  lemma CommandsAppend(a: Applied, x: (Phase, Batch))
    ensures Commands(a + [x]) == Commands(a) + x.1
  {
    assert (a + [x])[..|a|] == a;
  }

  lemma EffectAt(run: seq<State>, es: seq<Event>, n: nat)
    requires IsRun(run, es) && n < |es|
    ensures run[n + 1].machine == if TakesEffect(run[n], es[n]) then run[n].machine + Stamp(es[n]).1 else run[n].machine
  {
    StepEffect(run[n], es[n]);
  }

  lemma CommandsExtend(first: Machine, a: Applied, m: Machine, x: (Phase, Batch))
    requires m == first + Commands(a)
    ensures m + x.1 == first + Commands(a + [x])
  {
    CommandsAppend(a, x);
    ConcatAssociates(first, Commands(a), x.1);
  }

  lemma AppliedGrows(run: seq<State>, es: seq<Event>, n: nat)
    requires n < |es| <= |run|
    ensures AppliedIn(run, es, n + 1) ==
            if TakesEffect(run[n], es[n]) then AppliedIn(run, es, n) + [Stamp(es[n])] else AppliedIn(run, es, n)
  {
  }

  lemma MachineStep(run: seq<State>, es: seq<Event>, n: nat)
    requires IsRun(run, es) && n < |es|
    requires run[n].machine == run[0].machine + Commands(AppliedIn(run, es, n))
    ensures run[n + 1].machine == run[0].machine + Commands(AppliedIn(run, es, n + 1))
  {
    AppliedGrows(run, es, n);
    EffectAt(run, es, n);
    if TakesEffect(run[n], es[n]) {
      CommandsExtend(run[0].machine, AppliedIn(run, es, n), run[n].machine, Stamp(es[n]));
    }
  }

  /** In every run the machine is extended by just what was applied. */
  lemma {:induction false} MachineIsApplied(run: seq<State>, es: seq<Event>, n: nat)
    requires IsRun(run, es) && n <= |es|
    ensures run[n].machine == run[0].machine + Commands(AppliedIn(run, es, n))
  {
    if n > 0 {
      MachineIsApplied(run, es, n - 1);
      MachineStep(run, es, n - 1);
    }
  }

  // ---- What ought to be applied ----

  /** The `i`-th event goes through beyond every phase that went through before it. */
  ghost predicate IsRecord(run: seq<State>, es: seq<Event>, i: nat)
    requires i < |es| < |run|
  {
    && Lands(run[i], es[i])
    && es[i].d.phase > run[0].committed
    && forall j | 0 <= j < i && Lands(run[j], es[j]) :: es[j].d.phase < es[i].d.phase
  }

  /** The batches that ought to be applied: those of the successive records, entire. */
  ghost function Records(run: seq<State>, es: seq<Event>, n: nat): Applied
    requires n <= |es| < |run|
  {
    if n == 0 then []
    else if IsRecord(run, es, n - 1) then Records(run, es, n - 1) + [(es[n - 1].d.phase, es[n - 1].d.batch.value)]
    else Records(run, es, n - 1)
  }

  lemma EffectIffRecord(run: seq<State>, es: seq<Event>, n: nat)
    requires IsRun(run, es) && n < |es| && AppliedWhole(run[n], es[n])
    ensures TakesEffect(run[n], es[n]) <==> IsRecord(run, es, n)
  {
    CommittedTracks(run, es, n);
  }

  lemma {:induction false} AppliedAreRecords(run: seq<State>, es: seq<Event>, n: nat)
    requires IsRun(run, es) && n <= |es| && AlwaysWhole(run, es, n)
    ensures AppliedIn(run, es, n) == Records(run, es, n)
  {
    if n > 0 {
      AppliedAreRecords(run, es, n - 1);
      EffectIffRecord(run, es, n - 1);
    }
  }

  ghost predicate StrictlyIncreasing(a: Applied) {
    forall i, j | 0 <= i < j < |a| :: a[i].0 < a[j].0
  }

  lemma IncreasingAppend(a: Applied, x: (Phase, Batch))
    requires StrictlyIncreasing(a) && (a != [] ==> a[|a| - 1].0 < x.0)
    ensures StrictlyIncreasing(a + [x])
  {
    var b := a + [x];
    forall i, j | 0 <= i < j < |b|
      ensures b[i].0 < b[j].0
    {
      if j == |a| && i < |a| - 1 {
        assert a[i].0 < a[|a| - 1].0;
      }
    }
  }

  /** The batches `a` lead from one machine to another and end at the committed phase. */
  ghost predicate Explains(s: State, a: Applied, s': State) {
    && StrictlyIncreasing(a)
    && s'.machine == s.machine + Commands(a)
    && s'.committed == (if a == [] then s.committed else a[|a| - 1].0)
  }

  lemma {:induction false} WholeIncreases(run: seq<State>, es: seq<Event>, n: nat)
    requires IsRun(run, es) && n <= |es| && AlwaysWhole(run, es, n)
    ensures var a := AppliedIn(run, es, n);
            && StrictlyIncreasing(a)
            && run[n].committed == (if a == [] then run[0].committed else a[|a| - 1].0)
  {
    if n > 0 {
      WholeIncreases(run, es, n - 1);
      StepEffect(run[n - 1], es[n - 1]);
      assert run[n - 1 + 1] == Step(run[n - 1], es[n - 1]);
      if TakesEffect(run[n - 1], es[n - 1]) {
        IncreasingAppend(AppliedIn(run, es, n - 1), Stamp(es[n - 1]));
      }
    }
  }

  /** Decision application: as long as whatever takes effect goes through, duplicated,
      reordered decisions apply exactly the batches of the successive records, each phase at
      most once and in increasing order; the state machine is extended by exactly those
      batches, and the committed phase is the last one applied. */
  lemma DecisionsApplyInOrder(run: seq<State>, es: seq<Event>, n: nat)
    requires IsRun(run, es) && n <= |es| && AlwaysWhole(run, es, n)
    ensures AppliedIn(run, es, n) == Records(run, es, n)
    ensures Explains(run[0], AppliedIn(run, es, n), run[n])
  {
    AppliedAreRecords(run, es, n);
    MachineIsApplied(run, es, n);
    WholeIncreases(run, es, n);
  }

  // ---- Where the guarantee ends ----

  /** What takes effect without going through is in the machine, but not committed. */
  lemma PartUnexplained(run: seq<State>, es: seq<Event>, n: nat)
    requires IsRun(run, es) && n < |es| && !AppliedWhole(run[n], es[n])
    ensures !Explains(run[0], AppliedIn(run, es, n + 1), run[n + 1])
  {
    assert run[n + 1] == Step(run[n], es[n]);
    StepEffect(run[n], es[n]);
    assert AppliedIn(run, es, n + 1)[|AppliedIn(run, es, n)|] == Stamp(es[n]);
  }

  ghost predicate ExplainedAfter(run: seq<State>, es: seq<Event>, i: nat)
    requires i <= |es| < |run|
  {
    Explains(run[0], AppliedIn(run, es, i), run[i])
  }

  /** After each of the first `n` events, what was applied so far comes in strictly
      increasing phase order, extends the machine by just itself, and ends at the
      committed phase. */
  ghost predicate AlwaysExplained(run: seq<State>, es: seq<Event>, n: nat)
    requires n <= |es| < |run|
  {
    forall i: nat | i <= n :: ExplainedAfter(run, es, i)
  }

  /** The guarantee holds throughout a run exactly when no batch left commands behind that
      was refused midway or was ahead of the replica. */
  lemma ExplainedIff(run: seq<State>, es: seq<Event>, n: nat)
    requires IsRun(run, es) && n <= |es|
    ensures AlwaysExplained(run, es, n) <==> AlwaysWhole(run, es, n)
  {
    if AlwaysWhole(run, es, n) {
      forall i: nat | i <= n
        ensures ExplainedAfter(run, es, i)
      {
        DecisionsApplyInOrder(run, es, i);
      }
    }
    if AlwaysExplained(run, es, n) {
      forall i | 0 <= i < n
        ensures AppliedWhole(run[i], es[i])
      {
        if !AppliedWhole(run[i], es[i]) {
          assert ExplainedAfter(run, es, i + 1);
          PartUnexplained(run, es, i);
        }
      }
    }
  }

  /** A decision that is due and delivered twice is applied once and committed exactly when
      it goes through at once, or leaves nothing behind and goes through the second time. */
  lemma AppliedOnceIff(s: State, d: Decision, accepts1: nat, saveOk1: bool, accepts2: nat, saveOk2: bool)
    requires Applies(s, d)
    ensures var e1, e2 := Deliver(d, accepts1, saveOk1), Deliver(d, accepts2, saveOk2);
            var s' := Step(Step(s, e1), e2);
            s'.machine == s.machine + d.batch.value && s'.committed == d.phase
            <==> Lands(s, e1) || (Prefix(e1) == [] && Lands(s, e2))
  {
    var e1, e2 := Deliver(d, accepts1, saveOk1), Deliver(d, accepts2, saveOk2);
    var s1 := Step(s, e1);
    StepEffect(s, e1);
    StepEffect(s1, e2);
    if !Lands(s, e1) {
      assert s1.machine == s.machine + Prefix(e1) by {
        if Prefix(e1) == [] {
          assert s.machine + [] == s.machine;
        }
      }
      if Lands(s, e2) {
        assert |s.machine + Prefix(e1) + d.batch.value| == |s.machine| + |Prefix(e1)| + |d.batch.value|;
        assert Prefix(e1) == [] ==> s.machine + [] == s.machine;
      }
    }
  }

  /** Whatever takes effect without going through does so again when it is repeated. */
  lemma RepeatedAgain(s: State, e: Event)
    requires TakesEffect(s, e) && !Lands(s, e)
    ensures Step(Step(s, e), e).machine == s.machine + Prefix(e) + Prefix(e)
    ensures Step(Step(s, e), e).committed == Step(s, e).committed == s.committed
  {
    StepEffect(s, e);
    StepEffect(Step(s, e), e);
  }

  lemma Repeated(s: State, e: Event) returns (run: seq<State>)
    requires TakesEffect(s, e) && !Lands(s, e)
    ensures IsRun(run, [e, e]) && run[0] == s && run[2].committed == s.committed
    ensures run[2].machine == s.machine + Prefix(e) + Prefix(e)
    ensures !ExplainedAfter(run, [e, e], 1)
  {
    run := [s, Step(s, e), Step(Step(s, e), e)];
    RepeatedAgain(s, e);
    PartUnexplained(run, [e, e], 0);
  }

  /** The state machine refuses the second command of a batch that is delivered twice: the
      first command is applied twice, and nothing is committed. */
  lemma RefusedIsRepeated(x: Command, y: Command) returns (run: seq<State>, es: seq<Event>)
    ensures IsRun(run, es) && |es| == 2 && es[0] == es[1]
    ensures es[0].Deliver? && es[0].d == Decision(1, V1, Some([x, y])) && run[0].current == 1
    ensures run[2].machine == run[0].machine + [x, x] && run[2].committed == run[0].committed == 0
    ensures !ExplainedAfter(run, es, 1)
  {
    var e := Deliver(Decision(1, V1, Some([x, y])), 1, true);
    assert Prefix(e) == [x] && [] + [x] + [x] == [] + [x, x];
    es := [e, e];
    run := Repeated(State(1, 0, [], None, map[]), e);
  }

  /** A decision ahead of the replica is applied each time it arrives, and not committed. */
  lemma AheadIsRepeated(x: Command) returns (run: seq<State>, es: seq<Event>)
    ensures IsRun(run, es) && |es| == 2 && es[0] == es[1]
    ensures es[0].Deliver? && es[0].d == Decision(1, V1, Some([x])) && run[0].current == 0
    ensures run[2].machine == run[0].machine + [x, x] && run[2].committed == run[0].committed == 0
    ensures !ExplainedAfter(run, es, 1)
  {
    var e := Deliver(Decision(1, V1, Some([x])), 1, true);
    assert Prefix(e) == [x] && [] + [x] + [x] == [] + [x, x];
    es := [e, e];
    run := Repeated(State(0, 0, [], None, map[]), e);
  }
}

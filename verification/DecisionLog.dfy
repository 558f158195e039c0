/** When a replica's state machine is the decided log: decisions that are overtaken by a
    later one are never applied, so order of arrival matters. */
module DecisionLog {
  import opened Types
  import opened Replica
  import opened DecisionRuns

  /** What the cluster decided to commit, phase by phase. */
  type Log = map<Phase, Batch>

  /** The decided batches of the phases after `lo` up to `hi`, in order. */
  function Entries(log: Log, lo: Phase, hi: Phase): Applied
    decreases hi
  {
    if hi <= lo then []
    else Entries(log, lo, hi - 1) + if hi in log then [(hi, log[hi])] else []
  }

  /** Every decision delivered is the one the cluster took for its phase. */
  ghost predicate FromLog(log: Log, es: seq<Event>) {
    forall i | 0 <= i < |es| && Commits(es[i]) :: es[i].d.phase in log && log[es[i].d.phase] == es[i].d.batch.value
  }

  /** The event does not take effect past a decided phase that is still missing. */
  ghost predicate SkipsNothing(log: Log, s: State, e: Event) {
    TakesEffect(s, e) ==> forall p: Phase | s.committed < p < e.d.phase :: p !in log
  }

  ghost predicate NothingSkipped(log: Log, run: seq<State>, es: seq<Event>, n: nat)
    requires n <= |es| <= |run|
  {
    forall i | 0 <= i < n :: SkipsNothing(log, run[i], es[i])
  }

  lemma {:induction false} EntriesSplit(log: Log, lo: Phase, mid: Phase, hi: Phase)
    requires lo <= mid <= hi
    ensures Entries(log, lo, hi) == Entries(log, lo, mid) + Entries(log, mid, hi)
    decreases hi
  {
    if mid < hi {
      EntriesSplit(log, lo, mid, hi - 1);
    }
  }

  /** A stretch of the log is empty exactly when nothing was decided in it, and otherwise
      ends with a phase of that stretch. */
  lemma {:induction false} EntriesEmptyIff(log: Log, lo: Phase, hi: Phase)
    ensures Entries(log, lo, hi) == [] <==> forall p: Phase | lo < p <= hi :: p !in log
    ensures var es := Entries(log, lo, hi); es != [] ==> lo < es[|es| - 1].0 <= hi
    decreases hi
  {
    if lo < hi {
      EntriesEmptyIff(log, lo, hi - 1);
    }
  }

  lemma AppendIff<T>(a: seq<T>, b: seq<T>, x: T)
    ensures a + [x] == b + [x] <==> a == b
  {
    if a + [x] == b + [x] {
      assert a == (a + [x])[..|a|];
      assert b == (b + [x])[..|b|];
    }
  }

  lemma LastOfConcat<T>(a: seq<T>, b: seq<T>)
    requires b != []
    ensures (a + b)[|a + b| - 1] == b[|b| - 1]
  {
  }

  /** A list of batches that ends at `c0` is the log up to just before `c` exactly when it
      is the log up to `c0` and nothing was decided in between. */
  lemma StretchIff(log: Log, a: Applied, lo: Phase, c0: Phase, c: Phase)
    requires lo <= c0 < c
    requires a != [] ==> a[|a| - 1].0 == c0
    ensures a == Entries(log, lo, c - 1) <==> a == Entries(log, lo, c0) && forall p: Phase | c0 < p < c :: p !in log
  {
    var gap := Entries(log, c0, c - 1);
    EntriesSplit(log, lo, c0, c - 1);
    EntriesEmptyIff(log, c0, c - 1);
    if gap == [] {
      assert Entries(log, lo, c0) + gap == Entries(log, lo, c0);
    } else {
      LastOfConcat(Entries(log, lo, c0), gap);
    }
  }

  lemma StretchThenOneIff(log: Log, a: Applied, lo: Phase, c0: Phase, x: (Phase, Batch))
    requires lo <= c0 < x.0 && x.0 in log && log[x.0] == x.1
    requires a != [] ==> a[|a| - 1].0 == c0
    ensures a + [x] == Entries(log, lo, x.0) <==> a == Entries(log, lo, c0) && forall p: Phase | c0 < p < x.0 :: p !in log
  {
    StretchIff(log, a, lo, c0, x.0);
    AppendIff(a, Entries(log, lo, x.0 - 1), x);
  }

  lemma NothingSkippedStep(log: Log, run: seq<State>, es: seq<Event>, n: nat)
    requires 0 < n <= |es| <= |run|
    ensures NothingSkipped(log, run, es, n) <==>
            NothingSkipped(log, run, es, n - 1) && SkipsNothing(log, run[n - 1], es[n - 1])
  {
  }

  lemma CommittedFrom(run: seq<State>, es: seq<Event>, n: nat)
    requires IsRun(run, es) && n <= |es| && AlwaysWhole(run, es, n)
    ensures run[0].committed <= run[n].committed
    ensures var a := AppliedIn(run, es, n); a != [] ==> a[|a| - 1].0 == run[n].committed
  {
    CommittedTracks(run, es, n);
    DecisionsApplyInOrder(run, es, n);
  }

  /** What a replica has applied is the decided log up to its committed phase exactly when
      no decision ever arrived before one of a smaller phase still missing. */
  lemma {:induction false} FollowsLogIff(log: Log, run: seq<State>, es: seq<Event>, n: nat)
    requires IsRun(run, es) && n <= |es| && AlwaysWhole(run, es, n) && FromLog(log, es)
    ensures AppliedIn(run, es, n) == Entries(log, run[0].committed, run[n].committed) <==> NothingSkipped(log, run, es, n)
  {
    var lo := run[0].committed;
    if n > 0 {
      FollowsLogIff(log, run, es, n - 1);
      CommittedFrom(run, es, n - 1);
      var s, e, a := run[n - 1], es[n - 1], AppliedIn(run, es, n - 1);
      assert run[n - 1 + 1] == Step(s, e);
      StepEffect(s, e);
      NothingSkippedStep(log, run, es, n);
      if TakesEffect(s, e) {
        StretchThenOneIff(log, a, lo, s.committed, Stamp(e));
      }
    }
  }

  ghost predicate FollowsAfter(log: Log, run: seq<State>, es: seq<Event>, i: nat)
    requires i <= |es| < |run|
  {
    AppliedIn(run, es, i) == Entries(log, run[0].committed, run[i].committed)
  }

  ghost predicate AlwaysFollows(log: Log, run: seq<State>, es: seq<Event>, n: nat)
    requires n <= |es| < |run|
  {
    forall i: nat | i <= n :: FollowsAfter(log, run, es, i)
  }

  lemma PartDoesNotFollow(log: Log, run: seq<State>, es: seq<Event>, n: nat)
    requires IsRun(run, es) && n < |es| && !AppliedWhole(run[n], es[n])
    ensures !FollowsAfter(log, run, es, n + 1)
  {
    assert run[n + 1] == Step(run[n], es[n]);
    var a := AppliedIn(run, es, n + 1);
    assert a[|a| - 1] == Stamp(es[n]) && es[n].d.phase > run[n + 1].committed;
    EntriesEmptyIff(log, run[0].committed, run[n + 1].committed);
  }

  /** A replica's applied batches are the decided log up to its committed phase throughout
      a run exactly when whatever takes effect goes through and nothing is skipped. */
  lemma AlwaysFollowsIff(log: Log, run: seq<State>, es: seq<Event>, n: nat)
    requires IsRun(run, es) && n <= |es| && FromLog(log, es)
    ensures AlwaysFollows(log, run, es, n) <==> AlwaysWhole(run, es, n) && NothingSkipped(log, run, es, n)
  {
    if AlwaysWhole(run, es, n) && NothingSkipped(log, run, es, n) {
      forall i: nat | i <= n
        ensures FollowsAfter(log, run, es, i)
      {
        FollowsLogIff(log, run, es, i);
      }
    }
    if AlwaysFollows(log, run, es, n) {
      forall i | 0 <= i < n
        ensures AppliedWhole(run[i], es[i])
      {
        assert FollowsAfter(log, run, es, i + 1);
        if !AppliedWhole(run[i], es[i]) {
          PartDoesNotFollow(log, run, es, i);
        }
      }
      assert FollowsAfter(log, run, es, n);
      FollowsLogIff(log, run, es, n);
    }
  }

  /** Two replicas that started alike, skipped nothing and committed equally far hold the
      same state machine, whatever each of them received, how often and in which order. */
  lemma ReplicasFollowLog(log: Log, run1: seq<State>, es1: seq<Event>, run2: seq<State>, es2: seq<Event>)
    requires IsRun(run1, es1) && AlwaysWhole(run1, es1, |es1|) && FromLog(log, es1) && NothingSkipped(log, run1, es1, |es1|)
    requires IsRun(run2, es2) && AlwaysWhole(run2, es2, |es2|) && FromLog(log, es2) && NothingSkipped(log, run2, es2, |es2|)
    requires run1[0].committed == run2[0].committed && run1[0].machine == run2[0].machine
    requires run1[|es1|].committed == run2[|es2|].committed
    ensures run1[|es1|].machine == run2[|es2|].machine
    ensures run1[|es1|].machine == run1[0].machine + Commands(Entries(log, run1[0].committed, run1[|es1|].committed))
  {
    FollowsLogIff(log, run1, es1, |es1|);
    FollowsLogIff(log, run2, es2, |es2|);
    DecisionsApplyInOrder(run1, es1, |es1|);
    DecisionsApplyInOrder(run2, es2, |es2|);
  }

  /** Phase 2 is decided before phase 1 arrives: phase 1 is never applied, and the replica's
      machine is not the decided log. */
  lemma OvertakenIsSkipped(first: Command, second: Command)
    returns (log: Log, run: seq<State>, es: seq<Event>)
    ensures log == map[1 := [first], 2 := [second]] && FromLog(log, es)
    ensures IsRun(run, es) && |es| == 2 && AlwaysWhole(run, es, 2) && run[0].committed == 0 && run[0].machine == []
    ensures run[2].committed == 2 && run[2].machine == [second] != Commands(Entries(log, 0, 2))
    ensures !NothingSkipped(log, run, es, 2)
  {
    log := map[1 := [first], 2 := [second]];
    es := [Deliver(Decision(2, V1, Some([second])), 1, true), Deliver(Decision(1, V1, Some([first])), 1, true)];
    var s0 := State(2, 0, [], None, map[]);
    run := [s0, Step(s0, es[0]), Step(Step(s0, es[0]), es[1])];
    assert run[1].machine == [second] && run[1].committed == 2;
    assert run[2] == run[1];
    EntriesSplit(log, 0, 1, 2);
    assert Entries(log, 0, 1) == [(1, [first])] && Entries(log, 1, 2) == [(2, [second])];
    CommandsAppend([(1, [first])], (2, [second]));
    CommandsAppend([], (1, [first]));
    assert |Commands(Entries(log, 0, 2))| == 2 by {
      assert [] + [(1, [first])] == [(1, [first])];
    }
    assert !SkipsNothing(log, s0, es[0]);
  }
}

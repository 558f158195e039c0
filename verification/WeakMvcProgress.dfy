/** Weak MVC never gets stuck: from every state of every run, any majority can by its own
    actions alone go on to a state in which all its members have decided one value. */
module WeakMvcProgress {
  import opened Types
  import opened Quorum
  import opened WeakMvc
  import opened WeakMvcInvariant
  import opened WeakMvcSafety

  // ---- Continuations by some nodes ----

  ghost predicate StepBy(c: ClusterConfig, q: set<NodeId>, s: State, s': State) {
    exists a: Action :: a.n in q && Enabled(c, s, a) && s' == Apply(s, a)
  }

  /** Each state of the trace follows from the one before by an action of a node in `q`. */
  ghost predicate Trace(c: ClusterConfig, q: set<NodeId>, trace: seq<State>) {
    |trace| > 0 && forall i | 0 <= i < |trace| - 1 :: StepBy(c, q, trace[i], trace[i + 1])
  }

  ghost predicate Goes(c: ClusterConfig, q: set<NodeId>, s: State, s': State) {
    exists trace :: Trace(c, q, trace) && trace[0] == s && trace[|trace| - 1] == s'
  }

  ghost predicate Reachable(c: ClusterConfig, s: State) {
    exists run :: IsRun(c, run) && run[|run| - 1] == s
  }

  lemma GoesNowhere(c: ClusterConfig, q: set<NodeId>, s: State)
    ensures Goes(c, q, s, s)
  {
    assert Trace(c, q, [s]);
  }

  lemma GoesThen(c: ClusterConfig, q: set<NodeId>, s: State, s1: State, s2: State)
    requires Goes(c, q, s, s1) && Goes(c, q, s1, s2)
    ensures Goes(c, q, s, s2)
  {
    var t1 :| Trace(c, q, t1) && t1[0] == s && t1[|t1| - 1] == s1;
    var t2 :| Trace(c, q, t2) && t2[0] == s1 && t2[|t2| - 1] == s2;
    var t := t1 + t2[1..];
    forall i | 0 <= i < |t| - 1
      ensures StepBy(c, q, t[i], t[i + 1])
    {
      if i < |t1| - 1 {
        assert StepBy(c, q, t1[i], t1[i + 1]);
      } else {
        var k := i - |t1| + 1;
        assert StepBy(c, q, t2[k], t2[k + 1]);
        assert t[i] == t2[k] && t[i + 1] == t2[k + 1];
      }
    }
    assert Trace(c, q, t) && t[|t| - 1] == s2;
  }

  /** A trace from the end of a run continues the run. */
  lemma Prolong(c: ClusterConfig, q: set<NodeId>, run: seq<State>, trace: seq<State>) returns (run': seq<State>)
    requires IsRun(c, run) && Trace(c, q, trace) && trace[0] == run[|run| - 1]
    ensures IsRun(c, run') && |run| <= |run'| && run'[..|run|] == run && run'[|run'| - 1] == trace[|trace| - 1]
    ensures forall i | |run| <= i < |run'| :: StepBy(c, q, run'[i - 1], run'[i])
  {
    run' := run + trace[1..];
    forall i | |run| <= i < |run'|
      ensures StepBy(c, q, run'[i - 1], run'[i])
    {
      var k := i - |run|;
      assert StepBy(c, q, trace[k], trace[k + 1]);
      assert run'[i] == trace[k + 1] && run'[i - 1] == trace[k];
    }
    forall i | 0 <= i < |run'| - 1
      ensures Next(c, run'[i], run'[i + 1])
    {
      if i < |run| - 1 {
        assert Next(c, run[i], run[i + 1]);
      } else {
        assert StepBy(c, q, run'[i + 1 - 1], run'[i + 1]);
      }
    }
  }

  lemma ReachableGoes(c: ClusterConfig, q: set<NodeId>, s: State, s': State)
    requires Reachable(c, s) && Goes(c, q, s, s')
    ensures Reachable(c, s')
  {
    var run :| IsRun(c, run) && run[|run| - 1] == s;
    var trace :| Trace(c, q, trace) && trace[0] == s && trace[|trace| - 1] == s';
    var run' := Prolong(c, q, run, trace);
  }

  /** One action of a node in `q`. */
  lemma Act(c: ClusterConfig, q: set<NodeId>, s: State, a: Action)
    requires Reachable(c, s) && a.n in q && Enabled(c, s, a)
    ensures Goes(c, q, s, Apply(s, a)) && Reachable(c, Apply(s, a))
  {
    var s' := Apply(s, a);
    assert StepBy(c, q, s, s');
    assert Trace(c, q, [s, s']);
    ReachableGoes(c, q, s, s');
  }

  // ---- What a node has behind it ----

  /** A node that has started is in some phase, and has voted in both rounds of every
      phase before. */
  ghost predicate Walked(s: State) {
    && (forall n, p: Phase :: (n, p) in s.inPhase ==> Passed(s, n, p))
    && (forall n :: !Fresh(s, n) ==> InSome(s, n))
  }

  ghost predicate Passed(s: State, n: NodeId, p: Phase) {
    forall p': Phase | p' < p :: Cast1(s, n, p') && Cast2(s, n, p')
  }

  lemma PassedGrows(s: State, s': State, n: NodeId, p: Phase)
    requires Grows(s, s') && Passed(s, n, p)
    ensures Passed(s', n, p)
  {
    CastGrows(s, s');
  }

  ghost predicate InSome(s: State, n: NodeId) {
    exists p: Phase :: (n, p) in s.inPhase
  }

  lemma LeavingPhases(c: ClusterConfig, s: State, a: Action)
    requires a.PhaseRnd2? && Enabled(c, s, a)
    ensures Grows(s, Apply(s, a)) && (a.n, a.p + 1) in Apply(s, a).inPhase
    ensures forall n, p: Phase | (n, p) in Apply(s, a).inPhase :: (n, p) in s.inPhase || (n == a.n && p == a.p + 1)
    ensures forall n, p: Phase | n != a.n && (n, p) in s.inPhase :: (n, p) in Apply(s, a).inPhase
    ensures forall n | n != a.n && Fresh(s, n) :: Fresh(Apply(s, a), n)
  {
    var s' := Apply(s, a);
    assert forall t | t in s'.vote1 :: t in s.vote1 || t.0 == a.n;
    assert forall t | t in s'.decision :: t in s.decision || t.0 == a.n;
    assert forall t | t in s'.inPhase :: t in s.inPhase || t.0 == a.n;
  }

  lemma LeftBehind(s: State, n: NodeId, p: Phase)
    requires Frontier(s) && Passed(s, n, p) && (n, p) in s.inPhase && Cast2(s, n, p)
    ensures Passed(s, n, p + 1)
  {
    forall p': Phase | p' < p + 1
      ensures Cast1(s, n, p') && Cast2(s, n, p')
    {
      if p' == p {
        assert Cast1(s, n, p);
      }
    }
  }

  lemma LeavingWalks(c: ClusterConfig, s: State, a: Action)
    requires Inv(c, s) && Walked(s) && a.PhaseRnd2? && Enabled(c, s, a)
    ensures Walked(Apply(s, a))
  {
    var s' := Apply(s, a);
    LeavingPhases(c, s, a);
    forall n, p: Phase | (n, p) in s'.inPhase
      ensures Passed(s', n, p)
    {
      if (n, p) !in s.inPhase {
        LeftBehind(s, a.n, a.p);
      }
      PassedGrows(s, s', n, p);
    }
    forall n | !Fresh(s', n)
      ensures InSome(s', n)
    {
      if n != a.n {
        StartedStays(s, s', n);
      }
    }
  }

  lemma StartedStays(s: State, s': State, n: NodeId)
    requires Walked(s) && !Fresh(s, n) && forall p: Phase | (n, p) in s.inPhase :: (n, p) in s'.inPhase
    ensures InSome(s', n)
  {
    assert InSome(s, n);
    var p: Phase :| (n, p) in s.inPhase;
    assert (n, p) in s'.inPhase;
  }

  lemma StillFresh(c: ClusterConfig, s: State, a: Action, n: NodeId)
    requires Inv(c, s) && Enabled(c, s, a) && Fresh(s, n) && !a.PhaseRnd2? && !(a.InitialVote1? && n == a.n)
    ensures Fresh(Apply(s, a), n)
  {
    assert a.PhaseRnd1? ==> (a.n, a.p) in s.inPhase;
    assert a.PhaseRnd1? ==> a.n != n;
  }

  lemma StayingPhases(c: ClusterConfig, s: State, a: Action)
    requires !a.PhaseRnd2? && Enabled(c, s, a)
    ensures Grows(s, Apply(s, a)) && s.inPhase <= Apply(s, a).inPhase
    ensures forall n, p: Phase | (n, p) in Apply(s, a).inPhase :: (n, p) in s.inPhase || p == 0
    ensures a.InitialVote1? ==> (a.n, 0) in Apply(s, a).inPhase
  {
  }

  lemma StayingWalks(c: ClusterConfig, s: State, a: Action)
    requires Inv(c, s) && Walked(s) && !a.PhaseRnd2? && Enabled(c, s, a)
    ensures Walked(Apply(s, a))
  {
    var s' := Apply(s, a);
    StayingPhases(c, s, a);
    forall n, p: Phase | (n, p) in s'.inPhase
      ensures Passed(s', n, p)
    {
      PassedGrows(s, s', n, p);
    }
    forall n | !Fresh(s', n)
      ensures InSome(s', n)
    {
      StayingStarted(c, s, a, n);
    }
  }

  lemma StayingStarted(c: ClusterConfig, s: State, a: Action, n: NodeId)
    requires Inv(c, s) && Walked(s) && !a.PhaseRnd2? && Enabled(c, s, a) && !Fresh(Apply(s, a), n)
    ensures InSome(Apply(s, a), n)
  {
    StayingPhases(c, s, a);
    if !(a.InitialVote1? && n == a.n) {
      if Fresh(s, n) {
        StillFresh(c, s, a, n);
        assert false;
      }
      assert InSome(s, n);
      var p: Phase :| (n, p) in s.inPhase;
    }
  }

  lemma {:induction false} RunWalks(c: ClusterConfig, run: seq<State>, i: nat)
    requires IsRun(c, run) && i < |run|
    ensures Walked(run[i])
  {
    if i > 0 {
      RunWalks(c, run, i - 1);
      RunInv(c, run, i - 1);
      assert Next(c, run[i - 1], run[i - 1 + 1]);
      var a :| Enabled(c, run[i - 1], a) && run[i] == Apply(run[i - 1], a);
      if a.PhaseRnd2? {
        LeavingWalks(c, run[i - 1], a);
      } else {
        StayingWalks(c, run[i - 1], a);
      }
    }
  }

  lemma ReachableInv(c: ClusterConfig, s: State)
    requires Reachable(c, s)
    ensures Inv(c, s) && Walked(s)
  {
    var run :| IsRun(c, run) && run[|run| - 1] == s;
    RunInv(c, run, |run| - 1);
    RunWalks(c, run, |run| - 1);
  }

  lemma InPhaseVoted(c: ClusterConfig, s: State, n: NodeId, p: Phase, p': Phase)
    requires Reachable(c, s) && (n, p) in s.inPhase && p' <= p
    ensures Cast1(s, n, p')
    ensures p' < p ==> Cast2(s, n, p')
  {
    ReachableInv(c, s);
    assert Passed(s, n, p);
    if p' == p {
      FrontierVoted(s, n, p);
    }
  }

  lemma FrontierVoted(s: State, n: NodeId, p: Phase)
    requires Frontier(s) && (n, p) in s.inPhase
    ensures Cast1(s, n, p)
  {
  }

  lemma OnePhase(c: ClusterConfig, s: State, n: NodeId, p: Phase, p': Phase)
    requires Reachable(c, s) && (n, p) in s.inPhase && (n, p') in s.inPhase
    ensures p == p'
  {
    ReachableInv(c, s);
  }

  lemma NoVoteAhead(c: ClusterConfig, s: State, n: NodeId, p: Phase, p': Phase)
    requires Reachable(c, s) && (n, p) in s.inPhase && p < p'
    ensures !Cast2(s, n, p')
  {
    ReachableInv(c, s);
  }

  // ---- Entering phase zero ----

  ghost predicate OthersStay(s: State, s': State, n: NodeId) {
    forall m, p :: m != n ==> ((m, p) in s.inPhase <==> (m, p) in s'.inPhase)
  }

  lemma Vote1First(c: ClusterConfig, s: State, q: set<NodeId>, n: NodeId) returns (s': State)
    requires Reachable(c, s) && c.IsMajority(q) && n in q && Fresh(s, n) && exists t <- s.propose :: t.0 == n
    ensures Goes(c, q, s, s') && Reachable(c, s') && (n, 0) in s'.inPhase && OthersStay(s, s', n)
  {
    var a: Action;
    if value :| AllProposed(s, q, value) {
      a := InitialVote1(n, q, Some(value));
    } else {
      a := InitialVote1(n, q, None);
    }
    Act(c, q, s, a);
    s' := Apply(s, a);
  }

  lemma EnterOne(c: ClusterConfig, s: State, q: set<NodeId>, n: NodeId) returns (s': State)
    requires Reachable(c, s) && c.IsMajority(q) && n in q
    ensures Goes(c, q, s, s') && Reachable(c, s') && InSome(s', n) && OthersStay(s, s', n)
  {
    if InSome(s, n) {
      GoesNowhere(c, q, s);
      s' := s;
    } else {
      ReachableInv(c, s);
      var s1 := s;
      GoesNowhere(c, q, s);
      if !exists t <- s.propose :: t.0 == n {
        Act(c, q, s, InitialProposal(n, 0));
        s1 := Apply(s, InitialProposal(n, 0));
        assert (n, 0) in s1.propose;
      }
      s' := Vote1First(c, s1, q, n);
      GoesThen(c, q, s, s1, s');
      assert (n, 0) in s'.inPhase;
    }
  }

  lemma {:induction false} EnterAll(c: ClusterConfig, s: State, q: set<NodeId>, todo: set<NodeId>) returns (s': State)
    requires Reachable(c, s) && c.IsMajority(q) && todo <= q
    ensures Goes(c, q, s, s') && Reachable(c, s') && forall n | n in todo :: InSome(s', n)
    decreases |todo|
  {
    if todo == {} {
      GoesNowhere(c, q, s);
      s' := s;
    } else {
      var n :| n in todo;
      var s1 := EnterAll(c, s, q, todo - {n});
      s' := EnterOne(c, s1, q, n);
      GoesThen(c, q, s, s1, s');
      forall m | m in todo
        ensures InSome(s', m)
      {
        if m != n {
          assert InSome(s1, m);
          var p: Phase :| (m, p) in s1.inPhase;
          assert (m, p) in s'.inPhase;
        }
      }
    }
  }

  // ---- Voting in round 2 ----

  /** The nodes of `todo` cast their round-2 votes of phase `p`, seeing the round-1 votes
      of `q`; nothing else changes. */
  ghost predicate Voted(s: State, s': State, q: set<NodeId>, p: Phase, todo: set<NodeId>) {
    && s' == s.(vote2 := s'.vote2)
    && s.vote2 <= s'.vote2
    && (forall t | t in s'.vote2 :: t in s.vote2 || t.1 == p)
    && (forall n | n in todo :: Cast2(s', n, p))
    && (forall n, v | n in todo && AllVoted1(s, q, p, v) && !Cast2(s, n, p) :: (n, p, v) in s'.vote2)
    && (forall n | n !in todo && !Cast2(s, n, p) :: !Cast2(s', n, p))
  }

  lemma VoteOne(c: ClusterConfig, s: State, q: set<NodeId>, p: Phase, n: NodeId) returns (s': State)
    requires Reachable(c, s) && c.IsMajority(q) && n in q && (n, p) in s.inPhase && AllCast1(s, q, p)
    ensures Goes(c, q, s, s') && Reachable(c, s') && Voted(s, s', q, p, {n})
  {
    if Cast2(s, n, p) {
      GoesNowhere(c, q, s);
      s' := s;
    } else {
      var a: Action, v: StateValue;
      if w :| AllVoted1(s, q, p, w) {
        a, v := PhaseRnd1(n, p, q, Some(w)), w;
        OnlyOneAgreed(c, s, q, p, w);
      } else {
        a, v := PhaseRnd1(n, p, q, None), VQuestion;
      }
      Act(c, q, s, a);
      s' := Apply(s, a);
      assert (n, p, v) in s'.vote2;
      OneMoreVote(s, s', n, p, v);
    }
  }

  lemma OneMoreVote(s: State, s': State, n: NodeId, p: Phase, v: StateValue)
    requires s' == s.(vote2 := s.vote2 + {(n, p, v)})
    ensures forall m | m != n && !Cast2(s, m, p) :: !Cast2(s', m, p)
  {
  }

  lemma OnlyOneAgreed(c: ClusterConfig, s: State, q: set<NodeId>, p: Phase, v: StateValue)
    requires Reachable(c, s) && c.IsMajority(q) && AllVoted1(s, q, p, v)
    ensures forall w :: AllVoted1(s, q, p, w) ==> w == v
  {
    ReachableInv(c, s);
    MajorityNonEmpty(c, q);
    var m :| m in q;
    assert (m, p, v) in s.vote1;
  }

  lemma VotedThen(s: State, s1: State, s2: State, q: set<NodeId>, p: Phase, todo: set<NodeId>, n: NodeId)
    requires Voted(s, s1, q, p, todo) && Voted(s1, s2, q, p, {n}) && n !in todo
    ensures Voted(s, s2, q, p, todo + {n})
  {
    forall m | m in todo + {n}
      ensures Cast2(s2, m, p)
    {
      if m in todo {
        var v :| (m, p, v) in s1.vote2;
        assert (m, p, v) in s2.vote2;
      }
    }
  }

  lemma {:induction false} VoteAll(c: ClusterConfig, s: State, q: set<NodeId>, p: Phase, todo: set<NodeId>) returns (s': State)
    requires Reachable(c, s) && c.IsMajority(q) && todo <= q && AllCast1(s, q, p)
    requires forall n | n in todo :: (n, p) in s.inPhase
    ensures Goes(c, q, s, s') && Reachable(c, s') && Voted(s, s', q, p, todo)
    decreases |todo|
  {
    if todo == {} {
      GoesNowhere(c, q, s);
      s' := s;
    } else {
      var n :| n in todo;
      var rest := todo - {n};
      var s1 := VoteAll(c, s, q, p, rest);
      s' := VoteOne(c, s1, q, p, n);
      GoesThen(c, q, s, s1, s');
      VotedThen(s, s1, s', q, p, rest, n);
      assert rest + {n} == todo;
    }
  }

  // ---- Leaving the phase ----

  /** A node that sees the round-2 votes of `q` may leave phase `p` voting `v`. */
  ghost predicate CanLeave(c: ClusterConfig, s: State, q: set<NodeId>, p: Phase, v: StateValue) {
    exists o: Outcome :: o.v == v && OutcomeAllowed(c, s, p, q, o)
  }

  lemma SomeLeave(c: ClusterConfig, s: State, q: set<NodeId>, p: Phase) returns (v: StateValue)
    ensures v != VQuestion && CanLeave(c, s, q, p, v)
  {
    if w :| w != VQuestion && FPlusOneVoted2(c, s, q, p, w) {
      v := w;
      assert OutcomeAllowed(c, s, p, q, Decide(v));
    } else if w :| w != VQuestion && SomeVoted2(s, q, p, w) {
      v := w;
      assert OutcomeAllowed(c, s, p, q, Adopt(v));
    } else if w :| w != VQuestion && (p, w) in s.coin {
      v := w;
      assert OutcomeAllowed(c, s, p, q, Follow(v));
    } else {
      v := V1;
      assert OutcomeAllowed(c, s, p, q, Flip(v));
    }
  }

  /** The nodes of `todo` have left phase `p` voting `v`, deciding it if an f+1 set stood
      behind it; the other nodes are where they were. */
  ghost predicate Left(c: ClusterConfig, s: State, s': State, q: set<NodeId>, p: Phase, v: StateValue, todo: set<NodeId>) {
    && s'.vote2 == s.vote2 && s.vote1 <= s'.vote1 && s.decision <= s'.decision
    && (forall n | n in todo :: (n, p + 1) in s'.inPhase && (n, p + 1, v) in s'.vote1)
    && (forall n, p' | n !in todo :: (n, p') in s.inPhase <==> (n, p') in s'.inPhase)
    && (FPlusOneVoted2(c, s, q, p, v) ==> forall n | n in todo :: (n, p, v) in s'.decision)
  }

  lemma SameRound2(c: ClusterConfig, s: State, s': State, q: set<NodeId>, p: Phase)
    requires s.vote2 == s'.vote2
    ensures forall v :: FPlusOneVoted2(c, s, q, p, v) <==> FPlusOneVoted2(c, s', q, p, v)
    ensures forall v :: SomeVoted2(s, q, p, v) <==> SomeVoted2(s', q, p, v)
    ensures AllCast2(s, q, p) ==> AllCast2(s', q, p)
  {
    forall v
      ensures FPlusOneVoted2(c, s, q, p, v) <==> FPlusOneVoted2(c, s', q, p, v)
    {
      assert forall f :: AllVoted2(s, f, p, v) <==> AllVoted2(s', f, p, v);
    }
    if AllCast2(s, q, p) {
      forall m | m in q
        ensures Cast2(s', m, p)
      {
        assert Cast2(s, m, p);
        var v :| (m, p, v) in s.vote2;
        assert (m, p, v) in s'.vote2;
      }
    }
  }

  lemma StillLeave(c: ClusterConfig, s: State, q: set<NodeId>, p: Phase, o: Outcome, n: NodeId)
    requires OutcomeAllowed(c, s, p, q, o)
    ensures CanLeave(c, Apply(s, PhaseRnd2(n, p, q, o)), q, p, o.v)
  {
    var s' := Apply(s, PhaseRnd2(n, p, q, o));
    SameRound2(c, s, s', q, p);
    var o' := if o.Flip? then Follow(o.v) else o;
    assert OutcomeAllowed(c, s', p, q, o');
  }

  lemma LeaveOne(c: ClusterConfig, s: State, q: set<NodeId>, p: Phase, v: StateValue, n: NodeId) returns (s': State)
    requires Reachable(c, s) && c.IsMajority(q) && n in q && (n, p) in s.inPhase && AllCast2(s, q, p)
    requires v != VQuestion && CanLeave(c, s, q, p, v)
    ensures Goes(c, q, s, s') && Reachable(c, s') && Left(c, s, s', q, p, v, {n})
    ensures CanLeave(c, s', q, p, v) && AllCast2(s', q, p)
  {
    var o: Outcome :| o.v == v && OutcomeAllowed(c, s, p, q, o);
    var a := PhaseRnd2(n, p, q, o);
    assert Cast2(s, n, p);
    Act(c, q, s, a);
    s' := Apply(s, a);
    StillLeave(c, s, q, p, o, n);
    SameRound2(c, s, s', q, p);
    assert FPlusOneVoted2(c, s, q, p, v) ==> o.Decide? || exists w :: w != VQuestion && FPlusOneVoted2(c, s, q, p, w);
  }

  lemma LeftThen(c: ClusterConfig, s: State, s1: State, s2: State, q: set<NodeId>, p: Phase, v: StateValue,
                 todo: set<NodeId>, n: NodeId)
    requires Left(c, s, s1, q, p, v, todo) && Left(c, s1, s2, q, p, v, {n}) && n !in todo
    ensures Left(c, s, s2, q, p, v, todo + {n})
  {
    SameRound2(c, s, s1, q, p);
  }

  lemma {:induction false} LeaveAll(c: ClusterConfig, s: State, q: set<NodeId>, p: Phase, v: StateValue, todo: set<NodeId>)
    returns (s': State)
    requires Reachable(c, s) && c.IsMajority(q) && todo <= q && AllCast2(s, q, p)
    requires forall n | n in todo :: (n, p) in s.inPhase
    requires v != VQuestion && CanLeave(c, s, q, p, v)
    ensures Goes(c, q, s, s') && Reachable(c, s') && Left(c, s, s', q, p, v, todo)
    ensures CanLeave(c, s', q, p, v) && AllCast2(s', q, p)
    decreases |todo|
  {
    if todo == {} {
      GoesNowhere(c, q, s);
      s' := s;
    } else {
      var n :| n in todo;
      var rest := todo - {n};
      var s1 := LeaveAll(c, s, q, p, v, rest);
      s' := LeaveOne(c, s1, q, p, v, n);
      GoesThen(c, q, s, s1, s');
      LeftThen(c, s, s1, s', q, p, v, rest, n);
      assert rest + {n} == todo;
    }
  }

  // ---- Catching up ----

  /** Every node of `q` is in phase `p` or a later one. */
  ghost predicate FromOn(s: State, q: set<NodeId>, p: Phase) {
    forall n | n in q :: InFrom(s, n, p)
  }

  ghost predicate InFrom(s: State, n: NodeId, p: Phase) {
    exists p': Phase :: p' >= p && (n, p') in s.inPhase
  }

  ghost predicate UpTo(s: State, q: set<NodeId>, p: Phase) {
    forall n, p': Phase | n in q && (n, p') in s.inPhase :: p' <= p
  }

  function At(s: State, q: set<NodeId>, p: Phase): set<NodeId> {
    set n | n in q && (n, p) in s.inPhase
  }

  lemma AllHaveVoted1(c: ClusterConfig, s: State, q: set<NodeId>, p: Phase)
    requires Reachable(c, s) && FromOn(s, q, p)
    ensures AllCast1(s, q, p)
  {
    forall n | n in q
      ensures Cast1(s, n, p)
    {
      assert InFrom(s, n, p);
      var p': Phase :| p' >= p && (n, p') in s.inPhase;
      InPhaseVoted(c, s, n, p', p);
    }
  }

  lemma AllHaveVoted2(c: ClusterConfig, s: State, q: set<NodeId>, p: Phase)
    requires Reachable(c, s) && FromOn(s, q, p) && forall n | n in At(s, q, p) :: Cast2(s, n, p)
    ensures AllCast2(s, q, p)
  {
    forall n | n in q
      ensures Cast2(s, n, p)
    {
      assert InFrom(s, n, p);
      var p': Phase :| p' >= p && (n, p') in s.inPhase;
      if p' == p {
        assert n in At(s, q, p);
      } else {
        InPhaseVoted(c, s, n, p', p);
      }
    }
  }

  lemma LeftMovesOn(c: ClusterConfig, s: State, s': State, q: set<NodeId>, p: Phase, v: StateValue, last: Phase)
    requires Reachable(c, s) && Reachable(c, s') && FromOn(s, q, p) && UpTo(s, q, last) && p < last
    requires Left(c, s, s', q, p, v, At(s, q, p))
    ensures FromOn(s', q, p + 1) && UpTo(s', q, last)
  {
    forall n | n in q
      ensures InFrom(s', n, p + 1)
    {
      assert InFrom(s, n, p);
      var p': Phase :| p' >= p && (n, p') in s.inPhase;
      if n in At(s, q, p) {
        assert (n, p + 1) in s'.inPhase;
      } else {
        assert (n, p') in s'.inPhase;
      }
    }
    forall n, p': Phase | n in q && (n, p') in s'.inPhase
      ensures p' <= last
    {
      if n in At(s, q, p) {
        OnePhase(c, s', n, p', p + 1);
      } else {
        assert (n, p') in s.inPhase;
      }
    }
  }

  /** The nodes of `q` that are still in phase `p`, the least one, go through it. */
  lemma PassPhase(c: ClusterConfig, s: State, q: set<NodeId>, p: Phase) returns (s1: State, s2: State, v: StateValue)
    requires Reachable(c, s) && c.IsMajority(q) && FromOn(s, q, p)
    ensures Goes(c, q, s, s2) && Reachable(c, s1) && Reachable(c, s2)
    ensures s1 == s.(vote2 := s1.vote2) && forall t | t in s1.vote2 :: t in s.vote2 || t.1 == p
    ensures v != VQuestion && Left(c, s1, s2, q, p, v, At(s1, q, p))
  {
    AllHaveVoted1(c, s, q, p);
    s1 := VoteAll(c, s, q, p, At(s, q, p));
    assert At(s1, q, p) == At(s, q, p);
    assert FromOn(s1, q, p) by {
      forall n | n in q
        ensures InFrom(s1, n, p)
      {
        assert InFrom(s, n, p);
      }
    }
    AllHaveVoted2(c, s1, q, p);
    v := SomeLeave(c, s1, q, p);
    s2 := LeaveAll(c, s1, q, p, v, At(s1, q, p));
    GoesThen(c, q, s, s1, s2);
  }

  lemma {:induction false} CatchUp(c: ClusterConfig, s: State, q: set<NodeId>, p: Phase, last: Phase) returns (s': State)
    requires Reachable(c, s) && c.IsMajority(q) && FromOn(s, q, p) && UpTo(s, q, last) && p <= last
    ensures Goes(c, q, s, s') && Reachable(c, s') && forall n | n in q :: (n, last) in s'.inPhase
    decreases last - p
  {
    if p == last {
      GoesNowhere(c, q, s);
      s' := s;
      forall n | n in q
        ensures (n, last) in s'.inPhase
      {
        assert InFrom(s, n, p);
      }
    } else {
      var s1, s2, v := PassPhase(c, s, q, p);
      SamePhases(s, s1, q, p, last);
      LeftMovesOn(c, s1, s2, q, p, v, last);
      s' := CatchUp(c, s2, q, p + 1, last);
      GoesThen(c, q, s, s2, s');
    }
  }

  lemma SamePhases(s: State, s1: State, q: set<NodeId>, p: Phase, last: Phase)
    requires s1.inPhase == s.inPhase && FromOn(s, q, p) && UpTo(s, q, last)
    ensures FromOn(s1, q, p) && UpTo(s1, q, last)
  {
    forall n | n in q
      ensures InFrom(s1, n, p)
    {
      assert InFrom(s, n, p);
    }
  }

  lemma LatestPhase(inPhase: set<(NodeId, Phase)>) returns (last: Phase)
    ensures forall t | t in inPhase :: t.1 <= last
    decreases |inPhase|
  {
    if inPhase == {} {
      last := 0;
    } else {
      var t :| t in inPhase;
      var before := LatestPhase(inPhase - {t});
      last := if t.1 > before then t.1 else before;
    }
  }

  // ---- Deciding ----

  /** A majority whose members are all in one phase leave it together, voting alike. */
  lemma LeaveTogether(c: ClusterConfig, s: State, q: set<NodeId>, p: Phase) returns (s': State, v: StateValue)
    requires Reachable(c, s) && c.IsMajority(q) && forall n | n in q :: (n, p) in s.inPhase
    ensures Goes(c, q, s, s') && Reachable(c, s') && v != VQuestion
    ensures forall n | n in q :: (n, p + 1) in s'.inPhase && (n, p + 1, v) in s'.vote1 && !Cast2(s', n, p + 1)
  {
    assert FromOn(s, q, p) by {
      forall n | n in q
        ensures InFrom(s, n, p)
      {
      }
    }
    var s1;
    s1, s', v := PassPhase(c, s, q, p);
    assert At(s1, q, p) == q;
    forall n | n in q
      ensures !Cast2(s', n, p + 1)
    {
      NoVoteAhead(c, s, n, p, p + 1);
      NotVotedSince(s, s1, n, p, p + 1);
      assert s'.vote2 == s1.vote2;
    }
  }

  lemma NotVotedSince(s: State, s1: State, n: NodeId, p: Phase, p': Phase)
    requires !Cast2(s, n, p') && p != p' && forall t | t in s1.vote2 :: t in s.vote2 || t.1 == p
    ensures !Cast2(s1, n, p')
  {
  }

  /** A majority that entered a phase together, all voting `v`, decides `v` in it. */
  lemma DecideTogether(c: ClusterConfig, s: State, q: set<NodeId>, p: Phase, v: StateValue) returns (s': State)
    requires Reachable(c, s) && c.IsMajority(q) && v != VQuestion
    requires forall n | n in q :: (n, p) in s.inPhase && (n, p, v) in s.vote1 && !Cast2(s, n, p)
    ensures Goes(c, q, s, s') && Reachable(c, s') && forall n | n in q :: (n, p, v) in s'.decision
  {
    forall n | n in q
      ensures Cast1(s, n, p)
    {
      assert (n, p, v) in s.vote1;
    }
    var s1 := VoteAll(c, s, q, p, q);
    assert AllVoted1(s, q, p, v);
    assert c.IsFPlusOne(q) && AllVoted2(s1, q, p, v);
    assert FPlusOneVoted2(c, s1, q, p, v);
    assert OutcomeAllowed(c, s1, p, q, Decide(v));
    assert Decide(v).v == v;
    s' := LeaveAll(c, s1, q, p, v, q);
    GoesThen(c, q, s, s1, s');
  }

  lemma MajorityCanDecide(c: ClusterConfig, s: State, q: set<NodeId>) returns (s': State, p: Phase, v: StateValue)
    requires Reachable(c, s) && c.IsMajority(q)
    ensures Goes(c, q, s, s') && v != VQuestion && forall n | n in q :: (n, p, v) in s'.decision
  {
    var s1 := EnterAll(c, s, q, q);
    var last := LatestPhase(s1.inPhase);
    forall n | n in q
      ensures InFrom(s1, n, 0)
    {
      assert InSome(s1, n);
    }
    forall n, p': Phase | n in q && (n, p') in s1.inPhase
      ensures p' <= last
    {
      assert (n, p').1 <= last;
    }
    var s2 := CatchUp(c, s1, q, 0, last);
    var s3;
    s3, v := LeaveTogether(c, s2, q, last);
    s' := DecideTogether(c, s3, q, last + 1, v);
    p := last + 1;
    GoesThen(c, q, s, s1, s2);
    GoesThen(c, q, s, s2, s3);
    GoesThen(c, q, s, s3, s');
  }

  /** Non-blocking: every run can be continued, by actions of any given majority alone and
      with a suitable coin, until all its members have decided one value in one phase. */
  lemma NonBlocking(c: ClusterConfig, run: seq<State>, q: set<NodeId>)
    returns (run': seq<State>, p: Phase, v: StateValue)
    requires IsRun(c, run) && c.IsMajority(q)
    ensures IsRun(c, run') && |run| <= |run'| && run'[..|run|] == run
    ensures forall i | |run| <= i < |run'| :: StepBy(c, q, run'[i - 1], run'[i])
    ensures v != VQuestion && forall n | n in q :: (n, p, v) in run'[|run'| - 1].decision
  {
    var s := run[|run| - 1];
    var s';
    s', p, v := MajorityCanDecide(c, s, q);
    var trace :| Trace(c, q, trace) && trace[0] == s && trace[|trace| - 1] == s';
    run' := Prolong(c, q, run, trace);
  }
}

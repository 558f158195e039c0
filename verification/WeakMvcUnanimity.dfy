/** When Weak MVC accepts: the first votes follow the proposals, so what all propose is
    decided and what no majority proposes is not; and every binary decision can be turned
    into a full one. */
module WeakMvcUnanimity {
  import opened Types
  import opened Quorum
  import opened WeakMvc
  import opened WeakMvcInvariant
  import opened WeakMvcSafety
  import opened WeakMvcProgress

  // ---- First votes ----

  lemma UnanimousStep(c: ClusterConfig, s: State, s': State, x: ProposalValue)
    requires Next(c, s, s') && AllProposed(s, c.nodes, x) && Locked(s, 0, V1)
    ensures AllProposed(s', c.nodes, x) && Locked(s', 0, V1)
  {
    NextGrows(c, s, s');
    var a: Action :| Enabled(c, s, a) && s' == Apply(s, a);
    if a.InitialVote1? {
      assert AllProposed(s, a.q, x);
    }
  }

  /** Unanimity: if all nodes proposed one value before anyone voted, every vote of round 1
      in phase zero accepts, at every later moment. */
  lemma {:induction false} UnanimousVotesAccept(c: ClusterConfig, run: seq<State>, i: nat, j: nat, x: ProposalValue)
    requires IsRun(c, run) && i <= j < |run| && run[i].vote1 == {} && AllProposed(run[i], c.nodes, x)
    ensures AllProposed(run[j], c.nodes, x) && Locked(run[j], 0, V1)
    decreases j
  {
    if i < j {
      UnanimousVotesAccept(c, run, i, j - 1, x);
      assert Next(c, run[j - 1], run[j - 1 + 1]);
      UnanimousStep(c, run[j - 1], run[j], x);
    }
  }

  lemma LockedDecides(c: ClusterConfig, s: State, v: StateValue, n: NodeId, p: Phase, w: StateValue)
    requires Inv(c, s) && Locked(s, 0, v) && (n, p, w) in s.decision
    ensures w == v
  {
    DecisionIsBacked(c, s, n, p, w);
    BackedWasVoted(c, s, p, w);
    var m :| (m, p, w) in s.vote2;
    LockCarries(c, s, 0, p, v);
    LockedVote2(c, s, p, v, m, w);
  }

  /** Then only acceptance is ever decided, and only the value all proposed. */
  lemma UnanimousDecides(c: ClusterConfig, run: seq<State>, i: nat, j: nat, x: ProposalValue)
    requires IsRun(c, run) && i <= j < |run| && run[i].vote1 == {} && AllProposed(run[i], c.nodes, x)
    ensures forall n, p, v :: (n, p, v) in run[j].decision ==> v == V1
    ensures forall n, p, y :: (n, p, y) in run[j].fullVal ==> y == x
    ensures run[j].fullNoVal == {}
  {
    var s := run[j];
    RunInv(c, run, j);
    UnanimousVotesAccept(c, run, i, j, x);
    if t :| t in s.fullNoVal {
      assert (t.0, t.1) in s.fullNoVal;
      LockedDecides(c, s, V1, t.0, t.1, V0);
    }
    forall n: NodeId, p: Phase, v | (n, p, v) in s.decision
      ensures v == V1
    {
      LockedDecides(c, s, V1, n, p, v);
    }
    forall n: NodeId, p: Phase, y: ProposalValue | (n, p, y) in s.fullVal
      ensures y == x
    {
      DecisionIsBacked(c, s, n, p, V1);
      assert c.IsMajority(c.nodes) && MajorityProposed(c, s, x);
      MajoritiesProposeOneValue(c, s, x, y);
    }
  }

  /** Conversely, as long as no majority proposed one value, every vote of round 1 rejects,
      in every phase, and so does every decision. */
  lemma NoMajorityRejects(c: ClusterConfig, run: seq<State>, j: nat, p: Phase)
    requires IsRun(c, run) && j < |run| && forall x :: !MajorityProposed(c, run[j], x)
    ensures Locked(run[j], p, V0)
    ensures forall n, v :: (n, p, v) in run[j].decision ==> v == V0
  {
    var s := run[j];
    RunInv(c, run, j);
    assert Locked(s, 0, V0) by {
      forall n: NodeId, w | (n, 0, w) in s.vote1
        ensures w == V0
      {
        assert w != VQuestion;
      }
    }
    LockCarries(c, s, 0, p, V0);
    forall n: NodeId, v | (n, p, v) in s.decision
      ensures v == V0
    {
      LockedDecides(c, s, V0, n, p, v);
    }
  }

  lemma VoterProposesNoMore(c: ClusterConfig, s: State, s': State, n: NodeId, x: ProposalValue)
    requires Next(c, s, s') && !Fresh(s, n)
    ensures (n, x) in s.propose <==> (n, x) in s'.propose
  {
  }

  lemma VotedNotFresh(s: State, n: NodeId)
    requires Cast1(s, n, 0)
    ensures !Fresh(s, n)
  {
    var v :| (n, 0, v) in s.vote1;
    assert (n, 0, v).0 == n;
  }

  /** Once a node has voted, its proposal is fixed. */
  lemma {:induction false} ProposalsFixed(c: ClusterConfig, run: seq<State>, i: nat, j: nat, n: NodeId, x: ProposalValue)
    requires IsRun(c, run) && i <= j < |run| && Cast1(run[i], n, 0)
    ensures (n, x) in run[i].propose <==> (n, x) in run[j].propose
    decreases j
  {
    if i < j {
      ProposalsFixed(c, run, i, j - 1, n, x);
      assert Next(c, run[j - 1], run[j - 1 + 1]);
      RunGrows(c, run, i, j - 1);
      CastGrows(run[i], run[j - 1]);
      VotedNotFresh(run[j - 1], n);
      VoterProposesNoMore(c, run[j - 1], run[j], n, x);
    }
  }

  /** A node votes only after it has proposed. */
  lemma {:induction false} VotersProposed(c: ClusterConfig, run: seq<State>, i: nat, n: NodeId)
    requires IsRun(c, run) && i < |run| && Cast1(run[i], n, 0)
    ensures exists x :: (n, x) in run[i].propose
  {
    if i > 0 {
      var s, s' := run[i - 1], run[i - 1 + 1];
      assert Next(c, s, s');
      NextGrows(c, s, s');
      if Cast1(s, n, 0) {
        VotersProposed(c, run, i - 1, n);
        var x :| (n, x) in s.propose;
        assert (n, x) in s'.propose;
      } else {
        FirstVoterProposed(c, s, s', n);
      }
    }
  }

  lemma FirstVoterProposed(c: ClusterConfig, s: State, s': State, n: NodeId)
    requires Next(c, s, s') && Cast1(s', n, 0) && !Cast1(s, n, 0)
    ensures exists x :: (n, x) in s'.propose
  {
    var a: Action :| Enabled(c, s, a) && s' == Apply(s, a);
    var v :| (n, 0, v) in s'.vote1;
    assert (n, 0, v) !in s.vote1;
    assert a.InitialVote1? && a.n == n;
    var t :| t in s.propose && t.0 == n;
    assert (n, t.1) in s'.propose;
  }

  // ---- Full decisions ----

  /** The proposal value a full decision of `n` in `p` returns, or none for a rejection. */
  ghost predicate Settled(s: State, n: NodeId, p: Phase, v: StateValue, x: ProposalValue) {
    if v == V1 then (n, p, x) in s.fullVal else (n, p) in s.fullNoVal
  }

  lemma SettleOne(c: ClusterConfig, s: State, q: set<NodeId>, n: NodeId, p: Phase, v: StateValue, x: ProposalValue)
    returns (s': State)
    requires Reachable(c, s) && n in q && (n, p, v) in s.decision
    requires v == V1 ==> MajorityProposed(c, s, x)
    ensures Goes(c, q, s, s') && Reachable(c, s') && Grows(s, s') && Settled(s', n, p, v, x)
  {
    ReachableInv(c, s);
    var a: Action;
    if v == V1 {
      var m :| c.IsMajority(m) && AllProposed(s, m, x);
      a := DecideFullVal(n, p, m, Some(x));
    } else {
      assert v == V0;
      a := DecideFullNoVal(n, p);
    }
    assert Enabled(c, s, a);
    Act(c, q, s, a);
    s' := Apply(s, a);
    assert Next(c, s, s');
    NextGrows(c, s, s');
  }

  lemma {:induction false} SettleAll(c: ClusterConfig, s: State, q: set<NodeId>, todo: set<NodeId>, p: Phase,
                                     v: StateValue, x: ProposalValue) returns (s': State)
    requires Reachable(c, s) && todo <= q && forall n | n in todo :: (n, p, v) in s.decision
    requires v == V1 ==> MajorityProposed(c, s, x)
    ensures Goes(c, q, s, s') && Reachable(c, s') && Grows(s, s') && forall n | n in todo :: Settled(s', n, p, v, x)
    decreases |todo|
  {
    if todo == {} {
      GoesNowhere(c, q, s);
      s' := s;
    } else {
      var n :| n in todo;
      var s1 := SettleAll(c, s, q, todo - {n}, p, v, x);
      EvidenceGrows(c, s, s1);
      assert (n, p, v) in s1.decision;
      s' := SettleOne(c, s1, q, n, p, v, x);
      GoesThen(c, q, s, s1, s');
      forall m | m in todo
        ensures Settled(s', m, p, v, x)
      {
        assert m != n ==> Settled(s1, m, p, v, x);
      }
    }
  }

  lemma AcceptedValue(c: ClusterConfig, s: State, n: NodeId, p: Phase) returns (x: ProposalValue)
    requires Inv(c, s) && (n, p, V1) in s.decision
    ensures MajorityProposed(c, s, x)
  {
    DecisionIsBacked(c, s, n, p, V1);
    BackedWasVoted(c, s, p, V1);
    var m :| (m, p, V1) in s.vote2;
    Vote2WasVoted1(c, s, m, p, V1);
    var k :| (k, p, V1) in s.vote1;
    Vote1TracesToZero(c, s, k, p, V1);
    var k0 :| (k0, 0, V1) in s.vote1;
    x :| MajorityProposed(c, s, x);
  }

  /** Full decisions follow binary ones: every run can be continued, by the actions of any
      given majority alone, until all its members have decided one value and returned it in
      full: a value that a majority proposed, or that there is none. */
  lemma MajoritySettles(c: ClusterConfig, run: seq<State>, q: set<NodeId>)
    returns (run': seq<State>, p: Phase, v: StateValue, x: ProposalValue)
    requires IsRun(c, run) && c.IsMajority(q)
    ensures IsRun(c, run') && |run| <= |run'| && run'[..|run|] == run
    ensures forall i | |run| <= i < |run'| :: StepBy(c, q, run'[i - 1], run'[i])
    ensures v != VQuestion && (v == V1 ==> MajorityProposed(c, run'[|run'| - 1], x))
    ensures forall n | n in q :: (n, p, v) in run'[|run'| - 1].decision && Settled(run'[|run'| - 1], n, p, v, x)
  {
    var s, s1 := run[|run| - 1], run[|run| - 1];
    s1, p, v := MajorityCanDecide(c, s, q);
    ReachableGoes(c, q, s, s1);
    ReachableInv(c, s1);
    MajorityNonEmpty(c, q);
    var m :| m in q;
    x := 0;
    if v == V1 {
      x := AcceptedValue(c, s1, m, p);
    }
    var s2 := SettleAll(c, s1, q, q, p, v, x);
    EvidenceGrows(c, s1, s2);
    GoesThen(c, q, s, s1, s2);
    var trace :| Trace(c, q, trace) && trace[0] == s && trace[|trace| - 1] == s2;
    run' := Prolong(c, q, run, trace);
  }
}

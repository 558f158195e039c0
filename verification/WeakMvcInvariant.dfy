/** The inductive invariant of Weak MVC: what a node has done so far is shaped by
    its phase, and every vote, decision and coin keeps the evidence it came from. */
module WeakMvcInvariant {
  import opened Types
  import opened Quorum
  import opened WeakMvc

  // ---- What one node has done ----

  ghost predicate Members(c: ClusterConfig, s: State) {
    && (forall t <- s.vote1 :: t.0 in c.nodes)
    && (forall t <- s.vote2 :: t.0 in c.nodes)
    && (forall t <- s.decision :: t.0 in c.nodes)
  }

  ghost predicate ProposeOnce(s: State) {
    forall n, v, w :: (n, v) in s.propose && (n, w) in s.propose ==> v == w
  }

  /** A node is in at most one phase and has done nothing beyond it. */
  ghost predicate Frontier(s: State) {
    && (forall n, p, p' :: (n, p) in s.inPhase && (n, p') in s.inPhase ==> p == p')
    && (forall n, p, p', v :: (n, p) in s.inPhase && (n, p', v) in s.vote1 ==> p' <= p)
    && (forall n, p, p', v :: (n, p) in s.inPhase && (n, p', v) in s.vote2 ==> p' <= p)
    && (forall n, p, p', v :: (n, p) in s.inPhase && (n, p', v) in s.decision ==> p' < p)
    && (forall n, p :: (n, p) in s.inPhase ==> Cast1(s, n, p))
  }

  ghost predicate VoteOnce(s: State) {
    && (forall n, p, v, w :: (n, p, v) in s.vote1 && (n, p, w) in s.vote1 ==> v == w)
    && (forall n, p, v, w :: (n, p, v) in s.vote2 && (n, p, w) in s.vote2 ==> v == w)
    && (forall n, p, v :: (n, p, v) in s.vote1 ==> v != VQuestion)
    && (forall n, p, v :: (n, p, v) in s.vote2 ==> Cast1(s, n, p))
  }

  // ---- Where votes, decisions and coins come from ----

  ghost predicate MajorityProposed(c: ClusterConfig, s: State, value: ProposalValue) {
    exists q :: c.IsMajority(q) && AllProposed(s, q, value)
  }

  ghost predicate MajorityVoted1(c: ClusterConfig, s: State, p: Phase, v: StateValue) {
    exists q :: c.IsMajority(q) && AllVoted1(s, q, p, v)
  }

  ghost predicate MajorityVoted2(c: ClusterConfig, s: State, p: Phase, v: StateValue) {
    exists q :: c.IsMajority(q) && AllVoted2(s, q, p, v)
  }

  ghost predicate FPlusOneBacks(c: ClusterConfig, s: State, p: Phase, v: StateValue) {
    exists f :: c.IsFPlusOne(f) && AllVoted2(s, f, p, v)
  }

  ghost predicate Voted1By(s: State, p: Phase, v: StateValue) {
    exists n :: (n, p, v) in s.vote1
  }

  /** How `n` came to vote `w` in round 1 of phase `p + 1`: a majority `q` had voted
      in round 2 of `p`, and `n` decided `w`, or saw both `w` and an undecided vote,
      or saw only undecided votes and took the coin. */
  ghost predicate CameBy(s: State, n: NodeId, p: Phase, w: StateValue, q: set<NodeId>) {
    && AllCast2(s, q, p)
    && (|| ((n, p, w) in s.decision && SomeVoted2(s, q, p, w))
        || (SomeVoted2(s, q, p, w) && SomeVoted2(s, q, p, VQuestion))
        || (AllVoted2(s, q, p, VQuestion) && (p, w) in s.coin))
  }

  ghost predicate Arrived(c: ClusterConfig, s: State, n: NodeId, p: Phase, w: StateValue) {
    exists q :: c.IsMajority(q) && CameBy(s, n, p, w, q)
  }

  ghost predicate Vote1Evidence(c: ClusterConfig, s: State) {
    && (forall n :: (n, 0, V1) in s.vote1 ==> exists value :: MajorityProposed(c, s, value))
    && (forall n, p: Phase, w :: (n, p, w) in s.vote1 && p > 0 ==> Arrived(c, s, n, p - 1, w))
  }

  ghost predicate Vote2Evidence(c: ClusterConfig, s: State) {
    && (forall n, p, v :: (n, p, v) in s.vote2 && v != VQuestion ==> MajorityVoted1(c, s, p, v))
    && (forall n, p :: (n, p, VQuestion) in s.vote2 ==> Voted1By(s, p, V0) && Voted1By(s, p, V1))
  }

  ghost predicate CoinEvidence(c: ClusterConfig, s: State) {
    && (forall p, v :: (p, v) in s.coin ==> v != VQuestion && MajorityVoted2(c, s, p, VQuestion))
    && (forall p, v, w :: (p, v) in s.coin && (p, w) in s.coin ==> v == w)
  }

  ghost predicate DecisionEvidence(c: ClusterConfig, s: State) {
    && (forall n, p, v :: (n, p, v) in s.decision ==> v != VQuestion && FPlusOneBacks(c, s, p, v))
    && (forall n, p, value :: (n, p, value) in s.fullVal ==>
          (n, p, V1) in s.decision && MajorityProposed(c, s, value))
    && (forall n, p :: (n, p) in s.fullNoVal ==> (n, p, V0) in s.decision)
  }

  ghost predicate Inv(c: ClusterConfig, s: State) {
    && Members(c, s)
    && ProposeOnce(s)
    && Frontier(s)
    && VoteOnce(s)
    && Vote1Evidence(c, s)
    && Vote2Evidence(c, s)
    && CoinEvidence(c, s)
    && DecisionEvidence(c, s)
  }

  // ---- Nothing but the current phase is ever taken back ----

  ghost predicate Grows(s: State, s': State) {
    && s.propose <= s'.propose
    && s.vote1 <= s'.vote1
    && s.vote2 <= s'.vote2
    && s.decision <= s'.decision
    && s.fullVal <= s'.fullVal
    && s.fullNoVal <= s'.fullNoVal
    && s.coin <= s'.coin
  }

  lemma CastGrows(s: State, s': State)
    requires Grows(s, s')
    ensures forall n, p :: Cast1(s, n, p) ==> Cast1(s', n, p)
    ensures forall n, p :: Cast2(s, n, p) ==> Cast2(s', n, p)
    ensures forall q, p :: AllCast2(s, q, p) ==> AllCast2(s', q, p)
  {
    forall n: NodeId, p: Phase | Cast1(s, n, p)
      ensures Cast1(s', n, p)
    {
      var v :| (n, p, v) in s.vote1;
      assert (n, p, v) in s'.vote1;
    }
    forall n: NodeId, p: Phase | Cast2(s, n, p)
      ensures Cast2(s', n, p)
    {
      var v :| (n, p, v) in s.vote2;
      assert (n, p, v) in s'.vote2;
    }
  }

  lemma EvidenceGrows(c: ClusterConfig, s: State, s': State)
    requires Grows(s, s')
    ensures forall value :: MajorityProposed(c, s, value) ==> MajorityProposed(c, s', value)
    ensures forall p, v :: MajorityVoted1(c, s, p, v) ==> MajorityVoted1(c, s', p, v)
    ensures forall p, v :: MajorityVoted2(c, s, p, v) ==> MajorityVoted2(c, s', p, v)
    ensures forall p, v :: FPlusOneBacks(c, s, p, v) ==> FPlusOneBacks(c, s', p, v)
    ensures forall p, v :: Voted1By(s, p, v) ==> Voted1By(s', p, v)
  {
    forall value | MajorityProposed(c, s, value)
      ensures MajorityProposed(c, s', value)
    {
      var q :| c.IsMajority(q) && AllProposed(s, q, value);
      assert AllProposed(s', q, value);
    }
    forall p, v | MajorityVoted1(c, s, p, v)
      ensures MajorityVoted1(c, s', p, v)
    {
      var q :| c.IsMajority(q) && AllVoted1(s, q, p, v);
      assert AllVoted1(s', q, p, v);
    }
    forall p, v | MajorityVoted2(c, s, p, v)
      ensures MajorityVoted2(c, s', p, v)
    {
      var q :| c.IsMajority(q) && AllVoted2(s, q, p, v);
      assert AllVoted2(s', q, p, v);
    }
    forall p, v | FPlusOneBacks(c, s, p, v)
      ensures FPlusOneBacks(c, s', p, v)
    {
      var f :| c.IsFPlusOne(f) && AllVoted2(s, f, p, v);
      assert AllVoted2(s', f, p, v);
    }
    forall p: Phase, v | Voted1By(s, p, v)
      ensures Voted1By(s', p, v)
    {
      var n :| (n, p, v) in s.vote1;
      assert (n, p, v) in s'.vote1;
    }
  }

  lemma ArrivedGrows(c: ClusterConfig, s: State, s': State, n: NodeId, p: Phase, w: StateValue)
    requires Grows(s, s') && Arrived(c, s, n, p, w)
    ensures Arrived(c, s', n, p, w)
  {
    var q :| c.IsMajority(q) && CameBy(s, n, p, w, q);
    CastGrows(s, s');
    assert SomeVoted2(s, q, p, w) ==> SomeVoted2(s', q, p, w);
    assert SomeVoted2(s, q, p, VQuestion) ==> SomeVoted2(s', q, p, VQuestion);
    assert CameBy(s', n, p, w, q);
  }

  /** Evidence for old tuples survives; only new tuples need fresh evidence. */
  lemma OldEvidenceHolds(c: ClusterConfig, s: State, s': State)
    requires Grows(s, s') && Inv(c, s)
    ensures forall n :: (n, 0, V1) in s.vote1 ==> exists value :: MajorityProposed(c, s', value)
    ensures forall n, p: Phase, w :: (n, p, w) in s.vote1 && p > 0 ==> Arrived(c, s', n, p - 1, w)
    ensures forall n, p, v :: (n, p, v) in s.vote2 && v != VQuestion ==> MajorityVoted1(c, s', p, v)
    ensures forall n, p :: (n, p, VQuestion) in s.vote2 ==> Voted1By(s', p, V0) && Voted1By(s', p, V1)
    ensures forall p, v :: (p, v) in s.coin ==> MajorityVoted2(c, s', p, VQuestion)
    ensures forall n, p, v :: (n, p, v) in s.decision ==> FPlusOneBacks(c, s', p, v)
    ensures forall n, p, value :: (n, p, value) in s.fullVal ==> MajorityProposed(c, s', value)
  {
    EvidenceGrows(c, s, s');
    forall n | (n, 0, V1) in s.vote1
      ensures exists value :: MajorityProposed(c, s', value)
    {
      var value :| MajorityProposed(c, s, value);
      assert MajorityProposed(c, s', value);
    }
    forall n, p: Phase, w | (n, p, w) in s.vote1 && p > 0
      ensures Arrived(c, s', n, p - 1, w)
    {
      ArrivedGrows(c, s, s', n, p - 1, w);
    }
  }

  // ---- Each action keeps the invariant ----

  lemma InitialProposalKeeps(c: ClusterConfig, s: State, a: Action)
    requires Inv(c, s) && a.InitialProposal? && Enabled(c, s, a)
    ensures Inv(c, Apply(s, a))
  {
    var s' := Apply(s, a);
    CastGrows(s, s');
    OldEvidenceHolds(c, s, s');
  }

  lemma DecideFullKeeps(c: ClusterConfig, s: State, a: Action)
    requires Inv(c, s) && (a.DecideFullVal? || a.DecideFullNoVal?) && Enabled(c, s, a)
    ensures Inv(c, Apply(s, a))
  {
    var s' := Apply(s, a);
    assert s' == s.(fullVal := s'.fullVal, fullNoVal := s'.fullNoVal);
    OnlyFullChanges(c, s, s');
    if a.DecideFullVal? && a.common.Some? {
      assert AllProposed(s', a.q, a.common.value);
      assert MajorityProposed(c, s', a.common.value);
      assert forall t <- s'.fullVal :: t in s.fullVal || t == (a.n, a.p, a.common.value);
    }
  }

  lemma OnlyFullChanges(c: ClusterConfig, s: State, s': State)
    requires Inv(c, s) && Grows(s, s')
    requires s' == s.(fullVal := s'.fullVal, fullNoVal := s'.fullNoVal)
    ensures Members(c, s') && ProposeOnce(s') && Frontier(s') && VoteOnce(s')
    ensures Vote1Evidence(c, s') && Vote2Evidence(c, s') && CoinEvidence(c, s')
    ensures forall n, p, v :: (n, p, v) in s'.decision ==> v != VQuestion && FPlusOneBacks(c, s', p, v)
    ensures forall n, p, value :: (n, p, value) in s.fullVal ==> MajorityProposed(c, s', value)
  {
    CastGrows(s, s');
    OldEvidenceHolds(c, s, s');
  }

  lemma InitialVote1KeepsShape(c: ClusterConfig, s: State, a: Action)
    requires Members(c, s) && ProposeOnce(s) && Frontier(s) && VoteOnce(s)
    requires a.InitialVote1? && Enabled(c, s, a)
    ensures var s' := Apply(s, a); Members(c, s') && ProposeOnce(s') && Frontier(s') && VoteOnce(s')
  {
    var s' := Apply(s, a);
    CastGrows(s, s');
    var v := if a.common.Some? then V1 else V0;
    assert (a.n, 0, v) in s'.vote1;
    assert forall t <- s'.vote1 :: t in s.vote1 || t == (a.n, 0, v);
    assert forall t <- s'.inPhase :: t in s.inPhase || t == (a.n, 0);
  }

  lemma InitialVote1KeepsEvidence(c: ClusterConfig, s: State, a: Action)
    requires Inv(c, s) && a.InitialVote1? && Enabled(c, s, a)
    ensures var s' := Apply(s, a);
            Vote1Evidence(c, s') && Vote2Evidence(c, s') && CoinEvidence(c, s') && DecisionEvidence(c, s')
  {
    var s' := Apply(s, a);
    OldEvidenceHolds(c, s, s');
    if a.common.Some? {
      assert AllProposed(s', a.q, a.common.value);
      assert MajorityProposed(c, s', a.common.value);
    }
  }

  /** A majority that voted in round 1 without agreeing contains both values. */
  lemma SplitVote(c: ClusterConfig, s: State, q: set<NodeId>, p: Phase)
    requires Inv(c, s) && c.IsMajority(q) && AllCast1(s, q, p)
    requires forall v :: !AllVoted1(s, q, p, v)
    ensures Voted1By(s, p, V0) && Voted1By(s, p, V1)
  {
    assert !AllVoted1(s, q, p, V0) && !AllVoted1(s, q, p, V1);
    var m0 :| m0 in q && (m0, p, V0) !in s.vote1;
    var m1 :| m1 in q && (m1, p, V1) !in s.vote1;
    assert Cast1(s, m0, p) && Cast1(s, m1, p);
    var w0 :| (m0, p, w0) in s.vote1;
    var w1 :| (m1, p, w1) in s.vote1;
    assert w0 == V1 && w1 == V0;
  }

  lemma PhaseRnd1KeepsShape(c: ClusterConfig, s: State, a: Action)
    requires Members(c, s) && ProposeOnce(s) && Frontier(s) && VoteOnce(s)
    requires a.PhaseRnd1? && Enabled(c, s, a)
    ensures var s' := Apply(s, a); Members(c, s') && ProposeOnce(s') && Frontier(s') && VoteOnce(s')
  {
    CastGrows(s, Apply(s, a));
  }

  lemma PhaseRnd1KeepsEvidence(c: ClusterConfig, s: State, a: Action)
    requires Inv(c, s) && a.PhaseRnd1? && Enabled(c, s, a)
    ensures var s' := Apply(s, a);
            Vote1Evidence(c, s') && Vote2Evidence(c, s') && CoinEvidence(c, s') && DecisionEvidence(c, s')
  {
    var s' := Apply(s, a);
    EvidenceGrows(c, s, s');
    OldEvidenceHolds(c, s, s');
    if a.agreed.Some? {
      MajorityNonEmpty(c, a.q);
      var m :| m in a.q;
      assert (m, a.p, a.agreed.value) in s.vote1;
      assert MajorityVoted1(c, s, a.p, a.agreed.value);
    } else {
      SplitVote(c, s, a.q, a.p);
    }
  }

  lemma MajorityNonEmpty(c: ClusterConfig, q: set<NodeId>)
    requires c.IsMajority(q)
    ensures exists m :: m in q
  {
    MajoritiesIntersect(c, q, q);
  }

  /** Two decided values of one round 2 cannot differ. */
  lemma Vote2Agree(c: ClusterConfig, s: State, p: Phase, n1: NodeId, v1: StateValue, n2: NodeId, v2: StateValue)
    requires Inv(c, s)
    requires (n1, p, v1) in s.vote2 && (n2, p, v2) in s.vote2
    requires v1 != VQuestion && v2 != VQuestion
    ensures v1 == v2
  {
    assert MajorityVoted1(c, s, p, v1) && MajorityVoted1(c, s, p, v2);
    var q1 :| c.IsMajority(q1) && AllVoted1(s, q1, p, v1);
    var q2 :| c.IsMajority(q2) && AllVoted1(s, q2, p, v2);
    MajoritiesIntersect(c, q1, q2);
    var m :| m in q1 && m in q2;
    assert (m, p, v1) in s.vote1 && (m, p, v2) in s.vote1;
  }

  /** A node that may only adopt `w` saw an undecided vote as well, and one that
      takes the coin saw nothing else. */
  lemma OutcomeSeen(c: ClusterConfig, s: State, a: Action)
    requires Inv(c, s) && a.PhaseRnd2? && Enabled(c, s, a)
    ensures a.outcome.Decide? || a.outcome.Adopt? ==> SomeVoted2(s, a.q, a.p, a.outcome.v)
    ensures a.outcome.Adopt? ==> SomeVoted2(s, a.q, a.p, VQuestion)
    ensures a.outcome.Follow? || a.outcome.Flip? ==> AllVoted2(s, a.q, a.p, VQuestion)
  {
    var p, q, w := a.p, a.q, a.outcome.v;
    MajorityNonEmpty(c, q);
    if a.outcome.Decide? {
      var f :| c.IsFPlusOne(f) && f <= q && AllVoted2(s, f, p, w);
      MajorityMeetsFPlusOne(c, q, f);
    } else if a.outcome.Adopt? {
      if !SomeVoted2(s, q, p, VQuestion) {
        var m0 :| m0 in q && (m0, p, w) in s.vote2;
        forall m | m in q
          ensures (m, p, w) in s.vote2
        {
          assert Cast2(s, m, p);
          var v :| (m, p, v) in s.vote2;
          Vote2Agree(c, s, p, m0, w, m, v);
        }
        assert c.IsFPlusOne(q) && AllVoted2(s, q, p, w);
        assert FPlusOneVoted2(c, s, q, p, w);
        assert false;
      }
    } else {
      forall m | m in q
        ensures (m, p, VQuestion) in s.vote2
      {
        assert Cast2(s, m, p);
        var v :| (m, p, v) in s.vote2;
        assert SomeVoted2(s, q, p, v);
      }
    }
  }

  lemma PhaseRnd2Arrives(c: ClusterConfig, s: State, a: Action)
    requires Inv(c, s) && a.PhaseRnd2? && Enabled(c, s, a)
    ensures Arrived(c, Apply(s, a), a.n, a.p, a.outcome.v)
  {
    var s' := Apply(s, a);
    OutcomeSeen(c, s, a);
    CastGrows(s, s');
    assert a.outcome.Decide? ==> (a.n, a.p, a.outcome.v) in s'.decision;
    assert a.outcome.Flip? ==> (a.p, a.outcome.v) in s'.coin;
    assert CameBy(s', a.n, a.p, a.outcome.v, a.q);
  }

  lemma PhaseRnd2KeepsFrontier(c: ClusterConfig, s: State, a: Action)
    requires Frontier(s) && a.PhaseRnd2? && Enabled(c, s, a)
    ensures Frontier(Apply(s, a))
  {
    var s' := Apply(s, a);
    assert forall t <- s.inPhase :: t.0 == a.n ==> t == (a.n, a.p);
    assert forall t <- s'.inPhase :: t in s.inPhase || t == (a.n, a.p + 1);
    assert forall t <- s'.vote1 :: t in s.vote1 || t == (a.n, a.p + 1, a.outcome.v);
    assert forall t <- s'.decision :: t in s.decision || t == (a.n, a.p, a.outcome.v);
    forall n, p | (n, p) in s'.inPhase
      ensures Cast1(s', n, p)
    {
      if n == a.n {
        assert (n, p, a.outcome.v) in s'.vote1;
      } else {
        assert Cast1(s, n, p);
        var v :| (n, p, v) in s.vote1;
        assert (n, p, v) in s'.vote1;
      }
    }
  }

  lemma PhaseRnd2KeepsVotes(c: ClusterConfig, s: State, a: Action)
    requires Members(c, s) && ProposeOnce(s) && Frontier(s) && VoteOnce(s)
    requires a.PhaseRnd2? && Enabled(c, s, a)
    ensures var s' := Apply(s, a); Members(c, s') && ProposeOnce(s') && VoteOnce(s')
  {
    var s' := Apply(s, a);
    CastGrows(s, s');
    assert forall t <- s'.vote1 :: t in s.vote1 || t == (a.n, a.p + 1, a.outcome.v);
  }

  /** Adding one round-1 vote beyond phase zero keeps the round-1 evidence when the
      new vote arrived with evidence of its own. */
  lemma Vote1EvidenceExtends(c: ClusterConfig, s: State, s': State, n0: NodeId, p0: Phase, w0: StateValue)
    requires Vote1Evidence(c, s) && Grows(s, s')
    requires s'.vote1 == s.vote1 + {(n0, p0 + 1, w0)}
    requires Arrived(c, s', n0, p0, w0)
    ensures Vote1Evidence(c, s')
  {
    forall n, p: Phase, w | (n, p, w) in s'.vote1 && p > 0
      ensures Arrived(c, s', n, p - 1, w)
    {
      if (n, p, w) in s.vote1 {
        ArrivedGrows(c, s, s', n, p - 1, w);
      } else {
        assert n == n0 && p - 1 == p0 && w == w0;
      }
    }
    EvidenceGrows(c, s, s');
    forall n | (n, 0, V1) in s'.vote1
      ensures exists value :: MajorityProposed(c, s', value)
    {
      assert (n, 0, V1) in s.vote1;
      var value :| MajorityProposed(c, s, value);
      assert MajorityProposed(c, s', value);
    }
  }

  lemma PhaseRnd2KeepsVote2Evidence(c: ClusterConfig, s: State, a: Action)
    requires Inv(c, s) && a.PhaseRnd2? && Enabled(c, s, a)
    ensures Vote2Evidence(c, Apply(s, a))
  {
    EvidenceGrows(c, s, Apply(s, a));
  }

  lemma PhaseRnd2KeepsCoin(c: ClusterConfig, s: State, a: Action)
    requires Inv(c, s) && a.PhaseRnd2? && Enabled(c, s, a)
    ensures CoinEvidence(c, Apply(s, a))
  {
    var s' := Apply(s, a);
    EvidenceGrows(c, s, s');
    if a.outcome.Flip? {
      OutcomeSeen(c, s, a);
      assert MajorityVoted2(c, s, a.p, VQuestion);
      assert forall t <- s'.coin :: t in s.coin || t == (a.p, a.outcome.v);
      assert forall v :: (a.p, v) in s.coin ==> v != VQuestion;
    } else {
      assert s'.coin == s.coin;
    }
  }

  lemma PhaseRnd2KeepsDecisions(c: ClusterConfig, s: State, a: Action)
    requires Inv(c, s) && a.PhaseRnd2? && Enabled(c, s, a)
    ensures DecisionEvidence(c, Apply(s, a))
  {
    var s' := Apply(s, a);
    EvidenceGrows(c, s, s');
    if a.outcome.Decide? {
      var f :| c.IsFPlusOne(f) && f <= a.q && AllVoted2(s, f, a.p, a.outcome.v);
      assert FPlusOneBacks(c, s, a.p, a.outcome.v);
      assert forall t <- s'.decision :: t in s.decision || t == (a.n, a.p, a.outcome.v);
    } else {
      assert s'.decision == s.decision;
    }
  }

  lemma NextGrows(c: ClusterConfig, s: State, s': State)
    requires Next(c, s, s')
    ensures Grows(s, s')
  {
  }

  lemma PhaseRnd2Keeps(c: ClusterConfig, s: State, a: Action)
    requires Inv(c, s) && a.PhaseRnd2? && Enabled(c, s, a)
    ensures Inv(c, Apply(s, a))
  {
    PhaseRnd2Arrives(c, s, a);
    Vote1EvidenceExtends(c, s, Apply(s, a), a.n, a.p, a.outcome.v);
    PhaseRnd2KeepsFrontier(c, s, a);
    PhaseRnd2KeepsVotes(c, s, a);
    PhaseRnd2KeepsVote2Evidence(c, s, a);
    PhaseRnd2KeepsCoin(c, s, a);
    PhaseRnd2KeepsDecisions(c, s, a);
  }

  lemma PhaseRnd1Keeps(c: ClusterConfig, s: State, a: Action)
    requires Inv(c, s) && a.PhaseRnd1? && Enabled(c, s, a)
    ensures Inv(c, Apply(s, a))
  {
    PhaseRnd1KeepsShape(c, s, a);
    PhaseRnd1KeepsEvidence(c, s, a);
  }

  lemma InitialVote1Keeps(c: ClusterConfig, s: State, a: Action)
    requires Inv(c, s) && a.InitialVote1? && Enabled(c, s, a)
    ensures Inv(c, Apply(s, a))
  {
    InitialVote1KeepsShape(c, s, a);
    InitialVote1KeepsEvidence(c, s, a);
  }

  /** The invariant is inductive: every action of the protocol keeps it. */
  lemma NextKeeps(c: ClusterConfig, s: State, s': State)
    requires Inv(c, s) && Next(c, s, s')
    ensures Inv(c, s')
  {
    var a :| Enabled(c, s, a) && s' == Apply(s, a);
    match a {
      case InitialProposal(_, _) => InitialProposalKeeps(c, s, a);
      case DecideFullVal(_, _, _, _) => DecideFullKeeps(c, s, a);
      case DecideFullNoVal(_, _) => DecideFullKeeps(c, s, a);
      case InitialVote1(_, _, _) => InitialVote1Keeps(c, s, a);
      case PhaseRnd1(_, _, _, _) => PhaseRnd1Keeps(c, s, a);
      case PhaseRnd2(_, _, _, _) => PhaseRnd2Keeps(c, s, a);
    }
  }

  /** Every state of every run satisfies the invariant, and later states only add. */
  lemma {:induction false} RunInv(c: ClusterConfig, run: seq<State>, i: nat)
    requires IsRun(c, run) && i < |run|
    ensures Inv(c, run[i])
  {
    if i > 0 {
      RunInv(c, run, i - 1);
      assert Next(c, run[i - 1], run[i - 1 + 1]);
      NextKeeps(c, run[i - 1], run[i]);
    }
  }

  lemma {:induction false} RunGrows(c: ClusterConfig, run: seq<State>, i: nat, j: nat)
    requires IsRun(c, run) && i <= j < |run|
    ensures Grows(run[i], run[j])
    decreases j
  {
    if i < j {
      RunGrows(c, run, i, j - 1);
      assert Next(c, run[j - 1], run[j - 1 + 1]);
      NextGrows(c, run[j - 1], run[j]);
    }
  }
}

/** What Weak MVC guarantees in every state of every run: agreement across phases,
    validity, convergence, and the exclusion of decisions and coins. */
module WeakMvcSafety {
  import opened Types
  import opened Quorum
  import opened WeakMvc
  import opened WeakMvcInvariant

  // ---- One phase ----

  lemma BackedWasVoted(c: ClusterConfig, s: State, p: Phase, v: StateValue)
    requires c.nodes != {} && FPlusOneBacks(c, s, p, v)
    ensures exists m :: (m, p, v) in s.vote2
  {
    var f :| c.IsFPlusOne(f) && AllVoted2(s, f, p, v);
    assert c.IsMajority(c.nodes);
    MajorityMeetsFPlusOne(c, c.nodes, f);
    var m :| m in f;
    assert (m, p, v) in s.vote2;
  }

  lemma DecisionIsBacked(c: ClusterConfig, s: State, n: NodeId, p: Phase, v: StateValue)
    requires Inv(c, s) && (n, p, v) in s.decision
    ensures c.nodes != {} && v != VQuestion && FPlusOneBacks(c, s, p, v)
  {
    assert n in c.nodes;
  }

  lemma Vote2WasVoted1(c: ClusterConfig, s: State, n: NodeId, p: Phase, v: StateValue)
    requires Inv(c, s) && (n, p, v) in s.vote2 && v != VQuestion
    ensures Voted1By(s, p, v)
  {
    assert MajorityVoted1(c, s, p, v);
    var q :| c.IsMajority(q) && AllVoted1(s, q, p, v);
    MajorityNonEmpty(c, q);
    var m :| m in q;
    assert (m, p, v) in s.vote1;
  }

  /** A value backed by an f+1 set reaches some member of every majority. */
  lemma BackedMeetsMajority(c: ClusterConfig, s: State, p: Phase, v: StateValue, q: set<NodeId>)
    requires FPlusOneBacks(c, s, p, v) && c.IsMajority(q)
    ensures exists m :: m in q && (m, p, v) in s.vote2
  {
    var f :| c.IsFPlusOne(f) && AllVoted2(s, f, p, v);
    MajorityMeetsFPlusOne(c, q, f);
    var m :| m in q && m in f;
    assert (m, p, v) in s.vote2;
  }

  /** No phase has both a decision and a coin. */
  lemma NoDecisionWithCoin(c: ClusterConfig, s: State, n: NodeId, p: Phase, v: StateValue, w: StateValue)
    requires Inv(c, s) && (n, p, v) in s.decision
    ensures (p, w) !in s.coin
  {
    if (p, w) in s.coin {
      assert MajorityVoted2(c, s, p, VQuestion);
      var q :| c.IsMajority(q) && AllVoted2(s, q, p, VQuestion);
      DecisionIsBacked(c, s, n, p, v);
      BackedMeetsMajority(c, s, p, v, q);
      assert false;
    }
  }

  // ---- From one phase to the next ----

  /** Whatever is voted in round 1 of phase `p + 1` was voted in round 1 of `p`. */
  lemma Vote1WasVotedBefore(c: ClusterConfig, s: State, n: NodeId, p: Phase, w: StateValue)
    requires Inv(c, s) && (n, p + 1, w) in s.vote1
    ensures Voted1By(s, p, w)
  {
    assert Arrived(c, s, n, p + 1 - 1, w);
    var q :| c.IsMajority(q) && CameBy(s, n, p, w, q);
    if SomeVoted2(s, q, p, w) {
      var m :| m in q && (m, p, w) in s.vote2;
      Vote2WasVoted1(c, s, m, p, w);
    } else {
      MajorityNonEmpty(c, q);
      var m :| m in q;
      assert (m, p, VQuestion) in s.vote2;
      assert Voted1By(s, p, V0) && Voted1By(s, p, V1);
    }
  }

  /** In a locked phase nobody is undecided in round 2. */
  lemma LockedVote2(c: ClusterConfig, s: State, p: Phase, v: StateValue, n: NodeId, w: StateValue)
    requires Inv(c, s) && Locked(s, p, v) && (n, p, w) in s.vote2
    ensures w == v && w != VQuestion
  {
    if w == VQuestion {
      assert false;
    }
    Vote2WasVoted1(c, s, n, p, w);
  }

  /** With an f+1 set behind `v` in round 2 of `p`, no other value reaches phase `p + 1`:
      every majority seen holds a vote for `v`, so it is neither split nor undecided. */
  lemma BackedValueArrives(c: ClusterConfig, s: State, p: Phase, v: StateValue, m: NodeId, w: StateValue)
    requires Inv(c, s) && v != VQuestion && FPlusOneBacks(c, s, p, v) && w != VQuestion
    requires Arrived(c, s, m, p, w)
    ensures w == v
  {
    var q :| c.IsMajority(q) && CameBy(s, m, p, w, q);
    BackedMeetsMajority(c, s, p, v, q);
    var k :| k in q && (k, p, v) in s.vote2;
    var k' :| k' in q && (k', p, w) in s.vote2;
    Vote2Agree(c, s, p, k, v, k', w);
  }

  lemma LockedHasNoCoin(c: ClusterConfig, s: State, p: Phase, v: StateValue, w: StateValue)
    requires Inv(c, s) && Locked(s, p, v)
    ensures (p, w) !in s.coin
  {
    if (p, w) in s.coin {
      assert MajorityVoted2(c, s, p, VQuestion);
      var q :| c.IsMajority(q) && AllVoted2(s, q, p, VQuestion);
      MajorityNonEmpty(c, q);
      var m :| m in q;
      assert (m, p, VQuestion) in s.vote2;
      LockedVote2(c, s, p, v, m, VQuestion);
    }
  }

  lemma BackedLocksNext(c: ClusterConfig, s: State, p: Phase, v: StateValue)
    requires Inv(c, s) && v != VQuestion && FPlusOneBacks(c, s, p, v)
    ensures Locked(s, p + 1, v)
  {
    var p' := p + 1;
    forall m: NodeId, w | (m, p', w) in s.vote1
      ensures w == v
    {
      assert Arrived(c, s, m, p' - 1, w);
      BackedValueArrives(c, s, p, v, m, w);
    }
  }

  /** A lock carries to every later phase, through round 2 and through the coin. */
  lemma {:induction false} LockCarries(c: ClusterConfig, s: State, p: Phase, p': Phase, v: StateValue)
    requires Inv(c, s) && Locked(s, p, v) && p <= p'
    ensures Locked(s, p', v)
    decreases p'
  {
    if p < p' {
      LockCarries(c, s, p, p' - 1, v);
      forall m: NodeId, w | (m, p', w) in s.vote1
        ensures w == v
      {
        Vote1WasVotedBefore(c, s, m, p' - 1, w);
      }
    }
  }

  lemma BackedLocksLater(c: ClusterConfig, s: State, p: Phase, v: StateValue, p': Phase)
    requires Inv(c, s) && v != VQuestion && FPlusOneBacks(c, s, p, v) && p < p'
    ensures Locked(s, p', v)
  {
    BackedLocksNext(c, s, p, v);
    LockCarries(c, s, p + 1, p', v);
  }

  /** Values backed by f+1 sets agree, whatever their phases. */
  lemma BackedAgree(c: ClusterConfig, s: State, p1: Phase, v1: StateValue, p2: Phase, v2: StateValue)
    requires Inv(c, s) && c.nodes != {} && p1 <= p2 && v1 != VQuestion && v2 != VQuestion
    requires FPlusOneBacks(c, s, p1, v1) && FPlusOneBacks(c, s, p2, v2)
    ensures v1 == v2
  {
    BackedWasVoted(c, s, p1, v1);
    BackedWasVoted(c, s, p2, v2);
    var m1 :| (m1, p1, v1) in s.vote2;
    var m2 :| (m2, p2, v2) in s.vote2;
    if p1 == p2 {
      Vote2Agree(c, s, p1, m1, v1, m2, v2);
    } else {
      BackedLocksLater(c, s, p1, v1, p2);
      LockedVote2(c, s, p2, v1, m2, v2);
    }
  }

  /** Everyone who has left a phase locked on `v` decided `v` in it. */
  lemma LockedFinishersDecided(c: ClusterConfig, s: State, p: Phase, v: StateValue, n: NodeId)
    requires Inv(c, s) && Locked(s, p, v) && Cast1(s, n, p + 1)
    ensures (n, p, v) in s.decision
  {
    var w :| (n, p + 1, w) in s.vote1;
    assert Arrived(c, s, n, p + 1 - 1, w);
    var q :| c.IsMajority(q) && CameBy(s, n, p, w, q);
    MajorityNonEmpty(c, q);
    var m :| m in q;
    if !((n, p, w) in s.decision && SomeVoted2(s, q, p, w)) {
      assert AllVoted2(s, q, p, VQuestion) ==> (m, p, VQuestion) in s.vote2;
      var k :| k in q && (k, p, VQuestion) in s.vote2;
      LockedVote2(c, s, p, v, k, VQuestion);
    } else {
      var k :| k in q && (k, p, w) in s.vote2;
      LockedVote2(c, s, p, v, k, w);
    }
  }

  lemma {:induction false} Vote1TracesToZero(c: ClusterConfig, s: State, n: NodeId, p: Phase, v: StateValue)
    requires Inv(c, s) && (n, p, v) in s.vote1
    ensures Voted1By(s, 0, v)
    decreases p
  {
    if p > 0 {
      Vote1WasVotedBefore(c, s, n, p - 1, v);
      var m :| (m, p - 1, v) in s.vote1;
      Vote1TracesToZero(c, s, m, p - 1, v);
    }
  }

  lemma PredecessorStarted(c: ClusterConfig, s: State, p: Phase)
    requires Inv(c, s) && Started(s, p + 1)
    ensures Started(s, p)
  {
    var n, v :| (n, p + 1, v) in s.vote1;
    Vote1WasVotedBefore(c, s, n, p, v);
    var m :| (m, p, v) in s.vote1;
  }

  lemma {:induction false} StartedBefore(c: ClusterConfig, s: State, p: Phase, p0: Phase)
    requires Inv(c, s) && Started(s, p) && p0 <= p
    ensures Started(s, p0)
    decreases p
  {
    if p0 < p {
      PredecessorStarted(c, s, p - 1);
      StartedBefore(c, s, p - 1, p0);
    }
  }

  lemma MajoritiesProposeOneValue(c: ClusterConfig, s: State, x: ProposalValue, y: ProposalValue)
    requires Inv(c, s) && MajorityProposed(c, s, x) && MajorityProposed(c, s, y)
    ensures x == y
  {
    var q1 :| c.IsMajority(q1) && AllProposed(s, q1, x);
    var q2 :| c.IsMajority(q2) && AllProposed(s, q2, y);
    MajoritiesIntersect(c, q1, q2);
    var m :| m in q1 && m in q2;
    assert (m, x) in s.propose && (m, y) in s.propose;
  }

  // ---- Theorems over whole runs ----

  /** Agreement: two binary decisions, by any nodes, in any phases, seen at any two
      moments of a run, are equal. */
  lemma Agreement(c: ClusterConfig, run: seq<State>, i: nat, j: nat,
                  n1: NodeId, p1: Phase, v1: StateValue, n2: NodeId, p2: Phase, v2: StateValue)
    requires IsRun(c, run) && i < |run| && j < |run|
    requires (n1, p1, v1) in run[i].decision && (n2, p2, v2) in run[j].decision
    ensures v1 == v2 && v1 != VQuestion
  {
    var last := |run| - 1;
    RunGrows(c, run, i, last);
    RunGrows(c, run, j, last);
    RunInv(c, run, last);
    DecisionIsBacked(c, run[last], n1, p1, v1);
    DecisionIsBacked(c, run[last], n2, p2, v2);
    if p1 <= p2 {
      BackedAgree(c, run[last], p1, v1, p2, v2);
    } else {
      BackedAgree(c, run[last], p2, v2, p1, v1);
    }
  }

  /** A decision, whenever it is taken, locks every later phase on its value, at every
      moment of the run, before the decision as well as after it. */
  lemma LockPropagation(c: ClusterConfig, run: seq<State>, i: nat, j: nat, n: NodeId, p: Phase, p': Phase, v: StateValue)
    requires IsRun(c, run) && i < |run| && j < |run|
    requires (n, p, v) in run[i].decision && p < p'
    ensures Locked(run[j], p', v)
  {
    var last := |run| - 1;
    RunGrows(c, run, i, last);
    RunGrows(c, run, j, last);
    RunInv(c, run, last);
    DecisionIsBacked(c, run[last], n, p, v);
    BackedLocksLater(c, run[last], p, v, p');
    forall m: NodeId, w | (m, p', w) in run[j].vote1
      ensures w == v
    {
      assert (m, p', w) in run[last].vote1;
    }
  }

  /** Validity: a decided value was voted in phase zero; a V1 decision moreover means
      that a majority proposed one common value, and then the full decision action
      is enabled with that value. */
  lemma Validity(c: ClusterConfig, run: seq<State>, i: nat, n: NodeId, p: Phase, v: StateValue)
    requires IsRun(c, run) && i < |run| && (n, p, v) in run[i].decision
    ensures Voted1By(run[i], 0, v)
    ensures v == V1 ==> exists q, value :: Enabled(c, run[i], DecideFullVal(n, p, q, Some(value)))
  {
    var s := run[i];
    RunInv(c, run, i);
    DecisionIsBacked(c, s, n, p, v);
    BackedWasVoted(c, s, p, v);
    var m :| (m, p, v) in s.vote2;
    Vote2WasVoted1(c, s, m, p, v);
    var k :| (k, p, v) in s.vote1;
    Vote1TracesToZero(c, s, k, p, v);
    if v == V1 {
      var k0 :| (k0, 0, V1) in s.vote1;
      var value :| MajorityProposed(c, s, value);
      var q :| c.IsMajority(q) && AllProposed(s, q, value);
      assert Enabled(c, s, DecideFullVal(n, p, q, Some(value)));
    }
  }

  /** Full decisions: all of them return one value, which a majority proposed, and
      none coexists with a no-value decision. */
  lemma FullDecisionsAgree(c: ClusterConfig, run: seq<State>, i: nat, j: nat,
                           n1: NodeId, p1: Phase, x: ProposalValue)
    requires IsRun(c, run) && i < |run| && j < |run|
    requires (n1, p1, x) in run[i].fullVal
    ensures MajorityProposed(c, run[i], x)
    ensures forall n2, p2, y :: (n2, p2, y) in run[j].fullVal ==> y == x
    ensures run[j].fullNoVal == {}
  {
    var last := |run| - 1;
    RunGrows(c, run, i, last);
    RunGrows(c, run, j, last);
    RunInv(c, run, i);
    RunInv(c, run, last);
    forall n2: NodeId, p2: Phase, y: ProposalValue | (n2, p2, y) in run[j].fullVal
      ensures y == x
    {
      assert (n2, p2, y) in run[last].fullVal && (n1, p1, x) in run[last].fullVal;
      MajoritiesProposeOneValue(c, run[last], x, y);
    }
    if t :| t in run[j].fullNoVal {
      assert (t.0, t.1) in run[last].fullNoVal && (n1, p1, x) in run[last].fullVal;
      Agreement(c, run, last, last, n1, p1, V1, t.0, t.1, V0);
    }
  }

  /** Convergence: in a phase locked on `v` nobody votes undecided in round 2, no coin is
      flipped, everyone who has left it decided `v` in it, and whoever leaves it next
      decides `v`. */
  lemma Convergence(c: ClusterConfig, run: seq<State>, i: nat, p: Phase, v: StateValue)
    requires IsRun(c, run) && i < |run| && Locked(run[i], p, v)
    ensures forall n, w :: (n, p, w) in run[i].vote2 ==> w == v && w != VQuestion
    ensures forall n: NodeId :: Cast1(run[i], n, p + 1) ==> (n, p, v) in run[i].decision
    ensures forall w :: (p, w) !in run[i].coin
    ensures forall a: Action :: a.PhaseRnd2? && a.p == p && Enabled(c, run[i], a) ==> a.outcome == Decide(v)
  {
    var s := run[i];
    RunInv(c, run, i);
    forall n: NodeId, w | (n, p, w) in s.vote2
      ensures w == v && w != VQuestion
    {
      LockedVote2(c, s, p, v, n, w);
    }
    forall n: NodeId | Cast1(s, n, p + 1)
      ensures (n, p, v) in s.decision
    {
      LockedFinishersDecided(c, s, p, v, n);
    }
    forall w
      ensures (p, w) !in s.coin
    {
      LockedHasNoCoin(c, s, p, v, w);
    }
    forall a: Action | a.PhaseRnd2? && a.p == p && Enabled(c, s, a)
      ensures a.outcome == Decide(v)
    {
      OutcomeSeen(c, s, a);
      MajorityNonEmpty(c, a.q);
      var m :| m in a.q;
      assert a.outcome.Decide?;
    }
  }

  /** Once anyone decides `v` in phase `p`, everyone finishing `p + 1` decides `v` there. */
  lemma NextPhaseDecides(c: ClusterConfig, run: seq<State>, i: nat, n: NodeId, p: Phase, v: StateValue, m: NodeId)
    requires IsRun(c, run) && i < |run| && (n, p, v) in run[i].decision
    requires Cast1(run[i], m, p + 2)
    ensures (m, p + 1, v) in run[i].decision
  {
    RunInv(c, run, i);
    DecisionIsBacked(c, run[i], n, p, v);
    BackedLocksNext(c, run[i], p, v);
    LockedFinishersDecided(c, run[i], p + 1, v, m);
  }

  /** From the phase of a decision on, no coin is flipped. */
  lemma NoCoinAfterDecision(c: ClusterConfig, run: seq<State>, i: nat, n: NodeId, p: Phase, v: StateValue,
                            p': Phase, w: StateValue)
    requires IsRun(c, run) && i < |run| && (n, p, v) in run[i].decision && p <= p'
    ensures (p', w) !in run[i].coin
  {
    RunInv(c, run, i);
    NoDecisionWithCoin(c, run[i], n, p, v, w);
    if p < p' {
      DecisionIsBacked(c, run[i], n, p, v);
      BackedLocksLater(c, run[i], p, v, p');
      LockedHasNoCoin(c, run[i], p', v, w);
    }
  }

  /** Decisions and coins exclude each other; decided round-2 votes of a phase agree;
      a flipped coin means a full majority was undecided. */
  lemma DecisionExcludesCoin(c: ClusterConfig, run: seq<State>, i: nat, p: Phase)
    requires IsRun(c, run) && i < |run|
    ensures forall n1, v1, n2, v2 | (n1, p, v1) in run[i].vote2 && (n2, p, v2) in run[i].vote2 ::
              v1 != VQuestion && v2 != VQuestion ==> v1 == v2
    ensures (exists w :: (p, w) in run[i].coin) ==> MajorityVoted2(c, run[i], p, VQuestion)
    ensures !((exists w :: (p, w) in run[i].coin) && exists n, v :: (n, p, v) in run[i].decision)
  {
    var s := run[i];
    RunInv(c, run, i);
    forall n1: NodeId, v1, n2: NodeId, v2 | (n1, p, v1) in s.vote2 && (n2, p, v2) in s.vote2
                                            && v1 != VQuestion && v2 != VQuestion
      ensures v1 == v2
    {
      Vote2Agree(c, s, p, n1, v1, n2, v2);
    }
    if (exists w :: (p, w) in s.coin) && exists n, v :: (n, p, v) in s.decision {
      var w :| (p, w) in s.coin;
      var n, v :| (n, p, v) in s.decision;
      NoDecisionWithCoin(c, s, n, p, v, w);
    }
  }

  /** Every phase that started is good; in particular its predecessor started. */
  lemma StartedPhasesAreGood(c: ClusterConfig, run: seq<State>, i: nat, p: Phase)
    requires IsRun(c, run) && i < |run| && Started(run[i], p)
    ensures Good(run[i], p)
  {
    var s := run[i];
    RunInv(c, run, i);
    forall p0: Phase | p0 < p
      ensures Started(s, p0)
    {
      StartedBefore(c, s, p, p0);
    }
    forall p0: Phase, v0 | p0 < p && DecidedOrLocked(s, p0, v0)
      ensures Locked(s, p, v0)
    {
      if n :| (n, p0, v0) in s.decision {
        LockPropagation(c, run, i, i, n, p0, p, v0);
      } else {
        LockCarries(c, s, p0, p, v0);
      }
    }
  }
}

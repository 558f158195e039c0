/** The six actions as the description writes them: assignments to the relations,
    with `if some` as a guarded choice. Each method is proved to take one step of the
    transition system `WeakMvc`, and reports the choice it made. */
module WeakMvcActions {
  import opened Types
  import opened Quorum
  import opened WeakMvc

  /** The members of `q` that voted `v` in round 2 of phase `p`. */
  function Backers(s: State, q: set<NodeId>, p: Phase, v: StateValue): set<NodeId> {
    set m | m in q && (m, p, v) in s.vote2
  }

  /** Looking for an f+1 set of voters amounts to counting them. */
  lemma FPlusOneByCount(c: ClusterConfig, s: State, q: set<NodeId>, p: Phase, v: StateValue)
    requires q <= c.nodes
    ensures FPlusOneVoted2(c, s, q, p, v) <==> |Backers(s, q, p, v)| >= c.FPlusOne()
  {
    var b := Backers(s, q, p, v);
    if FPlusOneVoted2(c, s, q, p, v) {
      var f :| c.IsFPlusOne(f) && f <= q && AllVoted2(s, f, p, v);
      SubsetCard(f, b);
    }
    if |b| >= c.FPlusOne() {
      assert c.IsFPlusOne(b) && b <= q && AllVoted2(s, b, p, v);
    }
  }

  /** A value that a whole majority proposed is among the proposed values. */
  lemma CommonValueIsProposed(c: ClusterConfig, s: State, q: set<NodeId>)
    requires c.IsMajority(q)
    ensures forall value :: AllProposed(s, q, value) ==> value in (set t <- s.propose :: t.1)
  {
    MajoritiesIntersect(c, q, q);
    var m :| m in q;
    forall value | AllProposed(s, q, value)
      ensures value in (set t <- s.propose :: t.1)
    {
      assert (m, value) in s.propose;
    }
  }

  class Protocol {
    const config: ClusterConfig
    var propose: set<(NodeId, ProposalValue)>
    var vote1: set<(NodeId, Phase, StateValue)>
    var vote2: set<(NodeId, Phase, StateValue)>
    var decision: set<(NodeId, Phase, StateValue)>
    var fullVal: set<(NodeId, Phase, ProposalValue)>
    var fullNoVal: set<(NodeId, Phase)>
    var coin: set<(Phase, StateValue)>
    var inPhase: set<(NodeId, Phase)>

    function Relations(): State
      reads this
    {
      State(propose, vote1, vote2, decision, fullVal, fullNoVal, coin, inPhase)
    }

    constructor (config: ClusterConfig)
      ensures this.config == config && Relations() == INIT
    {
      this.config := config;
      propose, vote1, vote2, decision := {}, {}, {}, {};
      fullVal, fullNoVal, coin, inPhase := {}, {}, {}, {};
    }

    method InitialProposal(n: NodeId, value: ProposalValue)
      requires Enabled(config, Relations(), Action.InitialProposal(n, value))
      modifies this
      ensures Relations() == Apply(old(Relations()), Action.InitialProposal(n, value))
    {
      propose := propose + {(n, value)};
    }

    method DecideFullVal(n: NodeId, p: Phase, q: set<NodeId>) returns (common: Option<ProposalValue>)
      requires n in config.nodes && config.IsMajority(q) && (n, p, V1) in decision
      modifies this
      ensures common.Some? <==> exists value :: AllProposed(old(Relations()), q, value)
      ensures common.Some? ==> AllProposed(old(Relations()), q, common.value) && (n, p, common.value) in fullVal
      ensures var a := Action.DecideFullVal(n, p, q, common);
              Enabled(config, old(Relations()), a) && Relations() == Apply(old(Relations()), a)
    {
      CommonValueIsProposed(config, Relations(), q);
      var proposed := set t <- propose :: t.1;
      if value :| value in proposed && AllProposed(Relations(), q, value) {
        common := Some(value);
        fullVal := fullVal + {(n, p, value)};
      } else {
        common := None;
      }
    }

    method DecideFullNoVal(n: NodeId, p: Phase)
      requires n in config.nodes && (n, p, V0) in decision
      modifies this
      ensures (n, p) in fullNoVal
      ensures Enabled(config, old(Relations()), Action.DecideFullNoVal(n, p))
      ensures Relations() == Apply(old(Relations()), Action.DecideFullNoVal(n, p))
    {
      fullNoVal := fullNoVal + {(n, p)};
    }

    method InitialVote1(n: NodeId, q: set<NodeId>) returns (common: Option<ProposalValue>)
      requires n in config.nodes && config.IsMajority(q)
      requires (exists t <- propose :: t.0 == n) && Fresh(Relations(), n)
      modifies this
      ensures (n, 0, V1) in vote1 <==> exists value :: AllProposed(old(Relations()), q, value)
      ensures (n, 0, V0) in vote1 <==> !exists value :: AllProposed(old(Relations()), q, value)
      ensures var a := Action.InitialVote1(n, q, common);
              Enabled(config, old(Relations()), a) && Relations() == Apply(old(Relations()), a)
    {
      CommonValueIsProposed(config, Relations(), q);
      var proposed := set t <- propose :: t.1;
      if value :| value in proposed && AllProposed(Relations(), q, value) {
        common := Some(value);
        vote1 := vote1 + {(n, 0, V1)};
        inPhase := inPhase + {(n, 0)};
      } else {
        common := None;
        vote1 := vote1 + {(n, 0, V0)};
        inPhase := inPhase + {(n, 0)};
      }
    }

    method PhaseRnd1(n: NodeId, p: Phase, q: set<NodeId>) returns (agreed: Option<StateValue>)
      requires n in config.nodes && config.IsMajority(q)
      requires (n, p) in inPhase && !Cast2(Relations(), n, p) && AllCast1(Relations(), q, p)
      modifies this
      ensures forall v | v != VQuestion :: (n, p, v) in vote2 <==> agreed == Some(v)
      ensures agreed.None? ==> (n, p, VQuestion) in vote2
      ensures var a := Action.PhaseRnd1(n, p, q, agreed);
              Enabled(config, old(Relations()), a) && Relations() == Apply(old(Relations()), a)
    {
      if v :| AllVoted1(Relations(), q, p, v) {
        agreed := Some(v);
        vote2 := vote2 + {(n, p, v)};
      } else {
        agreed := None;
        vote2 := vote2 + {(n, p, VQuestion)};
      }
    }

    /** `toss` is the coin's value should this call be the one that flips it. */
    method PhaseRnd2(n: NodeId, p: Phase, q: set<NodeId>, toss: StateValue) returns (o: Outcome)
      requires n in config.nodes && config.IsMajority(q) && toss != VQuestion
      requires (n, p) in inPhase && Cast2(Relations(), n, p) && AllCast2(Relations(), q, p)
      modifies this
      ensures var a := Action.PhaseRnd2(n, p, q, o);
              Enabled(config, old(Relations()), a) && Relations() == Apply(old(Relations()), a)
      ensures o.Flip? ==> o.v == toss
    {
      ghost var s := Relations();
      FPlusOneByCount(config, s, q, p, V0);
      FPlusOneByCount(config, s, q, p, V1);
      if v :| v != VQuestion && |Backers(Relations(), q, p, v)| >= config.FPlusOne() {
        o := Decide(v);
        decision := decision + {(n, p, v)};
      } else if v :| v != VQuestion && SomeVoted2(Relations(), q, p, v) {
        o := Adopt(v);
      } else if v :| v != VQuestion && (p, v) in coin {
        o := Follow(v);
      } else {
        o := Flip(toss);
        coin := coin + {(p, toss)};
      }
      vote1 := vote1 + {(n, p + 1, o.v)};
      inPhase := inPhase + {(n, p + 1)};
      inPhase := inPhase - {(n, p)};
    }
  }
}

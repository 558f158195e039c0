/** The Weak MVC protocol of `docs/weak_mvc.ivy`: its relations, its six actions
    and the runs they generate. Each relation is a finite set of tuples, so a node
    may a priori hold several votes; that it never does is proved, not assumed. */
module WeakMvc {
  import opened Types
  import opened Quorum

  type ProposalValue = nat

  datatype State = State(
    propose: set<(NodeId, ProposalValue)>,
    vote1: set<(NodeId, Phase, StateValue)>,
    vote2: set<(NodeId, Phase, StateValue)>,
    decision: set<(NodeId, Phase, StateValue)>,
    fullVal: set<(NodeId, Phase, ProposalValue)>,
    fullNoVal: set<(NodeId, Phase)>,
    coin: set<(Phase, StateValue)>,
    inPhase: set<(NodeId, Phase)>)

  const INIT := State({}, {}, {}, {}, {}, {}, {}, {})

  /** How a node leaves round 2: it decides, adopts a value it saw, follows a coin
      that was already flipped, or flips the coin. */
  datatype Outcome = Decide(v: StateValue) | Adopt(v: StateValue) | Follow(v: StateValue) | Flip(v: StateValue)

  /** One action together with every choice it makes. `None` is the else-branch of
      an `if some`: it may be taken only when no value satisfies the condition. */
  datatype Action =
    | InitialProposal(n: NodeId, value: ProposalValue)
    | DecideFullVal(n: NodeId, p: Phase, q: set<NodeId>, common: Option<ProposalValue>)
    | DecideFullNoVal(n: NodeId, p: Phase)
    | InitialVote1(n: NodeId, q: set<NodeId>, common: Option<ProposalValue>)
    | PhaseRnd1(n: NodeId, p: Phase, q: set<NodeId>, agreed: Option<StateValue>)
    | PhaseRnd2(n: NodeId, p: Phase, q: set<NodeId>, outcome: Outcome)

  predicate Cast1(s: State, n: NodeId, p: Phase) {
    exists v: StateValue :: (n, p, v) in s.vote1
  }

  predicate Cast2(s: State, n: NodeId, p: Phase) {
    exists v: StateValue :: (n, p, v) in s.vote2
  }

  /** A node that has neither voted, decided nor entered a phase. */
  predicate Fresh(s: State, n: NodeId) {
    && (forall t <- s.vote1 :: t.0 != n)
    && (forall t <- s.vote2 :: t.0 != n)
    && (forall t <- s.decision :: t.0 != n)
    && (forall t <- s.inPhase :: t.0 != n)
  }

  predicate AllProposed(s: State, q: set<NodeId>, value: ProposalValue) {
    forall m <- q :: (m, value) in s.propose
  }

  predicate AllVoted1(s: State, q: set<NodeId>, p: Phase, v: StateValue) {
    forall m <- q :: (m, p, v) in s.vote1
  }

  predicate AllVoted2(s: State, q: set<NodeId>, p: Phase, v: StateValue) {
    forall m <- q :: (m, p, v) in s.vote2
  }

  predicate AllCast1(s: State, q: set<NodeId>, p: Phase) {
    forall m <- q :: Cast1(s, m, p)
  }

  predicate AllCast2(s: State, q: set<NodeId>, p: Phase) {
    forall m <- q :: Cast2(s, m, p)
  }

  /** Some f+1 set inside the majority `q` voted `v` in round 2. */
  ghost predicate FPlusOneVoted2(c: ClusterConfig, s: State, q: set<NodeId>, p: Phase, v: StateValue) {
    exists f :: c.IsFPlusOne(f) && f <= q && AllVoted2(s, f, p, v)
  }

  predicate SomeVoted2(s: State, q: set<NodeId>, p: Phase, v: StateValue) {
    exists m <- q :: (m, p, v) in s.vote2
  }

  ghost predicate OutcomeAllowed(c: ClusterConfig, s: State, p: Phase, q: set<NodeId>, o: Outcome) {
    var canDecide := exists v :: v != VQuestion && FPlusOneVoted2(c, s, q, p, v);
    var canAdopt := exists v :: v != VQuestion && SomeVoted2(s, q, p, v);
    var flipped := exists v :: v != VQuestion && (p, v) in s.coin;
    && o.v != VQuestion
    && match o {
         case Decide(v) => FPlusOneVoted2(c, s, q, p, v)
         case Adopt(v) => !canDecide && SomeVoted2(s, q, p, v)
         case Follow(v) => !canDecide && !canAdopt && (p, v) in s.coin
         case Flip(v) => !canDecide && !canAdopt && !flipped
       }
  }

  ghost predicate Enabled(c: ClusterConfig, s: State, a: Action) {
    && a.n in c.nodes
    && match a {
         case InitialProposal(n, _) =>
           && (forall t <- s.propose :: t.0 != n)
           && Fresh(s, n)
         case DecideFullVal(n, p, q, common) =>
           && c.IsMajority(q)
           && (n, p, V1) in s.decision
           && match common {
                case Some(value) => AllProposed(s, q, value)
                case None => forall value :: !AllProposed(s, q, value)
              }
         case DecideFullNoVal(n, p) =>
           (n, p, V0) in s.decision
         case InitialVote1(n, q, common) =>
           && c.IsMajority(q)
           && (exists t <- s.propose :: t.0 == n)
           && Fresh(s, n)
           && match common {
                case Some(value) => AllProposed(s, q, value)
                case None => forall value :: !AllProposed(s, q, value)
              }
         case PhaseRnd1(n, p, q, agreed) =>
           && c.IsMajority(q)
           && (n, p) in s.inPhase
           && !Cast2(s, n, p)
           && AllCast1(s, q, p)
           && match agreed {
                case Some(v) => AllVoted1(s, q, p, v)
                case None => forall v :: !AllVoted1(s, q, p, v)
              }
         case PhaseRnd2(n, p, q, o) =>
           && c.IsMajority(q)
           && (n, p) in s.inPhase
           && Cast2(s, n, p)
           && AllCast2(s, q, p)
           && OutcomeAllowed(c, s, p, q, o)
       }
  }

  function Apply(s: State, a: Action): State {
    match a
    case InitialProposal(n, value) =>
      s.(propose := s.propose + {(n, value)})
    case DecideFullVal(n, p, _, common) =>
      if common.Some? then s.(fullVal := s.fullVal + {(n, p, common.value)}) else s
    case DecideFullNoVal(n, p) =>
      s.(fullNoVal := s.fullNoVal + {(n, p)})
    case InitialVote1(n, _, common) =>
      s.(vote1 := s.vote1 + {(n, 0, if common.Some? then V1 else V0)},
      inPhase := s.inPhase + {(n, 0)})
    case PhaseRnd1(n, p, _, agreed) =>
      s.(vote2 := s.vote2 + {(n, p, if agreed.Some? then agreed.value else VQuestion)})
    case PhaseRnd2(n, p, _, o) =>
      s.(decision := if o.Decide? then s.decision + {(n, p, o.v)} else s.decision,
      coin := if o.Flip? then s.coin + {(p, o.v)} else s.coin,
      vote1 := s.vote1 + {(n, p + 1, o.v)},
      inPhase := s.inPhase + {(n, p + 1)} - {(n, p)})
  }

  ghost predicate Next(c: ClusterConfig, s: State, s': State) {
    exists a :: Enabled(c, s, a) && s' == Apply(s, a)
  }

  /** A run of the protocol: it starts empty and every step is one action. */
  ghost predicate IsRun(c: ClusterConfig, run: seq<State>) {
    && |run| > 0
    && run[0] == INIT
    && forall i | 0 <= i < |run| - 1 :: Next(c, run[i], run[i + 1])
  }

  /** Every round-1 vote of phase `p` is for `v`. */
  ghost predicate Locked(s: State, p: Phase, v: StateValue) {
    forall n, w :: (n, p, w) in s.vote1 ==> w == v
  }

  ghost predicate Started(s: State, p: Phase) {
    exists n, v :: (n, p, v) in s.vote1
  }

  ghost predicate DecidedOrLocked(s: State, p: Phase, v: StateValue) {
    (exists n :: (n, p, v) in s.decision) || Locked(s, p, v)
  }

  /** A phase is good when it and all earlier phases started, and it is locked on
      every value that an earlier phase decided or was locked on. */
  ghost predicate Good(s: State, p: Phase) {
    && Started(s, p)
    && (forall p0: Phase | p0 < p :: Started(s, p0))
    && (forall p0: Phase, v0 | p0 < p && DecidedOrLocked(s, p0, v0) :: Locked(s, p, v0))
  }
}

/** Vote recording and counting in one phase (`PhaseData`), tied to the majorities
    the protocol speaks of. */
module Tally {
  import opened Types
  import opened Quorum
  import opened WeakMvc
  import opened WeakMvcInvariant
  import opened WeakMvcSafety

  type Votes = map<NodeId, StateValue>

  function VotersFor(votes: Votes, v: StateValue): set<NodeId> {
    set n | n in votes && votes[n] == v
  }

  /** The first value of `order` that reaches the quorum. */
  function TallyInOrder(votes: Votes, quorum: nat, order: seq<StateValue>): Option<StateValue> {
    if order == [] then None
    else if |VotersFor(votes, order[0])| >= quorum then Some(order[0])
    else TallyInOrder(votes, quorum, order[1..])
  }

  /** The order in which the source tests the three counts. */
  const ORDER := [V0, V1, VQuestion]

  predicate AllRecorded(votes: Votes, q: set<NodeId>, v: StateValue) {
    forall n | n in q :: n in votes && votes[n] == v
  }

  /** The set-level meaning of a tally: a majority of the cluster recorded `v`. */
  ghost predicate MajorityRecorded(c: ClusterConfig, votes: Votes, v: StateValue) {
    exists q :: c.IsMajority(q) && AllRecorded(votes, q, v)
  }

  class PhaseData {
    const phaseId: Phase
    var proposedValue: Option<StateValue>
    var round1Votes: Votes
    var round2Votes: Votes
    var decision: Option<StateValue>
    var isCommitted: bool

    constructor (phaseId: Phase)
      ensures this.phaseId == phaseId && proposedValue == None && decision == None && !isCommitted
      ensures round1Votes == map[] && round2Votes == map[]
    {
      this.phaseId := phaseId;
      proposedValue, decision, isCommitted := None, None, false;
      round1Votes, round2Votes := map[], map[];
    }

    method AddRound1Vote(voter: NodeId, vote: StateValue)
      modifies this`round1Votes
      ensures round1Votes == old(round1Votes)[voter := vote]
    {
      round1Votes := round1Votes[voter := vote];
    }

    method AddRound2Vote(voter: NodeId, vote: StateValue)
      modifies this`round2Votes
      ensures round2Votes == old(round2Votes)[voter := vote]
    {
      round2Votes := round2Votes[voter := vote];
    }

    method HasRound1Majority(quorumSize: nat) returns (r: Option<StateValue>)
      ensures r == TallyInOrder(round1Votes, quorumSize, ORDER)
    {
      r := CountVotes(round1Votes, quorumSize);
    }

    method HasRound2Majority(quorumSize: nat) returns (r: Option<StateValue>)
      ensures r == TallyInOrder(round2Votes, quorumSize, ORDER)
    {
      r := CountVotes(round2Votes, quorumSize);
    }

    /** Undecided is recorded but does not commit; a commitment is never withdrawn. */
    method SetDecision(d: StateValue)
      modifies this`decision, this`isCommitted
      ensures decision == Some(d)
      ensures isCommitted <==> old(isCommitted) || d != VQuestion
    {
      decision := Some(d);
      if d != VQuestion {
        isCommitted := true;
      }
    }
  }

  lemma OrderUnfolds(votes: Votes, quorum: nat)
    ensures TallyInOrder(votes, quorum, ORDER) ==
            if |VotersFor(votes, V0)| >= quorum then Some(V0)
            else if |VotersFor(votes, V1)| >= quorum then Some(V1)
            else if |VotersFor(votes, VQuestion)| >= quorum then Some(VQuestion)
            else None
  {
    assert ORDER[1..] == [V1, VQuestion] && [V1, VQuestion][1..] == [VQuestion] && [VQuestion][1..] == [];
    assert TallyInOrder(votes, quorum, [VQuestion]) ==
           if |VotersFor(votes, VQuestion)| >= quorum then Some(VQuestion) else None;
  }

  /** How many voters for `v` lie outside `todo`. */
  ghost function Counted(votes: Votes, todo: set<NodeId>, v: StateValue): nat {
    |VotersFor(votes, v) - todo|
  }

  lemma CountBounds(votes: Votes, v: StateValue)
    ensures Counted(votes, votes.Keys, v) == 0 && Counted(votes, {}, v) == |VotersFor(votes, v)|
  {
    assert VotersFor(votes, v) - votes.Keys == {};
    assert VotersFor(votes, v) - {} == VotersFor(votes, v);
  }

  lemma CountOneMore(votes: Votes, todo: set<NodeId>, n: NodeId, v: StateValue)
    requires todo <= votes.Keys && n in todo
    ensures Counted(votes, todo - {n}, v) == Counted(votes, todo, v) + if votes[n] == v then 1 else 0
  {
    var rest := todo - {n};
    if votes[n] == v {
      assert VotersFor(votes, v) - rest == VotersFor(votes, v) - todo + {n};
    } else {
      assert VotersFor(votes, v) - rest == VotersFor(votes, v) - todo;
    }
  }

  /** The counting loop. The votes are visited in an arbitrary order. */
  method CountVotes(votes: Votes, quorumSize: nat) returns (r: Option<StateValue>)
    ensures r == TallyInOrder(votes, quorumSize, ORDER)
  {
    var v0Count, v1Count, vqCount := 0, 0, 0;
    var todo := votes.Keys;
    CountBounds(votes, V0);
    CountBounds(votes, V1);
    CountBounds(votes, VQuestion);
    while todo != {}
      invariant todo <= votes.Keys
      invariant v0Count == Counted(votes, todo, V0)
      invariant v1Count == Counted(votes, todo, V1)
      invariant vqCount == Counted(votes, todo, VQuestion)
      decreases todo
    {
      var n :| n in todo;
      CountOneMore(votes, todo, n, V0);
      CountOneMore(votes, todo, n, V1);
      CountOneMore(votes, todo, n, VQuestion);
      match votes[n] {
        case V0 => v0Count := v0Count + 1;
        case V1 => v1Count := v1Count + 1;
        case VQuestion => vqCount := vqCount + 1;
      }
      todo := todo - {n};
    }
    OrderUnfolds(votes, quorumSize);
    if v0Count >= quorumSize {
      r := Some(V0);
    } else if v1Count >= quorumSize {
      r := Some(V1);
    } else if vqCount >= quorumSize {
      r := Some(VQuestion);
    } else {
      r := None;
    }
  }

  lemma ReachesIffMajority(c: ClusterConfig, votes: Votes, v: StateValue)
    requires votes.Keys <= c.nodes
    ensures |VotersFor(votes, v)| >= c.QuorumSize() <==> MajorityRecorded(c, votes, v)
  {
    var voters := VotersFor(votes, v);
    if |voters| >= c.QuorumSize() {
      assert c.IsMajority(voters);
    }
    if MajorityRecorded(c, votes, v) {
      var q :| c.IsMajority(q) && AllRecorded(votes, q, v);
      assert q <= voters;
      SubsetCard(q, voters);
    }
  }

  lemma MajorityValueUnique(c: ClusterConfig, votes: Votes, v: StateValue, w: StateValue)
    requires MajorityRecorded(c, votes, v) && MajorityRecorded(c, votes, w)
    ensures v == w
  {
    var q1 :| c.IsMajority(q1) && AllRecorded(votes, q1, v);
    var q2 :| c.IsMajority(q2) && AllRecorded(votes, q2, w);
    MajoritiesIntersect(c, q1, q2);
  }

  /** A tally returns `v` exactly when a majority recorded `v`, whatever the order in
      which the values are tested, as long as the order tests `v` at all. */
  lemma {:induction false} TallyIffMajority(c: ClusterConfig, votes: Votes, order: seq<StateValue>, v: StateValue)
    requires votes.Keys <= c.nodes
    ensures TallyInOrder(votes, c.QuorumSize(), order) == Some(v) <==> v in order && MajorityRecorded(c, votes, v)
  {
    if order != [] {
      TallyIffMajority(c, votes, order[1..], v);
      ReachesIffMajority(c, votes, order[0]);
      if MajorityRecorded(c, votes, order[0]) && MajorityRecorded(c, votes, v) {
        MajorityValueUnique(c, votes, order[0], v);
      }
    }
  }

  /** Nodes that recorded different parts of one vote assignment never count
      different majorities. */
  lemma TalliesAgree(c: ClusterConfig, cast: Votes, m1: Votes, m2: Votes, v: StateValue, w: StateValue)
    requires cast.Keys <= c.nodes && m1.Items <= cast.Items && m2.Items <= cast.Items
    requires TallyInOrder(m1, c.QuorumSize(), ORDER) == Some(v)
    requires TallyInOrder(m2, c.QuorumSize(), ORDER) == Some(w)
    ensures v == w && TallyInOrder(cast, c.QuorumSize(), ORDER) == Some(v)
  {
    PartTallies(c, cast, m1, v);
    PartTallies(c, cast, m2, w);
    MajorityValueUnique(c, cast, v, w);
    assert v in ORDER;
    TallyIffMajority(c, cast, ORDER, v);
  }

  lemma PartTallies(c: ClusterConfig, cast: Votes, m: Votes, v: StateValue)
    requires cast.Keys <= c.nodes && m.Items <= cast.Items
    requires TallyInOrder(m, c.QuorumSize(), ORDER) == Some(v)
    ensures MajorityRecorded(c, cast, v)
  {
    forall n | n in m
      ensures n in cast && cast[n] == m[n]
    {
      assert (n, m[n]) in m.Items;
    }
    TallyIffMajority(c, m, ORDER, v);
    var q :| c.IsMajority(q) && AllRecorded(m, q, v);
    assert AllRecorded(cast, q, v);
  }

  // ---- Tallies of votes cast in a run of the protocol ----

  ghost predicate Recorded1(s: State, p: Phase, votes: Votes) {
    forall n | n in votes :: (n, p, votes[n]) in s.vote1
  }

  ghost predicate Recorded2(s: State, p: Phase, votes: Votes) {
    forall n | n in votes :: (n, p, votes[n]) in s.vote2
  }

  /** What a node does with its round-1 tally is a protocol step: with a majority for
      `v` it may vote `v`, and with a quorum of votes but no majority it may vote
      undecided. */
  lemma Round1TallyIsEnabled(c: ClusterConfig, run: seq<State>, i: nat, n: NodeId, p: Phase, votes: Votes)
    requires IsRun(c, run) && i < |run| && Recorded1(run[i], p, votes)
    requires n in c.nodes && (n, p) in run[i].inPhase && !Cast2(run[i], n, p)
    ensures match TallyInOrder(votes, c.QuorumSize(), ORDER)
            case Some(v) => exists q :: q <= votes.Keys && Enabled(c, run[i], PhaseRnd1(n, p, q, Some(v)))
            case None => |votes| >= c.QuorumSize() ==> Enabled(c, run[i], PhaseRnd1(n, p, votes.Keys, None))
  {
    var s := run[i];
    RunInv(c, run, i);
    assert votes.Keys <= c.nodes by {
      assert forall m | m in votes :: (m, p, votes[m]) in s.vote1;
    }
    assert AllCast1(s, votes.Keys, p) by {
      forall m | m in votes
        ensures Cast1(s, m, p)
      {
        assert (m, p, votes[m]) in s.vote1;
      }
    }
    match TallyInOrder(votes, c.QuorumSize(), ORDER) {
      case Some(v) =>
        TallyIffMajority(c, votes, ORDER, v);
        var q :| c.IsMajority(q) && AllRecorded(votes, q, v);
        assert Enabled(c, s, PhaseRnd1(n, p, q, Some(v)));
      case None =>
        if |votes| >= c.QuorumSize() {
          NoTallyNoAgreement(c, s, p, votes);
        }
    }
  }

  lemma NoTallyNoAgreement(c: ClusterConfig, s: State, p: Phase, votes: Votes)
    requires Inv(c, s) && Recorded1(s, p, votes) && votes.Keys <= c.nodes
    requires |votes| >= c.QuorumSize() && TallyInOrder(votes, c.QuorumSize(), ORDER) == None
    ensures forall v :: !AllVoted1(s, votes.Keys, p, v)
  {
    forall v
      ensures !AllVoted1(s, votes.Keys, p, v)
    {
      if AllVoted1(s, votes.Keys, p, v) {
        forall m | m in votes
          ensures votes[m] == v
        {
          assert (m, p, votes[m]) in s.vote1 && (m, p, v) in s.vote1;
        }
        assert c.IsMajority(votes.Keys);
        assert MajorityRecorded(c, votes, v) && v in ORDER;
        TallyIffMajority(c, votes, ORDER, v);
      }
    }
  }

  /** A decided round-2 tally binds the whole run: it agrees with every other decided
      round-2 tally, taken by any node in any phase at any moment, and with every
      decision; and it locks every later phase. */
  lemma Round2TallyIsBinding(c: ClusterConfig, run: seq<State>, i: nat, j: nat,
                             p: Phase, votes: Votes, v: StateValue)
    requires IsRun(c, run) && i < |run| && j < |run|
    requires Recorded2(run[i], p, votes) && v != VQuestion
    requires TallyInOrder(votes, c.QuorumSize(), ORDER) == Some(v)
    ensures forall p': Phase, votes' :: Recorded2(run[j], p', votes') ==>
                                          TallyInOrder(votes', c.QuorumSize(), ORDER) in {None, Some(VQuestion), Some(v)}
    ensures forall n, p', w :: (n, p', w) in run[j].decision ==> w == v
    ensures forall p': Phase :: p < p' ==> Locked(run[j], p', v)
  {
    var last := |run| - 1;
    RunGrows(c, run, i, last);
    RunGrows(c, run, j, last);
    RunInv(c, run, last);
    TallyIsBacked(c, run[last], p, votes, v);
    forall p': Phase, votes' | Recorded2(run[j], p', votes')
      ensures TallyInOrder(votes', c.QuorumSize(), ORDER) in {None, Some(VQuestion), Some(v)}
    {
      var t := TallyInOrder(votes', c.QuorumSize(), ORDER);
      if t.Some? && t.value != VQuestion {
        assert Recorded2(run[last], p', votes');
        TallyIsBacked(c, run[last], p', votes', t.value);
        if p <= p' {
          BackedAgree(c, run[last], p, v, p', t.value);
        } else {
          BackedAgree(c, run[last], p', t.value, p, v);
        }
      }
    }
    forall n: NodeId, p': Phase, w | (n, p', w) in run[j].decision
      ensures w == v
    {
      DecisionIsBacked(c, run[last], n, p', w);
      if p <= p' {
        BackedAgree(c, run[last], p, v, p', w);
      } else {
        BackedAgree(c, run[last], p', w, p, v);
      }
    }
    forall p': Phase | p < p'
      ensures Locked(run[j], p', v)
    {
      BackedLocksLater(c, run[last], p, v, p');
    }
  }

  lemma TallyIsBacked(c: ClusterConfig, s: State, p: Phase, votes: Votes, v: StateValue)
    requires Inv(c, s) && Recorded2(s, p, votes)
    requires TallyInOrder(votes, c.QuorumSize(), ORDER) == Some(v)
    ensures c.nodes != {} && FPlusOneBacks(c, s, p, v)
  {
    assert votes.Keys <= c.nodes by {
      assert forall m | m in votes :: (m, p, votes[m]) in s.vote2;
    }
    TallyIffMajority(c, votes, ORDER, v);
    var q :| c.IsMajority(q) && AllRecorded(votes, q, v);
    MajorityNonEmpty(c, q);
    assert c.IsFPlusOne(q) && AllVoted2(s, q, p, v);
  }
}

/** What a replica of a cluster keeps, tells and brings back: which steps move which part
    of it, what a restart restores, and that what it tells others about itself was true. */
module SyncRestore {
  import opened Types
  import opened Replica
  import opened SyncNetwork

  /** Saving and restarting brings back both counters and the state machine. */
  lemma SaveRestores(s: Replica.State)
    ensures Initialize(Created(Save(s).saved)) == s.(saved := Save(s).saved, responses := map[])
  {
  }

  // ---- Which steps move what ----

  /** Step `i` decides at replica `n`: the whole batch is taken, in a phase the replica has
      reached and not yet committed. */
  ghost predicate Commits(run: seq<Cluster>, steps: seq<Step>, i: nat, n: NodeId)
    requires i < |steps| && i < |run|
  {
    && n in run[i].replicas && steps[i].Decide? && steps[i].n == n
    && steps[i].d.value == V1 && steps[i].d.batch.Some?
    && |steps[i].d.batch.value| <= steps[i].accepts
    && run[i].replicas[n].committed < steps[i].d.phase <= run[i].replicas[n].current
  }

  /** The committed phase moves only by a decision, to its phase, or by a restart; in
      particular no sync moves it. The current phase moves only by an advance, by one, by a
      sync or by a restart. */
  lemma CountersMoveOnlyBy(quorumSize: nat, run: seq<Cluster>, steps: seq<Step>, i: nat, n: NodeId)
    requires IsRun(quorumSize, run, steps) && i < |steps| && n in run[i].replicas && steps[i] != Restart(n)
    ensures n in run[i + 1].replicas
    ensures run[i + 1].replicas[n].committed ==
            if Commits(run, steps, i, n) then steps[i].d.phase else run[i].replicas[n].committed
    ensures run[i + 1].replicas[n].current != run[i].replicas[n].current ==>
              || (steps[i] == Advance(n) && run[i + 1].replicas[n].current == run[i].replicas[n].current + 1)
              || (steps[i].TakeResponse? && steps[i].n == n)
    ensures steps[i] == Advance(n) ==> run[i + 1].replicas[n].current == run[i].replicas[n].current + 1
  {
    assert run[i + 1] == Apply(quorumSize, run[i], steps[i]);
  }

  /** Responses are gathered up to the quorum and then forgotten. */
  lemma {:induction false} ResponsesBelowQuorum(quorumSize: nat, run: seq<Cluster>, steps: seq<Step>, i: nat, n: NodeId)
    requires IsRun(quorumSize, run, steps) && i < |run| && n in run[i].replicas
    ensures run[i].replicas[n].responses == map[] || |run[i].replicas[n].responses| < quorumSize
  {
    if i > 0 {
      ResponsesBelowQuorum(quorumSize, run, steps, i - 1, n);
      assert run[i - 1 + 1] == Apply(quorumSize, run[i - 1], steps[i - 1]);
    }
  }

  // ---- What a restart brings back ----

  /** Step `i` commits at replica `n` and saving works. */
  ghost predicate SavesAt(run: seq<Cluster>, steps: seq<Step>, i: nat, n: NodeId)
    requires i < |steps| && i < |run|
  {
    Commits(run, steps, i, n) && steps[i].saveOk
  }

  /** The state of `n` when it last saved during the first `i` steps. */
  ghost function LastSaved(run: seq<Cluster>, steps: seq<Step>, i: nat, n: NodeId): Option<Replica.State>
    requires i <= |steps| < |run|
  {
    if i == 0 then None
    else if SavesAt(run, steps, i - 1, n) && n in run[i].replicas then Some(run[i].replicas[n])
    else LastSaved(run, steps, i - 1, n)
  }

  lemma StepSaves(quorumSize: nat, run: seq<Cluster>, steps: seq<Step>, i: nat, n: NodeId)
    requires IsRun(quorumSize, run, steps) && i < |steps| && n in run[i].replicas
    ensures n in run[i + 1].replicas
    ensures var r := run[i + 1].replicas[n];
            r.saved == if SavesAt(run, steps, i, n) then Some(Saved(r.current, r.committed, Some(r.machine)))
                       else run[i].replicas[n].saved
  {
    assert run[i + 1] == Apply(quorumSize, run[i], steps[i]);
  }

  lemma {:induction false} SavedIsLast(quorumSize: nat, run: seq<Cluster>, steps: seq<Step>, i: nat, n: NodeId)
    requires IsRun(quorumSize, run, steps) && i <= |steps| && n in run[0].replicas
    ensures n in run[i].replicas
    ensures run[i].replicas[n].saved ==
            match LastSaved(run, steps, i, n)
            case Some(r) => Some(Saved(r.current, r.committed, Some(r.machine)))
            case None => run[0].replicas[n].saved
  {
    if i > 0 {
      SavedIsLast(quorumSize, run, steps, i - 1, n);
      StepSaves(quorumSize, run, steps, i - 1, n);
    }
  }

  lemma RestartLoads(quorumSize: nat, run: seq<Cluster>, steps: seq<Step>, i: nat, n: NodeId)
    requires IsRun(quorumSize, run, steps) && i < |steps| && n in run[i].replicas && steps[i] == Restart(n)
    ensures n in run[i + 1].replicas
    ensures var r := run[i + 1].replicas[n];
            && r.responses == map[] && r.saved == run[i].replicas[n].saved
            && match r.saved
               case Some(d) =>
                 && r.current == d.current && r.committed == d.committed
                 && (d.snapshot.Some? ==> r.machine == d.snapshot.value)
               case None => r.current == 0 && r.committed == 0 && r.machine == []
  {
    assert run[i + 1] == Apply(quorumSize, run[i], steps[i]);
  }

  /** In a run that starts with nothing saved, a restart puts a replica back in the phase,
      the committed phase and the machine it held when it last saved, or at the beginning. */
  lemma RestartRestores(quorumSize: nat, run: seq<Cluster>, steps: seq<Step>, i: nat, n: NodeId)
    requires IsRun(quorumSize, run, steps) && i < |steps| && n in run[0].replicas && run[0].replicas[n].saved == None
    requires steps[i] == Restart(n)
    ensures n in run[i + 1].replicas
    ensures var r := run[i + 1].replicas[n];
            && r.responses == map[]
            && match LastSaved(run, steps, i, n)
               case Some(was) => r.current == was.current && r.committed == was.committed && r.machine == was.machine
               case None => r.current == 0 && r.committed == 0 && r.machine == []
  {
    SavedIsLast(quorumSize, run, steps, i, n);
    RestartLoads(quorumSize, run, steps, i, n);
  }

  // ---- What a replica tells about itself ----

  /** At some moment before `i` replica `n` had these counters. */
  ghost predicate Was(run: seq<Cluster>, i: nat, n: NodeId, current: Phase, committed: Phase)
    requires i < |run|
  {
    exists j: nat :: j < i && n in run[j].replicas && run[j].replicas[n].current == current
                     && run[j].replicas[n].committed == committed
  }

  ghost predicate WasIn(run: seq<Cluster>, i: nat, n: NodeId, current: Phase)
    requires i < |run|
  {
    exists j: nat :: j < i && n in run[j].replicas && run[j].replicas[n].current == current
  }

  ghost predicate Truthful(run: seq<Cluster>, i: nat, k: Packet)
    requires i < |run|
  {
    match k.payload
    case Beat(b) => Was(run, i, k.from, b.current, b.committed)
    case Request(r) => WasIn(run, i, k.from, r.requesterPhase)
    case Response(r) => WasIn(run, i, k.from, r.responderPhase)
  }

  lemma NewPacketTruthful(quorumSize: nat, run: seq<Cluster>, steps: seq<Step>, i: nat, k: Packet)
    requires IsRun(quorumSize, run, steps) && i < |steps| && k in Emitted(run[i].replicas[steps[i].n], steps[i])
    ensures Truthful(run, i + 1, k)
  {
    var r := run[i].replicas[steps[i].n];
    match k.payload {
      case Beat(b) => assert b == BeatOf(r);
      case Request(q) => assert q.requesterPhase == r.current;
      case Response(a) => assert a.responderPhase == r.current;
    }
  }

  lemma TruthfulLater(run: seq<Cluster>, i: nat, k: Packet)
    requires i + 1 < |run| && Truthful(run, i, k)
    ensures Truthful(run, i + 1, k)
  {
    match k.payload {
      case Beat(b) =>
        var j: nat :| j < i && k.from in run[j].replicas && run[j].replicas[k.from].current == b.current
                      && run[j].replicas[k.from].committed == b.committed;
        assert j < i + 1;
      case Request(q) =>
        var j: nat :| j < i && k.from in run[j].replicas && run[j].replicas[k.from].current == q.requesterPhase;
        assert j < i + 1;
      case Response(a) =>
        var j: nat :| j < i && k.from in run[j].replicas && run[j].replicas[k.from].current == a.responderPhase;
        assert j < i + 1;
    }
  }

  /** Every heartbeat carries counters its sender had, every request and every response a
      phase its sender was in. */
  lemma {:induction false} PacketsAreTruthful(quorumSize: nat, run: seq<Cluster>, steps: seq<Step>, i: nat, k: Packet)
    requires IsRun(quorumSize, run, steps) && i < |run| && k in run[i].sent
    ensures Truthful(run, i, k)
  {
    assert i > 0;
    assert run[i - 1 + 1] == Apply(quorumSize, run[i - 1], steps[i - 1]);
    if k in run[i - 1].sent {
      PacketsAreTruthful(quorumSize, run, steps, i - 1, k);
      TruthfulLater(run, i - 1, k);
    } else {
      NewPacketTruthful(quorumSize, run, steps, i - 1, k);
    }
  }

  /** A heartbeat goes to every peer and tells both counters; it is accepted exactly if the
      committed one does not exceed the other, which every replica of a run makes sure of. */
  lemma BeatsReachPeers(quorumSize: nat, run: seq<Cluster>, steps: seq<Step>, i: nat,
                        n: NodeId, peers: set<NodeId>, m: NodeId)
    requires IsRun(quorumSize, run, steps) && i < |steps| && steps[i] == SendBeat(n, peers) && m in peers
    ensures n in run[i].replicas
    ensures Packet(n, m, Beat(Heartbeat(run[i].replicas[n].current, run[i].replicas[n].committed))) in run[i + 1].sent
    ensures HeartbeatAccepted(Heartbeat(run[i].replicas[n].current, run[i].replicas[n].committed))
  {
    CountersStayOrdered(quorumSize, run, steps, i);
    assert run[i + 1] == Apply(quorumSize, run[i], steps[i]);
  }

  lemma AcceptedIffOrdered(current: Phase, committed: Phase)
    ensures HeartbeatAccepted(Heartbeat(current, committed)) <==> committed <= current
  {
  }
}

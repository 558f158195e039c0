/** Replicas exchanging sync requests, sync responses and heartbeats over a network
    that may delay, lose, duplicate and reorder: a packet once sent may be delivered
    at any later time, any number of times. Replicas may also crash and restart from
    what they saved. */
module SyncNetwork {
  import opened Types
  import opened Replica

  datatype Payload = Request(request: SyncRequest) | Response(response: SyncResponse) | Beat(beat: Heartbeat)
  datatype Packet = Packet(from: NodeId, to: NodeId, payload: Payload)

  datatype Cluster = Cluster(replicas: map<NodeId, Replica.State>, sent: set<Packet>)

  datatype Step =
    | Advance(n: NodeId)
    | Decide(n: NodeId, d: Decision, accepts: nat, saveOk: bool)
    | InitiateSync(n: NodeId, peers: set<NodeId>)
    | AnswerRequest(n: NodeId, from: NodeId, request: SyncRequest)
    | TakeResponse(n: NodeId, from: NodeId, response: SyncResponse, latest: NodeId)
    | SendBeat(n: NodeId, peers: set<NodeId>)
    | Restart(n: NodeId)

  predicate Enabled(quorumSize: nat, s: Cluster, step: Step) {
    && step.n in s.replicas
    && match step {
         case AnswerRequest(n, from, r) => Packet(from, n, Request(r)) in s.sent
         case TakeResponse(n, from, r, latest) =>
           && Packet(from, n, Response(r)) in s.sent
           && var stored := StoreResponse(s.replicas[n], from, r).responses;
              |stored| >= quorumSize ==> IsLatest(stored, latest)
         case _ => true
       }
  }

  function Local(s: Replica.State, quorumSize: nat, step: Step): Replica.State
    requires step.TakeResponse? ==>
               |StoreResponse(s, step.from, step.response).responses| >= quorumSize ==>
                 step.latest in StoreResponse(s, step.from, step.response).responses
  {
    match step
    case Advance(_) => s.(current := s.current + 1)
    case Decide(_, d, accepts, saveOk) => HandleDecision(s, d, accepts, saveOk).0
    case TakeResponse(_, from, r, latest) =>
      var s1 := StoreResponse(s, from, r);
      if |s1.responses| >= quorumSize then ResolveSync(s1, latest) else s1
    case Restart(_) => Initialize(Created(s.saved))
    case _ => s
  }

  function Emitted(s: Replica.State, step: Step): set<Packet> {
    match step
    case InitiateSync(n, peers) => set m | m in peers && m != n :: Packet(n, m, Request(SyncRequest(s.current)))
    case AnswerRequest(n, from, r) => {Packet(n, from, Response(HandleSyncRequest(s, r)))}
    case SendBeat(n, peers) => set m | m in peers :: Packet(n, m, Beat(BeatOf(s)))
    case _ => {}
  }

  function Apply(quorumSize: nat, s: Cluster, step: Step): Cluster
    requires Enabled(quorumSize, s, step)
  {
    var replica := s.replicas[step.n];
    Cluster(s.replicas[step.n := Local(replica, quorumSize, step)], s.sent + Emitted(replica, step))
  }

  predicate CountersOrdered(r: Replica.State) {
    && r.committed <= r.current
    && (r.saved.Some? ==> r.saved.value.committed <= r.saved.value.current)
  }

  ghost predicate IsRun(quorumSize: nat, run: seq<Cluster>, steps: seq<Step>) {
    && |run| == |steps| + 1
    && run[0].sent == {}
    && (forall n | n in run[0].replicas :: run[0].replicas[n].responses == map[] && CountersOrdered(run[0].replicas[n]))
    && forall i | 0 <= i < |steps| ::
         Enabled(quorumSize, run[i], steps[i]) && run[i + 1] == Apply(quorumSize, run[i], steps[i])
  }

  // ---- Counters ----

  ghost predicate CountersInv(s: Cluster) {
    && (forall n | n in s.replicas :: CountersOrdered(s.replicas[n]))
    && (forall k | k in s.sent && k.payload.Beat? :: HeartbeatAccepted(k.payload.beat))
  }

  lemma LocalKeepsCounters(s: Replica.State, quorumSize: nat, step: Step)
    requires Local.requires(s, quorumSize, step) && CountersOrdered(s)
    ensures CountersOrdered(Local(s, quorumSize, step))
    ensures !step.Restart? ==> s.current <= Local(s, quorumSize, step).current
  {
  }

  lemma StepKeepsCounters(quorumSize: nat, s: Cluster, step: Step)
    requires CountersInv(s) && Enabled(quorumSize, s, step)
    ensures CountersInv(Apply(quorumSize, s, step))
    ensures forall n | n in s.replicas && step != Restart(n) ::
              s.replicas[n].current <= Apply(quorumSize, s, step).replicas[n].current
  {
    LocalKeepsCounters(s.replicas[step.n], quorumSize, step);
  }

  /** In every run, restarts included, each replica's committed phase stays within its
      current phase, and every heartbeat ever sent passes the receiver's check. */
  lemma {:induction false} CountersStayOrdered(quorumSize: nat, run: seq<Cluster>, steps: seq<Step>, i: nat)
    requires IsRun(quorumSize, run, steps) && i < |run|
    ensures CountersInv(run[i])
    ensures forall n | n in run[i].replicas :: run[i].replicas[n].committed <= run[i].replicas[n].current
    ensures forall k | k in run[i].sent && k.payload.Beat? :: k.payload.beat.committed <= k.payload.beat.current
    ensures run[i].replicas.Keys == run[0].replicas.Keys
  {
    if i > 0 {
      CountersStayOrdered(quorumSize, run, steps, i - 1);
      StepKeepsCounters(quorumSize, run[i - 1], steps[i - 1]);
      assert run[i - 1 + 1] == Apply(quorumSize, run[i - 1], steps[i - 1]);
    }
  }

  ghost predicate NoRestart(steps: seq<Step>, i: nat, j: nat, n: NodeId)
    requires i <= j <= |steps|
  {
    forall k | i <= k < j :: steps[k] != Restart(n)
  }

  lemma PhaseGrowsOnce(quorumSize: nat, run: seq<Cluster>, steps: seq<Step>, k: nat, n: NodeId)
    requires IsRun(quorumSize, run, steps) && k < |steps| && n in run[0].replicas && steps[k] != Restart(n)
    ensures PhaseUpOnce(run, k, n)
  {
    CountersStayOrdered(quorumSize, run, steps, k);
    StepKeepsCounters(quorumSize, run[k], steps[k]);
  }

  ghost predicate PhaseUp(run: seq<Cluster>, i: nat, j: nat, n: NodeId)
    requires i < |run| && j < |run|
  {
    n in run[i].replicas && n in run[j].replicas && run[i].replicas[n].current <= run[j].replicas[n].current
  }

  ghost predicate PhaseUpOnce(run: seq<Cluster>, k: nat, n: NodeId)
    requires k + 1 < |run|
  {
    PhaseUp(run, k, k + 1, n)
  }

  lemma {:induction false} PhaseUpChains(run: seq<Cluster>, i: nat, j: nat, n: NodeId)
    requires i <= j < |run| && n in run[i].replicas
    requires forall k | i <= k < j :: PhaseUpOnce(run, k, n)
    ensures PhaseUp(run, i, j, n)
    decreases j
  {
    if i < j {
      PhaseUpChains(run, i, j - 1, n);
      assert PhaseUpOnce(run, j - 1, n);
    }
  }

  /** Between restarts of a replica its current phase never drops. */
  lemma PhaseNeverDrops(quorumSize: nat, run: seq<Cluster>, steps: seq<Step>, i: nat, j: nat, n: NodeId)
    requires IsRun(quorumSize, run, steps) && i <= j < |run| && n in run[0].replicas
    requires NoRestart(steps, i, j, n)
    ensures PhaseUp(run, i, j, n)
  {
    CountersStayOrdered(quorumSize, run, steps, i);
    forall k | i <= k < j
      ensures PhaseUpOnce(run, k, n)
    {
      PhaseGrowsOnce(quorumSize, run, steps, k, n);
    }
    PhaseUpChains(run, i, j, n);
  }

  // ---- Sync ----

  /** At some moment up to `i` replica `m` was in phase `p` with machine state `x`. */
  ghost predicate Held(run: seq<Cluster>, i: nat, m: NodeId, p: Phase, x: Machine)
    requires i < |run|
  {
    exists j: nat :: j <= i && m in run[j].replicas && run[j].replicas[m].current == p && run[j].replicas[m].machine == x
  }

  /** Replica `n` has sent a request from phase `p` or a later one. */
  predicate Asked(sent: set<Packet>, n: NodeId, p: Phase) {
    exists k | k in sent :: k.from == n && k.payload.Request? && k.payload.request.requesterPhase >= p
  }

  /** What a response from `m` means to its addressee `n`: a snapshot is one `m` held, and
      a response without one answers a request of `n` from no earlier phase. */
  ghost predicate Meaningful(run: seq<Cluster>, i: nat, n: NodeId, m: NodeId, r: SyncResponse)
    requires i < |run|
  {
    match r.snapshot
    case Some(x) => Held(run, i, m, r.responderPhase, x)
    case None => Asked(run[i].sent, n, r.responderPhase)
  }

  ghost predicate ResponsesMeaningful(run: seq<Cluster>, i: nat, n: NodeId)
    requires i < |run|
  {
    && n in run[i].replicas
    && (forall k | k in run[i].sent && k.to == n && k.payload.Response? ::
          Meaningful(run, i, n, k.from, k.payload.response))
    && (forall m | m in run[i].replicas[n].responses :: Meaningful(run, i, n, m, run[i].replicas[n].responses[m]))
  }

  lemma MeaningfulLater(run: seq<Cluster>, i: nat, n: NodeId, m: NodeId, r: SyncResponse)
    requires i + 1 < |run| && run[i].sent <= run[i + 1].sent
    requires Meaningful(run, i, n, m, r)
    ensures Meaningful(run, i + 1, n, m, r)
  {
  }

  lemma AnswerIsMeaningful(run: seq<Cluster>, i: nat, n: NodeId, m: NodeId, request: SyncRequest)
    requires i < |run| && m in run[i].replicas
    requires Packet(n, m, Request(request)) in run[i].sent
    ensures Meaningful(run, i, n, m, HandleSyncRequest(run[i].replicas[m], request))
  {
  }

  lemma ResponsesComeFromNetwork(quorumSize: nat, s: Cluster, step: Step, n: NodeId, m: NodeId)
    requires Enabled(quorumSize, s, step) && n in s.replicas
    requires m in Apply(quorumSize, s, step).replicas[n].responses
    ensures var r := Apply(quorumSize, s, step).replicas[n].responses[m];
            || (m in s.replicas[n].responses && s.replicas[n].responses[m] == r)
            || Packet(m, n, Response(r)) in s.sent
  {
  }

  lemma StepKeepsMeaning(quorumSize: nat, run: seq<Cluster>, steps: seq<Step>, i: nat, n: NodeId)
    requires IsRun(quorumSize, run, steps) && i < |steps| && ResponsesMeaningful(run, i, n)
    ensures ResponsesMeaningful(run, i + 1, n)
  {
    var s, s', step := run[i], run[i + 1], steps[i];
    assert s' == Apply(quorumSize, s, step);
    forall k | k in s'.sent && k.to == n && k.payload.Response?
      ensures Meaningful(run, i + 1, n, k.from, k.payload.response)
    {
      if k !in s.sent {
        assert k == Packet(step.n, n, Response(HandleSyncRequest(s.replicas[step.n], step.request)));
        AnswerIsMeaningful(run, i, n, step.n, step.request);
      }
      MeaningfulLater(run, i, n, k.from, k.payload.response);
    }
    forall m | m in s'.replicas[n].responses
      ensures Meaningful(run, i + 1, n, m, s'.replicas[n].responses[m])
    {
      var r := s'.replicas[n].responses[m];
      ResponsesComeFromNetwork(quorumSize, s, step, n, m);
      assert Meaningful(run, i, n, m, r);
      MeaningfulLater(run, i, n, m, r);
    }
  }

  /** Whatever restarts, responses keep their meaning. */
  lemma {:induction false} ResponsesStayMeaningful(quorumSize: nat, run: seq<Cluster>, steps: seq<Step>, i: nat, n: NodeId)
    requires IsRun(quorumSize, run, steps) && i < |run| && n in run[0].replicas
    ensures ResponsesMeaningful(run, i, n)
  {
    if i > 0 {
      ResponsesStayMeaningful(quorumSize, run, steps, i - 1, n);
      StepKeepsMeaning(quorumSize, run, steps, i - 1, n);
    }
  }

  /** Replica `n` is at least in the phase of every request it has sent. */
  ghost predicate CaughtUp(s: Cluster, n: NodeId) {
    && n in s.replicas
    && forall k | k in s.sent && k.from == n && k.payload.Request? ::
         k.payload.request.requesterPhase <= s.replicas[n].current
  }

  /** Every restart of `n` during the first `i` steps restores a phase at least that of
      every request `n` had sent. */
  ghost predicate RestartsCaughtUp(run: seq<Cluster>, steps: seq<Step>, i: nat, n: NodeId)
    requires i <= |steps| < |run|
  {
    forall k | 0 <= k < i && steps[k] == Restart(n) :: CaughtUp(run[k + 1], n)
  }

  lemma {:induction false} StaysCaughtUp(quorumSize: nat, run: seq<Cluster>, steps: seq<Step>, i: nat, n: NodeId)
    requires IsRun(quorumSize, run, steps) && i <= |steps| && n in run[0].replicas
    requires RestartsCaughtUp(run, steps, i, n)
    ensures CaughtUp(run[i], n)
  {
    if i > 0 {
      StaysCaughtUp(quorumSize, run, steps, i - 1, n);
      assert run[i - 1 + 1] == Apply(quorumSize, run[i - 1], steps[i - 1]);
      if steps[i - 1] != Restart(n) {
        CountersStayOrdered(quorumSize, run, steps, i - 1);
        StepKeepsCounters(quorumSize, run[i - 1], steps[i - 1]);
      }
    }
  }

  /** The response by which step `i` resolves a sync of replica `n`. */
  function Chosen(run: seq<Cluster>, steps: seq<Step>, i: nat, n: NodeId): SyncResponse
    requires i < |steps| && i < |run| && n in run[i].replicas && steps[i].TakeResponse?
    requires steps[i].latest in StoreResponse(run[i].replicas[n], steps[i].from, steps[i].response).responses
  {
    StoreResponse(run[i].replicas[n], steps[i].from, steps[i].response).responses[steps[i].latest]
  }

  /** Step `i` is a sync of replica `n` that changes its phase. */
  ghost predicate Syncs(run: seq<Cluster>, steps: seq<Step>, i: nat, n: NodeId)
    requires i < |steps| < |run|
  {
    && n in run[i].replicas && n in run[i + 1].replicas
    && steps[i].TakeResponse? && steps[i].n == n
    && run[i + 1].replicas[n].current != run[i].replicas[n].current
  }

  /** A sync that changes the phase raises it to that of the chosen response. */
  lemma SyncRaises(quorumSize: nat, run: seq<Cluster>, steps: seq<Step>, i: nat, n: NodeId)
    requires IsRun(quorumSize, run, steps) && i < |steps| && Syncs(run, steps, i, n)
    ensures steps[i].latest in StoreResponse(run[i].replicas[n], steps[i].from, steps[i].response).responses
    ensures var r := Chosen(run, steps, i, n);
            && run[i].replicas[n].current < run[i + 1].replicas[n].current == r.responderPhase
            && (r.snapshot.Some? ==> run[i + 1].replicas[n].machine == r.snapshot.value)
            && (r.snapshot.None? ==> run[i + 1].replicas[n].machine == run[i].replicas[n].machine)
  {
    assert run[i + 1] == Apply(quorumSize, run[i], steps[i]);
  }

  lemma ChosenIsMeaningful(quorumSize: nat, run: seq<Cluster>, steps: seq<Step>, i: nat, n: NodeId)
    requires IsRun(quorumSize, run, steps) && i < |steps| && n in run[0].replicas && Syncs(run, steps, i, n)
    requires steps[i].latest in StoreResponse(run[i].replicas[n], steps[i].from, steps[i].response).responses
    ensures Meaningful(run, i, n, steps[i].latest, Chosen(run, steps, i, n))
  {
    ResponsesStayMeaningful(quorumSize, run, steps, i, n);
    assert Packet(steps[i].from, n, Response(steps[i].response)) in run[i].sent;
  }

  /** Whatever restarts: if the chosen response carries a snapshot, the replica's new phase
      and machine are a pair the responder really held. */
  lemma SnapshotsAreHeld(quorumSize: nat, run: seq<Cluster>, steps: seq<Step>, i: nat, n: NodeId)
    requires IsRun(quorumSize, run, steps) && i < |steps| && n in run[0].replicas && Syncs(run, steps, i, n)
    ensures steps[i].latest in StoreResponse(run[i].replicas[n], steps[i].from, steps[i].response).responses
    ensures Chosen(run, steps, i, n).snapshot.Some? ==>
              Held(run, i, steps[i].latest, run[i + 1].replicas[n].current, run[i + 1].replicas[n].machine)
  {
    SyncRaises(quorumSize, run, steps, i, n);
    ChosenIsMeaningful(quorumSize, run, steps, i, n);
  }

  /** Sync safety: when a sync changes a replica's phase, the response it chose carried a
      snapshot, and the replica's new phase and machine are a pair the responder really
      held, provided each restart of that replica restored a phase at least that of its
      requests. Other replicas may restart as they like. */
  lemma SyncIsSafe(quorumSize: nat, run: seq<Cluster>, steps: seq<Step>, i: nat, n: NodeId)
    requires IsRun(quorumSize, run, steps) && i < |steps| && n in run[0].replicas && Syncs(run, steps, i, n)
    requires RestartsCaughtUp(run, steps, i, n)
    ensures run[i + 1].replicas[n].current > run[i].replicas[n].current
    ensures steps[i].latest in StoreResponse(run[i].replicas[n], steps[i].from, steps[i].response).responses
    ensures Chosen(run, steps, i, n).snapshot == Some(run[i + 1].replicas[n].machine)
    ensures Held(run, i, steps[i].latest, run[i + 1].replicas[n].current, run[i + 1].replicas[n].machine)
  {
    SyncRaises(quorumSize, run, steps, i, n);
    ChosenIsMeaningful(quorumSize, run, steps, i, n);
    StaysCaughtUp(quorumSize, run, steps, i, n);
  }
}

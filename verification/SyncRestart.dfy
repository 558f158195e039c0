/** When a restart endangers synchronisation: a replica that restarts in an earlier phase
    may take the answer to a request from its former life, which carries no snapshot, for a
    reason to move on. Exactly when that can happen is told from the cluster's state. */
module SyncRestart {
  import opened Types
  import opened Quorum
  import opened Replica
  import opened SyncNetwork

  /** Some request of `n` to `m`, from phase `p` or a later one, can still arrive. */
  predicate AskedOf(sent: set<Packet>, n: NodeId, m: NodeId, p: Phase) {
    exists k | k in sent :: k.from == n && k.to == m && k.payload.Request? && k.payload.request.requesterPhase >= p
  }

  /** A response for phase `p` without a snapshot is under way to `n`, or a replica not
      beyond `p` can still answer a request of `n` from `p` or later. */
  ghost predicate CanMislead(s: Cluster, n: NodeId, p: Phase, m: NodeId) {
    || (m in s.replicas && s.replicas[m].current <= p && AskedOf(s.sent, n, m, p))
    || Packet(m, n, Response(SyncResponse(p, None))) in s.sent
  }

  /** The replicas from which `n` can have a response for a phase up to `p`. */
  function Answerers(s: Cluster, n: NodeId, p: Phase): set<NodeId> {
    (set m | m in s.replicas && m != n && s.replicas[m].current <= p)
    + (set k | k in s.sent && k.to == n && k.payload.Response? && k.payload.response.responderPhase <= p :: k.from)
  }

  /** Replica `n` is behind some phase `p` for which it can be given a response without a
      snapshot, and a quorum can answer without going beyond `p`. */
  ghost predicate Endangered(quorumSize: nat, s: Cluster, n: NodeId)
    requires n in s.replicas
  {
    exists p: Phase, m: NodeId :: p > s.replicas[n].current && CanMislead(s, n, p, m) && |Answerers(s, n, p)| >= quorumSize
  }

  // ---- Continuations of a run ----

  /** `run'` goes on from `run`, without further restarts. */
  ghost predicate Continues(quorumSize: nat, run: seq<Cluster>, steps: seq<Step>, run': seq<Cluster>, steps': seq<Step>) {
    && IsRun(quorumSize, run', steps')
    && |run| == |steps| + 1 && |steps| <= |steps'|
    && run <= run' && steps <= steps'
    && forall i | |steps| <= i < |steps'| :: !steps'[i].Restart?
  }

  /** Step `j` of the continuation moves `n` to another phase without a snapshot. */
  ghost predicate Misleads(quorumSize: nat, run: seq<Cluster>, steps: seq<Step>, run': seq<Cluster>, steps': seq<Step>,
                           j: nat, n: NodeId) {
    && Continues(quorumSize, run, steps, run', steps')
    && |steps| <= j < |steps'|
    && Syncs(run', steps', j, n)
    && steps'[j].latest in StoreResponse(run'[j].replicas[n], steps'[j].from, steps'[j].response).responses
    && Chosen(run', steps', j, n).snapshot == None
  }

  // ---- Without the danger nothing happens ----

  ghost predicate NoSelfRequests(s: Cluster) {
    forall k | k in s.sent && k.payload.Request? :: k.from != k.to
  }

  lemma {:induction false} RequestsGoToOthers(quorumSize: nat, run: seq<Cluster>, steps: seq<Step>, i: nat)
    requires IsRun(quorumSize, run, steps) && i < |run|
    ensures NoSelfRequests(run[i])
  {
    if i > 0 {
      RequestsGoToOthers(quorumSize, run, steps, i - 1);
      assert run[i - 1 + 1] == Apply(quorumSize, run[i - 1], steps[i - 1]);
    }
  }

  /** A response that reached the network since `s0` comes from another replica, for a
      phase it had not passed in `s0`, and without a snapshot answers a late request. */
  ghost predicate NewResponse(s0: Cluster, s: Cluster, n: NodeId, k: Packet)
    requires k.payload.Response?
  {
    && k.from in s0.replicas && k.from != n
    && s0.replicas[k.from].current <= k.payload.response.responderPhase
    && (k.payload.response.snapshot.None? ==> AskedOf(s.sent, n, k.from, k.payload.response.responderPhase))
  }

  /** What has become of `s0` when no replica restarted and `n` held no responses then. */
  ghost predicate Since(s0: Cluster, s: Cluster, n: NodeId) {
    && n in s.replicas && s.replicas.Keys == s0.replicas.Keys && s0.sent <= s.sent
    && (forall m | m in s0.replicas :: s0.replicas[m].current <= s.replicas[m].current)
    && (forall k | k in s.sent && k.to == n && k.payload.Response? :: k in s0.sent || NewResponse(s0, s, n, k))
    && (forall m | m in s.replicas[n].responses :: Packet(m, n, Response(s.replicas[n].responses[m])) in s.sent)
    && (forall k | k in s.sent && k.from == n && k.payload.Request? ::
          k in s0.sent || k.payload.request.requesterPhase <= s.replicas[n].current)
  }

  lemma NewResponseLater(s0: Cluster, s: Cluster, s': Cluster, n: NodeId, k: Packet)
    requires k.payload.Response? && NewResponse(s0, s, n, k) && s.sent <= s'.sent
    ensures NewResponse(s0, s', n, k)
  {
  }

  lemma AnswerIsNewResponse(s0: Cluster, s: Cluster, n: NodeId, m: NodeId, request: SyncRequest)
    requires Since(s0, s, n) && NoSelfRequests(s) && m in s.replicas && Packet(n, m, Request(request)) in s.sent
    ensures NewResponse(s0, s, n, Packet(m, n, Response(HandleSyncRequest(s.replicas[m], request))))
  {
  }

  lemma StepKeepsSince(quorumSize: nat, s0: Cluster, s: Cluster, step: Step, n: NodeId)
    requires Since(s0, s, n) && NoSelfRequests(s) && Enabled(quorumSize, s, step) && !step.Restart?
    ensures Since(s0, Apply(quorumSize, s, step), n)
  {
    var s' := Apply(quorumSize, s, step);
    LocalKeepsPhase(s.replicas[step.n], quorumSize, step);
    forall k | k in s'.sent && k.to == n && k.payload.Response?
      ensures k in s0.sent || NewResponse(s0, s', n, k)
    {
      if k !in s.sent {
        assert k == Packet(step.n, n, Response(HandleSyncRequest(s.replicas[step.n], step.request)));
        AnswerIsNewResponse(s0, s, n, step.n, step.request);
      }
      if k !in s0.sent {
        NewResponseLater(s0, s, s', n, k);
      }
    }
    forall m | m in s'.replicas[n].responses
      ensures Packet(m, n, Response(s'.replicas[n].responses[m])) in s'.sent
    {
      ResponsesComeFromNetwork(quorumSize, s, step, n, m);
    }
  }

  lemma LocalKeepsPhase(r: Replica.State, quorumSize: nat, step: Step)
    requires Local.requires(r, quorumSize, step) && !step.Restart?
    ensures r.current <= Local(r, quorumSize, step).current
  {
  }

  lemma {:induction false} SinceHolds(quorumSize: nat, run: seq<Cluster>, steps: seq<Step>,
                                      run': seq<Cluster>, steps': seq<Step>, i: nat, n: NodeId)
    requires Continues(quorumSize, run, steps, run', steps') && |steps| <= i <= |steps'|
    requires n in run[|steps|].replicas && run[|steps|].replicas[n].responses == map[]
    ensures Since(run[|steps|], run'[i], n)
    decreases i
  {
    if i == |steps| {
      assert run'[i] == run[i];
    } else {
      SinceHolds(quorumSize, run, steps, run', steps', i - 1, n);
      RequestsGoToOthers(quorumSize, run', steps', i - 1);
      StepKeepsSince(quorumSize, run[|steps|], run'[i - 1], steps'[i - 1], n);
      assert run'[i - 1 + 1] == Apply(quorumSize, run'[i - 1], steps'[i - 1]);
    }
  }

  lemma ChosenCouldMislead(s0: Cluster, s: Cluster, n: NodeId, m: NodeId, p: Phase)
    requires Since(s0, s, n) && p > s.replicas[n].current
    requires Packet(m, n, Response(SyncResponse(p, None))) in s.sent
    ensures CanMislead(s0, n, p, m)
  {
    var k := Packet(m, n, Response(SyncResponse(p, None)));
    if k !in s0.sent {
      assert NewResponse(s0, s, n, k);
      var request :| request in s.sent && request.from == n && request.to == m && request.payload.Request?
                     && request.payload.request.requesterPhase >= p;
      assert request in s0.sent;
    }
  }

  lemma StoredAreAnswerers(s0: Cluster, s: Cluster, n: NodeId, stored: map<NodeId, SyncResponse>, p: Phase)
    requires Since(s0, s, n)
    requires forall m | m in stored :: Packet(m, n, Response(stored[m])) in s.sent && stored[m].responderPhase <= p
    ensures stored.Keys <= Answerers(s0, n, p)
  {
    forall m | m in stored
      ensures m in Answerers(s0, n, p)
    {
      var k := Packet(m, n, Response(stored[m]));
      assert k in s0.sent || NewResponse(s0, s, n, k);
    }
  }

  lemma MisleadingNeedsDanger(quorumSize: nat, run: seq<Cluster>, steps: seq<Step>,
                              run': seq<Cluster>, steps': seq<Step>, j: nat, n: NodeId)
    requires Misleads(quorumSize, run, steps, run', steps', j, n)
    requires n in run[|steps|].replicas && run[|steps|].replicas[n].responses == map[]
    ensures Endangered(quorumSize, run[|steps|], n)
  {
    SinceHolds(quorumSize, run, steps, run', steps', j, n);
    SyncRaises(quorumSize, run', steps', j, n);
    var s0, s, step := run[|steps|], run'[j], steps'[j];
    assert Enabled(quorumSize, s, step) && run'[j + 1] == Apply(quorumSize, s, step);
    var stored := StoreResponse(s.replicas[n], step.from, step.response).responses;
    var p := stored[step.latest].responderPhase;
    assert stored[step.latest] == SyncResponse(p, None);
    ChosenCouldMislead(s0, s, n, step.latest, p);
    StoredAreAnswerers(s0, s, n, stored, p);
    SubsetCard(stored.Keys, Answerers(s0, n, p));
    assert |stored| == |stored.Keys|;
  }

  // ---- With it, it can ----

  lemma Extend(quorumSize: nat, run: seq<Cluster>, steps: seq<Step>, run1: seq<Cluster>, steps1: seq<Step>, step: Step)
    returns (run': seq<Cluster>, steps': seq<Step>)
    requires Continues(quorumSize, run, steps, run1, steps1) && !step.Restart?
    requires Enabled(quorumSize, run1[|steps1|], step)
    ensures Continues(quorumSize, run, steps, run', steps')
    ensures |steps'| == |steps1| + 1 && steps'[|steps1|] == step
    ensures run'[|steps1|] == run1[|steps1|] && run'[|steps1| + 1] == Apply(quorumSize, run1[|steps1|], step)
  {
    run' := run1 + [Apply(quorumSize, run1[|steps1|], step)];
    steps' := steps1 + [step];
  }

  /** `n` has gathered responses for phases up to `p` from the replicas in `from`, and no
      other replica has moved since `s0`. */
  ghost predicate Gathered(s0: Cluster, s: Cluster, n: NodeId, p: Phase, from: set<NodeId>) {
    && n in s0.replicas && n in s.replicas
    && s0.sent <= s.sent
    && s.replicas == s0.replicas[n := s0.replicas[n].(responses := s.replicas[n].responses)]
    && s.replicas[n].responses.Keys == from
    && forall m | m in from :: s.replicas[n].responses[m].responderPhase <= p
  }

  lemma TakeGathers(quorumSize: nat, s0: Cluster, s: Cluster, n: NodeId, p: Phase, from: set<NodeId>,
                    m: NodeId, r: SyncResponse)
    requires Gathered(s0, s, n, p, from) && |from + {m}| < quorumSize
    requires Packet(m, n, Response(r)) in s.sent && r.responderPhase <= p
    ensures Enabled(quorumSize, s, TakeResponse(n, m, r, m))
    ensures Gathered(s0, Apply(quorumSize, s, TakeResponse(n, m, r, m)), n, p, from + {m})
  {
    var stored := StoreResponse(s.replicas[n], m, r).responses;
    assert stored.Keys == from + {m} && |stored| == |stored.Keys|;
  }

  lemma AskingGathersNothing(quorumSize: nat, s0: Cluster, s: Cluster, n: NodeId, p: Phase, from: set<NodeId>, step: Step)
    requires Gathered(s0, s, n, p, from) && Enabled(quorumSize, s, step)
    requires step.InitiateSync? || step.AnswerRequest?
    ensures Gathered(s0, Apply(quorumSize, s, step), n, p, from)
  {
    assert s.replicas[step.n := s.replicas[step.n]] == s.replicas;
  }

  /** Some response of `m` for a phase up to `p` is under way to `n`, or `n` asks for one. */
  lemma Obtain(quorumSize: nat, run: seq<Cluster>, steps: seq<Step>, run1: seq<Cluster>, steps1: seq<Step>,
               n: NodeId, p: Phase, from: set<NodeId>, m: NodeId)
    returns (run': seq<Cluster>, steps': seq<Step>, r: SyncResponse)
    requires Continues(quorumSize, run, steps, run1, steps1)
    requires Gathered(run[|steps|], run1[|steps1|], n, p, from) && m in Answerers(run[|steps|], n, p)
    ensures Continues(quorumSize, run, steps, run', steps') && Gathered(run[|steps|], run'[|steps'|], n, p, from)
    ensures Packet(m, n, Response(r)) in run'[|steps'|].sent && r.responderPhase <= p
  {
    var s0, s := run[|steps|], run1[|steps1|];
    if k :| k in s0.sent && k.to == n && k.payload.Response? && k.payload.response.responderPhase <= p && k.from == m {
      run', steps', r := run1, steps1, k.payload.response;
      assert k == Packet(m, n, Response(r));
    } else {
      var request := SyncRequest(s0.replicas[n].current);
      AskingGathersNothing(quorumSize, s0, s, n, p, from, InitiateSync(n, {m}));
      run', steps' := Extend(quorumSize, run, steps, run1, steps1, InitiateSync(n, {m}));
      assert Packet(n, m, Request(request)) in run'[|steps'|].sent;
      AskingGathersNothing(quorumSize, s0, run'[|steps'|], n, p, from, AnswerRequest(m, n, request));
      r := HandleSyncRequest(s0.replicas[m], request);
      run', steps' := Extend(quorumSize, run, steps, run', steps', AnswerRequest(m, n, request));
    }
  }

  lemma GatherOne(quorumSize: nat, run: seq<Cluster>, steps: seq<Step>, run1: seq<Cluster>, steps1: seq<Step>,
                  n: NodeId, p: Phase, from: set<NodeId>, m: NodeId)
    returns (run': seq<Cluster>, steps': seq<Step>)
    requires Continues(quorumSize, run, steps, run1, steps1)
    requires Gathered(run[|steps|], run1[|steps1|], n, p, from) && |from + {m}| < quorumSize
    requires m in Answerers(run[|steps|], n, p)
    ensures Continues(quorumSize, run, steps, run', steps')
    ensures Gathered(run[|steps|], run'[|steps'|], n, p, from + {m})
  {
    var r;
    run', steps', r := Obtain(quorumSize, run, steps, run1, steps1, n, p, from, m);
    TakeGathers(quorumSize, run[|steps|], run'[|steps'|], n, p, from, m, r);
    run', steps' := Extend(quorumSize, run, steps, run', steps', TakeResponse(n, m, r, m));
  }

  lemma {:induction false} GatherAll(quorumSize: nat, run: seq<Cluster>, steps: seq<Step>,
                                     n: NodeId, p: Phase, from: set<NodeId>)
    returns (run': seq<Cluster>, steps': seq<Step>)
    requires IsRun(quorumSize, run, steps)
    requires n in run[|steps|].replicas && run[|steps|].replicas[n].responses == map[]
    requires from <= Answerers(run[|steps|], n, p) && (from == {} || |from| < quorumSize)
    ensures Continues(quorumSize, run, steps, run', steps')
    ensures Gathered(run[|steps|], run'[|steps'|], n, p, from)
    decreases |from|
  {
    if from == {} {
      run', steps' := run, steps;
    } else {
      var m :| m in from;
      run', steps' := GatherAll(quorumSize, run, steps, n, p, from - {m});
      assert from - {m} + {m} == from;
      run', steps' := GatherOne(quorumSize, run, steps, run', steps', n, p, from - {m}, m);
    }
  }

  /** Replica `m` can go on to phase `p` by itself. */
  lemma {:induction false} AdvanceTo(quorumSize: nat, run: seq<Cluster>, steps: seq<Step>, run1: seq<Cluster>, steps1: seq<Step>,
                                     m: NodeId, p: Phase)
    returns (run': seq<Cluster>, steps': seq<Step>)
    requires Continues(quorumSize, run, steps, run1, steps1)
    requires m in run1[|steps1|].replicas && run1[|steps1|].replicas[m].current <= p
    ensures Continues(quorumSize, run, steps, run', steps')
    ensures run'[|steps'|].sent == run1[|steps1|].sent
    ensures run'[|steps'|].replicas == run1[|steps1|].replicas[m := run1[|steps1|].replicas[m].(current := p)]
    decreases p - run1[|steps1|].replicas[m].current
  {
    run', steps' := run1, steps1;
    if run1[|steps1|].replicas[m].current < p {
      run', steps' := Extend(quorumSize, run, steps, run1, steps1, Advance(m));
      run', steps' := AdvanceTo(quorumSize, run, steps, run', steps', m, p);
    }
  }

  /** The answer that misleads can be brought under way without disturbing `n`. */
  lemma Provoke(quorumSize: nat, run: seq<Cluster>, steps: seq<Step>, run1: seq<Cluster>, steps1: seq<Step>,
                n: NodeId, p: Phase, m: NodeId)
    returns (run': seq<Cluster>, steps': seq<Step>)
    requires Continues(quorumSize, run, steps, run1, steps1) && n in run1[|steps1|].replicas
    requires CanMislead(run1[|steps1|], n, p, m)
    ensures Continues(quorumSize, run, steps, run', steps')
    ensures n in run'[|steps'|].replicas && run'[|steps'|].replicas[n] == run1[|steps1|].replicas[n]
    ensures Packet(m, n, Response(SyncResponse(p, None))) in run'[|steps'|].sent
  {
    run', steps' := run1, steps1;
    if Packet(m, n, Response(SyncResponse(p, None))) !in run1[|steps1|].sent {
      var k :| k in run1[|steps1|].sent && k.from == n && k.to == m && k.payload.Request?
               && k.payload.request.requesterPhase >= p;
      RequestsGoToOthers(quorumSize, run1, steps1, |steps1|);
      run', steps' := AdvanceTo(quorumSize, run, steps, run1, steps1, m, p);
      assert k == Packet(n, m, Request(k.payload.request));
      run', steps' := Extend(quorumSize, run, steps, run', steps', AnswerRequest(m, n, k.payload.request));
    }
  }

  /** The response completes a quorum of which none is for a later phase, and is chosen. */
  lemma TakeMisleads(quorumSize: nat, s: Cluster, n: NodeId, p: Phase, m: NodeId)
    requires n in s.replicas && p > s.replicas[n].current
    requires Packet(m, n, Response(SyncResponse(p, None))) in s.sent
    requires |s.replicas[n].responses.Keys + {m}| >= quorumSize
    requires forall k | k in s.replicas[n].responses :: s.replicas[n].responses[k].responderPhase <= p
    ensures var take := TakeResponse(n, m, SyncResponse(p, None), m);
            && Enabled(quorumSize, s, take)
            && Apply(quorumSize, s, take).replicas[n].current == p
            && Apply(quorumSize, s, take).replicas[n].machine == s.replicas[n].machine
  {
    var stored := StoreResponse(s.replicas[n], m, SyncResponse(p, None)).responses;
    assert stored.Keys == s.replicas[n].responses.Keys + {m} && |stored| == |stored.Keys|;
    assert IsLatest(stored, m);
  }

  lemma GatheredCanMislead(s0: Cluster, s: Cluster, n: NodeId, p: Phase, from: set<NodeId>, m: NodeId)
    requires Gathered(s0, s, n, p, from) && NoSelfRequests(s) && CanMislead(s0, n, p, m)
    ensures CanMislead(s, n, p, m)
  {
    if Packet(m, n, Response(SyncResponse(p, None))) !in s0.sent {
      var k :| k in s0.sent && k.from == n && k.to == m && k.payload.Request? && k.payload.request.requesterPhase >= p;
      assert k in s.sent && m != n;
    }
  }

  lemma LastStepMisleads(quorumSize: nat, run: seq<Cluster>, steps: seq<Step>, run': seq<Cluster>, steps': seq<Step>,
                         j: nat, n: NodeId, p: Phase, m: NodeId)
    requires Continues(quorumSize, run, steps, run', steps') && |steps| <= j < |steps'|
    requires steps'[j] == TakeResponse(n, m, SyncResponse(p, None), m)
    requires n in run'[j].replicas && n in run'[j + 1].replicas
    requires run'[j].replicas[n].current != run'[j + 1].replicas[n].current
    ensures Misleads(quorumSize, run, steps, run', steps', j, n)
  {
  }

  lemma Complete(quorumSize: nat, run: seq<Cluster>, steps: seq<Step>, run1: seq<Cluster>, steps1: seq<Step>,
                 n: NodeId, p: Phase, m: NodeId)
    returns (run': seq<Cluster>, steps': seq<Step>)
    requires Continues(quorumSize, run, steps, run1, steps1) && n in run1[|steps1|].replicas
    requires p > run1[|steps1|].replicas[n].current
    requires Packet(m, n, Response(SyncResponse(p, None))) in run1[|steps1|].sent
    requires |run1[|steps1|].replicas[n].responses.Keys + {m}| >= quorumSize
    requires forall k | k in run1[|steps1|].replicas[n].responses ::
               run1[|steps1|].replicas[n].responses[k].responderPhase <= p
    ensures |steps'| > 0 && Misleads(quorumSize, run, steps, run', steps', |steps'| - 1, n)
  {
    TakeMisleads(quorumSize, run1[|steps1|], n, p, m);
    run', steps' := Extend(quorumSize, run, steps, run1, steps1, TakeResponse(n, m, SyncResponse(p, None), m));
    LastStepMisleads(quorumSize, run, steps, run', steps', |steps1|, n, p, m);
    assert |steps'| - 1 == |steps1|;
  }

  /** With all but the misleading response gathered, that one completes the quorum. */
  lemma Mislead(quorumSize: nat, run: seq<Cluster>, steps: seq<Step>, run1: seq<Cluster>, steps1: seq<Step>,
                n: NodeId, p: Phase, from: set<NodeId>, m: NodeId)
    returns (run': seq<Cluster>, steps': seq<Step>)
    requires Continues(quorumSize, run, steps, run1, steps1) && n in run[|steps|].replicas
    requires Gathered(run[|steps|], run1[|steps1|], n, p, from) && |from + {m}| >= quorumSize
    requires p > run[|steps|].replicas[n].current && CanMislead(run[|steps|], n, p, m)
    ensures |steps'| > 0 && Misleads(quorumSize, run, steps, run', steps', |steps'| - 1, n)
  {
    RequestsGoToOthers(quorumSize, run1, steps1, |steps1|);
    GatheredCanMislead(run[|steps|], run1[|steps1|], n, p, from, m);
    run', steps' := Provoke(quorumSize, run, steps, run1, steps1, n, p, m);
    run', steps' := Complete(quorumSize, run, steps, run', steps', n, p, m);
  }

  lemma DangerMisleads(quorumSize: nat, run: seq<Cluster>, steps: seq<Step>, n: NodeId)
    returns (run': seq<Cluster>, steps': seq<Step>)
    requires IsRun(quorumSize, run, steps)
    requires n in run[|steps|].replicas && run[|steps|].replicas[n].responses == map[]
    requires Endangered(quorumSize, run[|steps|], n)
    ensures |steps'| > 0 && Misleads(quorumSize, run, steps, run', steps', |steps'| - 1, n)
  {
    var s := run[|steps|];
    var p: Phase, m :| p > s.replicas[n].current && CanMislead(s, n, p, m) && |Answerers(s, n, p)| >= quorumSize;
    var from: set<NodeId> := {};
    if quorumSize > 1 {
      var others := Answerers(s, n, p) - {m};
      SubsetCard(Answerers(s, n, p), others + {m});
      from := TakeSubset(others, quorumSize - 1);
    }
    run', steps' := GatherAll(quorumSize, run, steps, n, p, from);
    run', steps' := Mislead(quorumSize, run, steps, run', steps', n, p, from, m);
  }

  /** Exactly when a replica that holds no responses, as after every restart, can be moved
      to another phase without a snapshot in some continuation: when it is endangered. */
  lemma MisleadingIff(quorumSize: nat, run: seq<Cluster>, steps: seq<Step>, n: NodeId)
    requires IsRun(quorumSize, run, steps)
    requires n in run[|steps|].replicas && run[|steps|].replicas[n].responses == map[]
    ensures Endangered(quorumSize, run[|steps|], n) <==>
            exists run': seq<Cluster>, steps': seq<Step>, j: nat :: Misleads(quorumSize, run, steps, run', steps', j, n)
  {
    if Endangered(quorumSize, run[|steps|], n) {
      var run', steps' := DangerMisleads(quorumSize, run, steps, n);
    }
    if run': seq<Cluster>, steps': seq<Step>, j: nat :| Misleads(quorumSize, run, steps, run', steps', j, n) {
      MisleadingNeedsDanger(quorumSize, run, steps, run', steps', j, n);
    }
  }

  /** A replica in the phase of all its requests is not endangered. */
  lemma CaughtUpIsSafe(quorumSize: nat, run: seq<Cluster>, steps: seq<Step>, n: NodeId)
    requires IsRun(quorumSize, run, steps) && n in run[0].replicas && CaughtUp(run[|steps|], n)
    ensures !Endangered(quorumSize, run[|steps|], n)
  {
    ResponsesStayMeaningful(quorumSize, run, steps, |steps|, n);
  }

  // ---- Over whole runs ----

  /** Restart `k` of replica `n` restored a phase below `p`, though `n` had asked from `p` on. */
  ghost predicate RestartsBehind(run: seq<Cluster>, steps: seq<Step>, k: nat, n: NodeId, p: Phase)
    requires k < |steps| < |run|
  {
    && steps[k] == Restart(n) && Asked(run[k].sent, n, p)
    && n in run[k + 1].replicas && run[k + 1].replicas[n].current < p
  }

  lemma {:induction false} BehindByRestart(quorumSize: nat, run: seq<Cluster>, steps: seq<Step>, i: nat, n: NodeId, p: Phase)
    returns (k: nat)
    requires IsRun(quorumSize, run, steps) && i <= |steps| && n in run[i].replicas
    requires Asked(run[i].sent, n, p) && run[i].replicas[n].current < p
    ensures k < i && RestartsBehind(run, steps, k, n, p)
  {
    assert i > 0;
    var s, step := run[i - 1], steps[i - 1];
    assert run[i - 1 + 1] == Apply(quorumSize, s, step);
    if step == Restart(n) {
      k := i - 1;
    } else {
      StepBehind(quorumSize, s, step, n, p);
      k := BehindByRestart(quorumSize, run, steps, i - 1, n, p);
    }
  }

  lemma StepBehind(quorumSize: nat, s: Cluster, step: Step, n: NodeId, p: Phase)
    requires Enabled(quorumSize, s, step) && step != Restart(n) && n in s.replicas
    requires Asked(Apply(quorumSize, s, step).sent, n, p) && Apply(quorumSize, s, step).replicas[n].current < p
    ensures Asked(s.sent, n, p) && s.replicas[n].current < p
  {
    if step.n == n {
      LocalKeepsPhase(s.replicas[n], quorumSize, step);
    }
  }

  /** In any run, restarts anywhere, a sync that moves a replica on without a snapshot goes
      back to a restart of that replica behind a request for the very phase it moves to. */
  lemma MisledByRestart(quorumSize: nat, run: seq<Cluster>, steps: seq<Step>, i: nat, n: NodeId) returns (k: nat)
    requires IsRun(quorumSize, run, steps) && i < |steps| && n in run[0].replicas && Syncs(run, steps, i, n)
    requires steps[i].latest in StoreResponse(run[i].replicas[n], steps[i].from, steps[i].response).responses
    requires Chosen(run, steps, i, n).snapshot == None
    ensures k < i && RestartsBehind(run, steps, k, n, run[i + 1].replicas[n].current)
  {
    SyncRaises(quorumSize, run, steps, i, n);
    ChosenIsMeaningful(quorumSize, run, steps, i, n);
    k := BehindByRestart(quorumSize, run, steps, i, n, run[i + 1].replicas[n].current);
  }

  // ---- A cluster of three ----

  const REQUEST := SyncRequest(5)
  const ANSWER := SyncResponse(5, None)

  function Other(x: Command): Replica.State {
    Replica.State(5, 5, [x], None, map[])
  }

  function Start(x: Command): Cluster {
    Cluster(map[0 := Replica.State(5, 2, [], Some(Saved(2, 2, Some([]))), map[]), 1 := Other(x), 2 := Other(x)], {})
  }

  /** Replica 0 is back in phase 2 with an empty machine; the others have not moved. */
  ghost predicate Back(s: Cluster, x: Command) {
    && 0 in s.replicas && 1 in s.replicas && 2 in s.replicas
    && s.replicas[0].current == 2 && s.replicas[0].machine == []
    && s.replicas[1] == s.replicas[2] == Other(x)
  }

  lemma AppendStep(quorumSize: nat, run: seq<Cluster>, steps: seq<Step>, step: Step)
    returns (run': seq<Cluster>, steps': seq<Step>)
    requires IsRun(quorumSize, run, steps) && Enabled(quorumSize, run[|steps|], step)
    ensures IsRun(quorumSize, run', steps') && |steps'| == |steps| + 1
    ensures forall j | 0 <= j <= |steps| :: run'[j] == run[j]
    ensures forall j | 0 <= j < |steps| :: steps'[j] == steps[j]
    ensures run'[|steps| + 1] == Apply(quorumSize, run[|steps|], step) && steps'[|steps|] == step
  {
    run', steps' := run + [Apply(quorumSize, run[|steps|], step)], steps + [step];
  }

  lemma AskRestart(x: Command) returns (run: seq<Cluster>, steps: seq<Step>)
    ensures IsRun(2, run, steps) && |steps| == 2 && steps[1] == Restart(0) && 0 in run[0].replicas
    ensures forall m: NodeId, j: nat | m in {1, 2} && j <= 2 :: m in run[j].replicas && run[j].replicas[m].machine == [x]
    ensures Back(run[2], x) && run[2].replicas[0].responses == map[]
    ensures Packet(0, 1, Request(REQUEST)) in run[2].sent && Packet(0, 2, Request(REQUEST)) in run[2].sent
  {
    run, steps := AppendStep(2, [Start(x)], [], InitiateSync(0, {1, 2}));
    assert Packet(0, 1, Request(REQUEST)) in run[1].sent && Packet(0, 2, Request(REQUEST)) in run[1].sent;
    run, steps := AppendStep(2, run, steps, Restart(0));
  }

  lemma AnswerArrives(s: Cluster, x: Command, m: NodeId)
    requires Back(s, x) && m in {1, 2} && Packet(0, m, Request(REQUEST)) in s.sent
    ensures var answer := AnswerRequest(m, 0, REQUEST);
            && Enabled(2, s, answer)
            && Apply(2, s, answer).replicas == s.replicas
            && s.sent <= Apply(2, s, answer).sent
            && Packet(m, 0, Response(ANSWER)) in Apply(2, s, answer).sent
  {
    assert HandleSyncRequest(s.replicas[m], REQUEST) == ANSWER;
    assert s.replicas[m := s.replicas[m]] == s.replicas;
  }

  lemma FirstIsStored(s: Cluster, x: Command)
    requires Back(s, x) && s.replicas[0].responses == map[] && Packet(1, 0, Response(ANSWER)) in s.sent
    ensures var s' := Apply(2, s, TakeResponse(0, 1, ANSWER, 1));
            && Enabled(2, s, TakeResponse(0, 1, ANSWER, 1))
            && Back(s', x) && s'.sent == s.sent && s'.replicas[0].responses == map[1 := ANSWER]
  {
    var stored := StoreResponse(s.replicas[0], 1, ANSWER).responses;
    assert stored == map[1 := ANSWER] && |stored| == |stored.Keys|;
  }

  /** Five steps from `Start`: asked, restarted, both answers under way, one stored. */
  lemma OneStored(x: Command) returns (run: seq<Cluster>, steps: seq<Step>)
    ensures IsRun(2, run, steps) && |steps| == 5 && steps[1] == Restart(0) && 0 in run[0].replicas
    ensures Back(run[2], x) && Packet(0, 1, Request(REQUEST)) in run[2].sent
    ensures forall j: nat | j <= 5 :: 2 in run[j].replicas && run[j].replicas[2].machine == [x]
    ensures Back(run[5], x) && run[5].replicas[0].responses == map[1 := ANSWER]
    ensures Packet(2, 0, Response(ANSWER)) in run[5].sent
  {
    run, steps := AskRestart(x);
    AnswerArrives(run[2], x, 1);
    run, steps := AppendStep(2, run, steps, AnswerRequest(1, 0, REQUEST));
    AnswerArrives(run[3], x, 2);
    run, steps := AppendStep(2, run, steps, AnswerRequest(2, 0, REQUEST));
    FirstIsStored(run[4], x);
    run, steps := AppendStep(2, run, steps, TakeResponse(0, 1, ANSWER, 1));
  }

  lemma TakeSecond(x: Command, run0: seq<Cluster>, steps0: seq<Step>) returns (run: seq<Cluster>, steps: seq<Step>)
    requires IsRun(2, run0, steps0) && |steps0| == 5 && Back(run0[5], x)
    requires run0[5].replicas[0].responses == map[1 := ANSWER] && Packet(2, 0, Response(ANSWER)) in run0[5].sent
    ensures IsRun(2, run, steps) && |steps| == 6 && steps[1] == steps0[1]
    ensures forall j | 0 <= j <= 5 :: run[j] == run0[j]
    ensures Syncs(run, steps, 5, 0) && steps[5] == TakeResponse(0, 2, ANSWER, 2)
    ensures run[6].replicas[0].current == 5 && run[6].replicas[0].machine == []
  {
    assert |run0[5].replicas[0].responses.Keys + {2}| >= 2 by {
      assert run0[5].replicas[0].responses.Keys + {2} == {1, 2};
    }
    TakeMisleads(2, run0[5], 0, 5, 2);
    run, steps := AppendStep(2, run0, steps0, TakeResponse(0, 2, ANSWER, 2));
  }

  lemma NeverHeld(run0: seq<Cluster>, run: seq<Cluster>, i: nat, m: NodeId, p: Phase, x: Machine, y: Machine)
    requires i < |run0| && i < |run| && x != y
    requires forall j: nat | j <= i :: run[j] == run0[j] && m in run0[j].replicas && run0[j].replicas[m].machine == x
    ensures !Held(run, i, m, p, y)
  {
  }

  lemma AskRestartTake(x: Command) returns (run0: seq<Cluster>, run: seq<Cluster>, steps: seq<Step>)
    ensures IsRun(2, run, steps) && |steps| == 6 && |run0| == 6 && 0 in run0[0].replicas
    ensures steps[1] == Restart(0) && Back(run0[2], x) && Packet(0, 1, Request(REQUEST)) in run0[2].sent
    ensures forall j: nat | j <= 5 ::
              run[j] == run0[j] && 2 in run0[j].replicas && run0[j].replicas[2].machine == [x]
    ensures Syncs(run, steps, 5, 0) && steps[5] == TakeResponse(0, 2, ANSWER, 2)
    ensures run[6].replicas[0].current == 5 && run[6].replicas[0].machine == []
  {
    var steps0;
    run0, steps0 := OneStored(x);
    run, steps := TakeSecond(x, run0, steps0);
  }

  /** In a cluster of three, where two make a quorum, one replica asks in phase 5, restarts
      from what it saved in phase 2, and takes both answers: it is in phase 5 again, with a
      state that the replica whose answer it chose never held. */
  lemma RestartMisleads(x: Command) returns (run: seq<Cluster>, steps: seq<Step>)
    ensures IsRun(ClusterConfig({0, 1, 2}).QuorumSize(), run, steps) && |steps| == 6 && 0 in run[0].replicas
    ensures steps[1] == Restart(0) && !CaughtUp(run[2], 0)
    ensures Syncs(run, steps, 5, 0) && run[6].replicas[0].current == 5 && steps[5].latest == 2
    ensures !Held(run, 5, 2, 5, run[6].replicas[0].machine)
  {
    assert |{0, 1, 2}| == 3;
    var run0;
    run0, run, steps := AskRestartTake(x);
    assert run[0] == run0[0] && run[2] == run0[2];
    NeverHeld(run0, run, 5, 2, 5, [x], []);
  }
}

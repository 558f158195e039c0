/** One replica: its phase counters, its state machine, what it saved, and the
    handlers that change them (`engine.rs`, `state.rs`). The state machine is taken
    as the sequence of commands applied to it, of which the state of any
    deterministic machine is a function; a snapshot is a copy of it. */
module Replica {
  import opened Types

  type Command = nat
  type Batch = seq<Command>
  type Machine = seq<Command>

  datatype Decision = Decision(phase: Phase, value: StateValue, batch: Option<Batch>)
  datatype SyncRequest = SyncRequest(requesterPhase: Phase)
  datatype SyncResponse = SyncResponse(responderPhase: Phase, snapshot: Option<Machine>)
  datatype Heartbeat = Heartbeat(current: Phase, committed: Phase)
  datatype Saved = Saved(current: Phase, committed: Phase, snapshot: Option<Machine>)

  datatype State = State(
    current: Phase,
    committed: Phase,
    machine: Machine,
    saved: Option<Saved>,
    responses: map<NodeId, SyncResponse>)

  /** Whether a handler returned normally. */
  datatype Outcome = Done | ApplyFailed | CommitRejected

  /** A replica that has just been created over what a predecessor saved. */
  function Created(saved: Option<Saved>): State {
    State(0, 0, [], saved, map[])
  }

  // ---- The handlers as functions ----

  function Save(s: State): State {
    s.(saved := Some(Saved(s.current, s.committed, Some(s.machine))))
  }

  function Initialize(s: State): State {
    match s.saved
    case None => s
    case Some(d) =>
      s.(current := d.current, committed := d.committed,
      machine := if d.snapshot.Some? then d.snapshot.value else s.machine)
  }

  /** Applying a batch stops at the first command that fails, keeping those before. */
  function ApplyBatch(m: Machine, b: Batch, accepts: nat): Machine {
    m + if accepts < |b| then b[..accepts] else b
  }

  predicate Applies(s: State, d: Decision) {
    d.value == V1 && d.batch.Some? && d.phase > s.committed
  }

  /** `accepts` is how many commands the machine takes before failing, `saveOk` whether
      saving succeeds. The batch is applied before the commit can be rejected. */
  function HandleDecision(s: State, d: Decision, accepts: nat, saveOk: bool): (State, Outcome) {
    if !Applies(s, d) then (s, Done)
    else
      var s1 := s.(machine := ApplyBatch(s.machine, d.batch.value, accepts));
      if accepts < |d.batch.value| then (s1, ApplyFailed)
      else if d.phase > s.current then (s1, CommitRejected)
      else
        var s2 := s1.(committed := d.phase);
        (if saveOk then Save(s2) else s2, Done)
  }

  function HandleSyncRequest(s: State, r: SyncRequest): SyncResponse {
    SyncResponse(s.current, if s.current > r.requesterPhase then Some(s.machine) else None)
  }

  function StoreResponse(s: State, from: NodeId, r: SyncResponse): State {
    s.(responses := s.responses[from := r])
  }

  /** `latest` names a response with the largest phase; ties are broken arbitrarily. */
  predicate IsLatest(responses: map<NodeId, SyncResponse>, latest: NodeId) {
    && latest in responses
    && forall m | m in responses :: responses[m].responderPhase <= responses[latest].responderPhase
  }

  function ResolveSync(s: State, latest: NodeId): State
    requires latest in s.responses
  {
    var r := s.responses[latest];
    var s1 := if r.responderPhase > s.current then
                s.(current := r.responderPhase, machine := if r.snapshot.Some? then r.snapshot.value else s.machine)
              else s;
    s1.(responses := map[])
  }

  /** The effect of a sync response: stored, and once a quorum answered, resolved. */
  ghost predicate SyncResponseHandled(s: State, s': State, quorumSize: nat, from: NodeId, r: SyncResponse, latest: NodeId) {
    var s1 := StoreResponse(s, from, r);
    if |s1.responses| >= quorumSize then IsLatest(s1.responses, latest) && s' == ResolveSync(s1, latest)
    else s' == s1
  }

  function BeatOf(s: State): Heartbeat {
    Heartbeat(s.current, s.committed)
  }

  /** The phase-order check a receiver makes on a heartbeat. */
  predicate HeartbeatAccepted(h: Heartbeat) {
    h.committed <= h.current
  }

  // ---- The replica as the source writes it ----

  class Engine {
    const nodeId: NodeId
    const quorumSize: nat
    var activeNodes: set<NodeId>
    var currentPhase: Phase
    var lastCommittedPhase: Phase
    var machine: Machine
    var saved: Option<Saved>
    var syncResponses: map<NodeId, SyncResponse>

    function View(): State
      reads this
    {
      State(currentPhase, lastCommittedPhase, machine, saved, syncResponses)
    }

    constructor (nodeId: NodeId, quorumSize: nat, saved: Option<Saved>)
      ensures this.nodeId == nodeId && this.quorumSize == quorumSize && activeNodes == {}
      ensures View() == Created(saved)
    {
      this.nodeId, this.quorumSize := nodeId, quorumSize;
      activeNodes := {};
      currentPhase, lastCommittedPhase, machine := 0, 0, [];
      this.saved, syncResponses := saved, map[];
    }

    method AdvancePhase() returns (phase: Phase)
      modifies this`currentPhase
      ensures currentPhase == old(currentPhase) + 1 && phase == currentPhase
    {
      currentPhase := currentPhase + 1;
      phase := currentPhase;
    }

    /** The weak compare-exchange: it may also fail for no reason. */
    method CompareExchangeWeak(expected: Phase, phase: Phase, spurious: bool) returns (ok: bool, actual: Phase)
      modifies this`lastCommittedPhase
      ensures actual == old(lastCommittedPhase) && (ok <==> actual == expected && !spurious)
      ensures lastCommittedPhase == if ok then phase else old(lastCommittedPhase)
    {
      actual := lastCommittedPhase;
      ok := actual == expected && !spurious;
      if ok {
        lastCommittedPhase := phase;
      }
    }

    /** The commit loop; the result is `None` for the error of a phase beyond the
        current one. The committed phase becomes the larger of the two, however often
        (`spurious` times) the exchange fails for no reason. */
    method CommitPhase(phase: Phase, spurious: nat) returns (raised: Option<bool>)
      modifies this`lastCommittedPhase
      ensures raised.None? <==> phase > currentPhase
      ensures raised.None? ==> lastCommittedPhase == old(lastCommittedPhase)
      ensures raised.Some? ==> lastCommittedPhase == Max(old(lastCommittedPhase), phase)
      ensures raised.Some? ==> (raised.value <==> lastCommittedPhase > old(lastCommittedPhase))
    {
      if phase > currentPhase {
        return None;
      }
      var current: Phase := lastCommittedPhase;
      var failures: nat := spurious;
      while current < phase
        invariant current <= lastCommittedPhase == old(lastCommittedPhase)
        decreases failures, phase - current
      {
        var ok, actual := CompareExchangeWeak(current, phase, failures > 0);
        if ok {
          return Some(true);
        }
        failures := if failures > 0 then failures - 1 else 0;
        current := actual;
        if current >= phase {
          return Some(false);
        }
      }
      return Some(false);
    }

    method SaveState()
      modifies this`saved
      ensures View() == Save(old(View()))
    {
      saved := Some(Saved(currentPhase, lastCommittedPhase, Some(machine)));
    }

    method InitializeFromSaved(connected: set<NodeId>)
      modifies this
      ensures View() == Initialize(old(View())) && activeNodes == connected
    {
      if saved.Some? {
        currentPhase := saved.value.current;
        lastCommittedPhase := saved.value.committed;
        if saved.value.snapshot.Some? {
          machine := saved.value.snapshot.value;
        }
      }
      activeNodes := connected;
    }

    /** Commands are applied one by one until one fails. */
    method ApplyCommands(batch: Batch, accepts: nat) returns (ok: bool)
      modifies this`machine
      ensures machine == ApplyBatch(old(machine), batch, accepts)
      ensures ok <==> accepts >= |batch|
    {
      var i := 0;
      while i < |batch|
        invariant 0 <= i <= |batch| && i <= accepts
        invariant machine == old(machine) + batch[..i]
      {
        if i == accepts {
          return false;
        }
        machine := machine + [batch[i]];
        i := i + 1;
      }
      return true;
    }

    method HandleDecisionMessage(d: Decision, accepts: nat, saveOk: bool, spurious: nat) returns (outcome: Outcome)
      modifies this`machine, this`lastCommittedPhase, this`saved
      ensures (View(), outcome) == HandleDecision(old(View()), d, accepts, saveOk)
    {
      outcome := Done;
      if d.value == V1 {
        if d.batch.Some? {
          if d.phase > lastCommittedPhase {
            var ok := ApplyCommands(d.batch.value, accepts);
            if !ok {
              return ApplyFailed;
            }
            var raised := CommitPhase(d.phase, spurious);
            if raised.None? {
              return CommitRejected;
            }
            if saveOk {
              SaveState();
            }
          }
        }
      }
    }

    method HandleSyncRequestMessage(r: SyncRequest) returns (response: SyncResponse)
      ensures response == HandleSyncRequest(View(), r)
    {
      var snapshot := if currentPhase > r.requesterPhase then Some(machine) else None;
      response := SyncResponse(currentPhase, snapshot);
    }

    /** The response with the largest phase, scanned in arbitrary order. */
    method LatestResponse() returns (latest: NodeId)
      requires syncResponses != map[]
      ensures IsLatest(syncResponses, latest)
    {
      latest :| latest in syncResponses;
      var todo := syncResponses.Keys;
      while todo != {}
        invariant todo <= syncResponses.Keys && latest in syncResponses
        invariant forall m | m in syncResponses && m !in todo ::
                    syncResponses[m].responderPhase <= syncResponses[latest].responderPhase
        decreases todo
      {
        var m :| m in todo;
        if syncResponses[m].responderPhase >= syncResponses[latest].responderPhase {
          latest := m;
        }
        todo := todo - {m};
      }
    }

    method HandleSyncResponseMessage(from: NodeId, r: SyncResponse) returns (ghost latest: NodeId)
      modifies this`currentPhase, this`machine, this`syncResponses
      ensures SyncResponseHandled(old(View()), View(), quorumSize, from, r, latest)
    {
      syncResponses := syncResponses[from := r];
      assert from in syncResponses;
      latest := from;
      if |syncResponses| >= quorumSize {
        var chosen := LatestResponse();
        latest := chosen;
        if syncResponses[chosen].responderPhase > currentPhase {
          currentPhase := syncResponses[chosen].responderPhase;
          if syncResponses[chosen].snapshot.Some? {
            machine := syncResponses[chosen].snapshot.value;
          }
        }
        syncResponses := map[];
      }
    }

    /** One request to every active node but this one. */
    method InitiateSync() returns (requests: map<NodeId, SyncRequest>)
      ensures requests == map m | m in activeNodes && m != nodeId :: SyncRequest(currentPhase)
    {
      requests := map[];
      var todo := activeNodes;
      while todo != {}
        invariant todo <= activeNodes
        invariant requests == map m | m in activeNodes - todo && m != nodeId :: SyncRequest(currentPhase)
        decreases todo
      {
        var m :| m in todo;
        if m != nodeId {
          requests := requests[m := SyncRequest(currentPhase)];
        }
        todo := todo - {m};
      }
    }

    method SendHeartbeat() returns (h: Heartbeat)
      ensures h == BeatOf(View())
    {
      h := Heartbeat(currentPhase, lastCommittedPhase);
    }
  }
}

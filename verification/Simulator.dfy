/** The network simulator's message queue (`rabia-testing/src/network_sim.rs`).
    Clock readings, random latencies and random losses are inputs. */
module Simulator {
  import opened Types

  type Message = nat

  datatype Pending = Pending(from: NodeId, to: NodeId, message: Message, deliverAt: nat, sizeBytes: nat)

  datatype Partition = Partition(nodes: set<NodeId>, duration: nat, startedAt: nat)

  /** The receiving end of a node: whether it is still there, and what it got. */
  datatype Receiver = Receiver(open: bool, inbox: seq<(NodeId, Message)>)

  datatype Stats = Stats(sent: nat, delivered: nat, dropped: nat, totalLatency: nat, totalBytes: nat)

  datatype State = State(
    nodes: map<NodeId, Receiver>,
    partitions: seq<Partition>,
    pending: seq<Pending>,
    stats: Stats)

  const EMPTY := State(map[], [], [], Stats(0, 0, 0, 0, 0))

  predicate Active(p: Partition, now: nat) {
    now < p.startedAt + p.duration
  }

  predicate Separates(p: Partition, a: NodeId, b: NodeId) {
    (a in p.nodes) != (b in p.nodes)
  }

  /** Some active partition holds exactly one of the two nodes. */
  predicate Partitioned(ps: seq<Partition>, a: NodeId, b: NodeId, now: nat) {
    exists i | 0 <= i < |ps| :: Active(ps[i], now) && Separates(ps[i], a, b)
  }

  function Unexpired(ps: seq<Partition>, now: nat): seq<Partition> {
    if ps == [] then []
    else (if Active(ps[0], now) then [ps[0]] else []) + Unexpired(ps[1..], now)
  }

  /** Sending reads the clock twice, draws whether the packet is lost, and draws a latency. */
  datatype Draw = Draw(checkedAt: nat, lost: bool, sentAt: nat, latency: nat)

  function Send(s: State, from: NodeId, to: NodeId, message: Message, size: nat, d: Draw): State {
    var s1 := s.(stats := s.stats.(sent := s.stats.sent + 1));
    if Partitioned(s.partitions, from, to, d.checkedAt) || d.lost then
      s1.(stats := s1.stats.(dropped := s1.stats.dropped + 1))
    else
      s1.(pending := s.pending + [Pending(from, to, message, d.sentAt + d.latency, size)])
  }

  predicate Reachable(s: State, p: Pending) {
    p.to in s.nodes && s.nodes[p.to].open
  }

  /** The front message leaves the queue and reaches its receiver, if there is one. */
  function DeliverFront(s: State, now: nat): State
    requires s.pending != [] && s.pending[0].deliverAt <= now
  {
    var p := s.pending[0];
    var s1 := s.(pending := s.pending[1..]);
    if Reachable(s, p) then
      s1.(nodes := s.nodes[p.to := Receiver(true, s.nodes[p.to].inbox + [(p.from, p.message)])],
      stats := s.stats.(delivered := s.stats.delivered + 1,
      totalLatency := s.stats.totalLatency + (now - p.deliverAt),
      totalBytes := s.stats.totalBytes + p.sizeBytes))
    else s1
  }

  function Deliver(s: State, now: nat): State
    decreases |s.pending|
  {
    if s.pending != [] && s.pending[0].deliverAt <= now then Deliver(DeliverFront(s, now), now) else s
  }

  class NetworkSimulator {
    var nodes: map<NodeId, Receiver>
    var partitions: seq<Partition>
    var pending: seq<Pending>
    var stats: Stats

    function View(): State
      reads this
    {
      State(nodes, partitions, pending, stats)
    }

    constructor ()
      ensures View() == EMPTY
    {
      nodes, partitions, pending, stats := map[], [], [], Stats(0, 0, 0, 0, 0);
    }

    method AreNodesPartitioned(a: NodeId, b: NodeId, now: nat) returns (r: bool)
      ensures r <==> Partitioned(partitions, a, b, now)
    {
      var i := 0;
      while i < |partitions|
        invariant 0 <= i <= |partitions|
        invariant forall j | 0 <= j < i :: !(Active(partitions[j], now) && Separates(partitions[j], a, b))
      {
        if now < partitions[i].startedAt + partitions[i].duration {
          var aInside, bInside := a in partitions[i].nodes, b in partitions[i].nodes;
          if aInside != bInside {
            return true;
          }
        }
        i := i + 1;
      }
      return false;
    }

    method SendMessage(from: NodeId, to: NodeId, message: Message, size: nat, d: Draw)
      modifies this
      ensures View() == Send(old(View()), from, to, message, size, d)
    {
      stats := stats.(sent := stats.sent + 1);
      var apart := AreNodesPartitioned(from, to, d.checkedAt);
      if apart {
        stats := stats.(dropped := stats.dropped + 1);
        return;
      }
      if d.lost {
        stats := stats.(dropped := stats.dropped + 1);
        return;
      }
      pending := pending + [Pending(from, to, message, d.sentAt + d.latency, size)];
    }

    method DeliverPendingMessages(now: nat)
      modifies this
      ensures View() == Deliver(old(View()), now)
    {
      while pending != [] && pending[0].deliverAt <= now
        invariant Deliver(View(), now) == Deliver(old(View()), now)
        decreases |pending|
      {
        var p := pending[0];
        pending := pending[1..];
        if p.to in nodes && nodes[p.to].open {
          nodes := nodes[p.to := nodes[p.to].(inbox := nodes[p.to].inbox + [(p.from, p.message)])];
          stats := stats.(delivered := stats.delivered + 1,
          totalLatency := stats.totalLatency + (now - p.deliverAt),
          totalBytes := stats.totalBytes + p.sizeBytes);
        }
      }
    }

    method CleanupExpiredPartitions(now: nat)
      modifies this`partitions
      ensures View() == old(View()).(partitions := Unexpired(old(partitions), now))
    {
      var kept := [];
      var i := 0;
      while i < |partitions|
        invariant 0 <= i <= |partitions|
        invariant kept + Unexpired(partitions[i..], now) == Unexpired(partitions, now)
      {
        assert partitions[i..][1..] == partitions[i + 1..];
        if now < partitions[i].startedAt + partitions[i].duration {
          kept := kept + [partitions[i]];
        }
        i := i + 1;
      }
      assert kept + [] == kept;
      partitions := kept;
    }
  }

  /** Removing partitions that have expired changes no later answer. */
  lemma {:induction false} CleanupIsInvisible(ps: seq<Partition>, cleaned: nat, a: NodeId, b: NodeId, now: nat)
    requires cleaned <= now
    ensures Partitioned(Unexpired(ps, cleaned), a, b, now) <==> Partitioned(ps, a, b, now)
  {
    if ps != [] {
      var rest := Unexpired(ps[1..], cleaned);
      CleanupIsInvisible(ps[1..], cleaned, a, b, now);
      PartitionedFirst([ps[0]] + rest, a, b, now);
      PartitionedFirst(ps, a, b, now);
      assert ([ps[0]] + rest)[1..] == rest;
      assert [] + rest == rest;
    }
  }

  lemma PartitionedFirst(ps: seq<Partition>, a: NodeId, b: NodeId, now: nat)
    requires ps != []
    ensures Partitioned(ps, a, b, now) <==>
            (Active(ps[0], now) && Separates(ps[0], a, b)) || Partitioned(ps[1..], a, b, now)
  {
    if i :| 0 < i < |ps| && Active(ps[i], now) && Separates(ps[i], a, b) {
      assert ps[1..][i - 1] == ps[i];
    }
  }

  // ---- Runs ----

  datatype Op =
    | AddNode(n: NodeId)
    | RemoveNode(n: NodeId)
    | CloseReceiver(n: NodeId)
    | CreatePartition(p: Partition)
    | HealPartitions
    | CleanupPartitions(now: nat)
    | SendOp(from: NodeId, to: NodeId, message: Message, size: nat, draw: Draw)
    | DeliverOp(now: nat)

  function Step(s: State, op: Op): State {
    match op
    case AddNode(n) => s.(nodes := s.nodes[n := Receiver(true, [])])
    case RemoveNode(n) => s.(nodes := s.nodes - {n})
    case CloseReceiver(n) => if n in s.nodes then s.(nodes := s.nodes[n := s.nodes[n].(open := false)]) else s
    case CreatePartition(p) => s.(partitions := s.partitions + [p])
    case HealPartitions => s.(partitions := [])
    case CleanupPartitions(now) => s.(partitions := Unexpired(s.partitions, now))
    case SendOp(from, to, message, size, d) => Send(s, from, to, message, size, d)
    case DeliverOp(now) => Deliver(s, now)
  }

  ghost predicate IsRun(run: seq<State>, ops: seq<Op>) {
    && |run| == |ops| + 1
    && run[0] == EMPTY
    && forall i | 0 <= i < |ops| :: run[i + 1] == Step(run[i], ops[i])
  }

  /** A message that left the queue: when, and whether it reached its receiver. */
  datatype Departure = Departure(p: Pending, at: nat, received: bool)

  function Departing(s: State, now: nat): seq<Departure>
    decreases |s.pending|
  {
    if s.pending != [] && s.pending[0].deliverAt <= now then
      [Departure(s.pending[0], now, Reachable(s, s.pending[0]))] + Departing(DeliverFront(s, now), now)
    else []
  }

  function Departures(run: seq<State>, ops: seq<Op>, n: nat): seq<Departure>
    requires n <= |ops| <= |run|
  {
    if n == 0 then []
    else Departures(run, ops, n - 1) + if ops[n - 1].DeliverOp? then Departing(run[n - 1], ops[n - 1].now) else []
  }

  predicate Queued(s: State, op: Op) {
    op.SendOp? && !Partitioned(s.partitions, op.from, op.to, op.draw.checkedAt) && !op.draw.lost
  }

  function Entry(op: Op): Pending
    requires op.SendOp?
  {
    Pending(op.from, op.to, op.message, op.draw.sentAt + op.draw.latency, op.size)
  }

  /** The messages accepted into the queue, in the order they were accepted. */
  function Accepted(run: seq<State>, ops: seq<Op>, n: nat): seq<Pending>
    requires n <= |ops| <= |run|
  {
    if n == 0 then []
    else Accepted(run, ops, n - 1) + if Queued(run[n - 1], ops[n - 1]) then [Entry(ops[n - 1])] else []
  }

  function Messages(ds: seq<Departure>): seq<Pending> {
    seq(|ds|, i requires 0 <= i < |ds| => ds[i].p)
  }

  function CountReceived(ds: seq<Departure>): nat {
    if ds == [] then 0 else (if ds[0].received then 1 else 0) + CountReceived(ds[1..])
  }

  function CountLost(ds: seq<Departure>): nat {
    if ds == [] then 0 else (if ds[0].received then 0 else 1) + CountLost(ds[1..])
  }

  lemma {:induction false} CountsAppend(a: seq<Departure>, b: seq<Departure>)
    ensures CountReceived(a + b) == CountReceived(a) + CountReceived(b)
    ensures CountLost(a + b) == CountLost(a) + CountLost(b)
  {
    if a == [] {
      assert a + b == b;
    } else {
      CountsAppend(a[1..], b);
      assert (a + b)[1..] == a[1..] + b;
    }
  }

  /** One delivery takes the longest due prefix off the queue, in order: exactly the
      messages before the first one that is not yet due. */
  lemma {:induction false} DeliverTakesDuePrefix(s: State, now: nat)
    ensures Messages(Departing(s, now)) + Deliver(s, now).pending == s.pending
    ensures Deliver(s, now).pending != [] ==> Deliver(s, now).pending[0].deliverAt > now
    decreases |s.pending|
  {
    if s.pending != [] && s.pending[0].deliverAt <= now {
      var s1 := DeliverFront(s, now);
      DeliverTakesDuePrefix(s1, now);
      var d := Departure(s.pending[0], now, Reachable(s, s.pending[0]));
      MessagesAppend([d], Departing(s1, now));
      ConcatAssociates([s.pending[0]], Messages(Departing(s1, now)), Deliver(s1, now).pending);
      assert Messages([d]) == [s.pending[0]];
      assert s.pending == [s.pending[0]] + s1.pending;
    } else {
      assert Messages([]) == [];
    }
  }

  lemma {:induction false} DepartingAreDue(s: State, now: nat)
    ensures forall i | 0 <= i < |Departing(s, now)| ::
              Departing(s, now)[i].at == now && Departing(s, now)[i].p.deliverAt <= now
    decreases |s.pending|
  {
    if s.pending != [] && s.pending[0].deliverAt <= now {
      DepartingAreDue(DeliverFront(s, now), now);
    }
  }

  lemma {:induction false} DeliverCounts(s: State, now: nat)
    ensures var ds, s' := Departing(s, now), Deliver(s, now);
            && s'.stats.delivered == s.stats.delivered + CountReceived(ds)
            && s'.stats.sent == s.stats.sent && s'.stats.dropped == s.stats.dropped
            && |ds| == CountReceived(ds) + CountLost(ds)
    decreases |s.pending|
  {
    if s.pending != [] && s.pending[0].deliverAt <= now {
      DeliverCounts(DeliverFront(s, now), now);
      assert Departing(s, now)[1..] == Departing(DeliverFront(s, now), now);
    }
  }

  lemma MessagesAppend(a: seq<Departure>, b: seq<Departure>)
    ensures Messages(a + b) == Messages(a) + Messages(b)
  {
  }

  /** Despite random latencies the queue is first-in first-out: what left it, followed by
      what is still in it, is what was accepted, in order. */
  lemma {:induction false} QueueIsFifo(run: seq<State>, ops: seq<Op>, n: nat)
    requires IsRun(run, ops) && n <= |ops|
    ensures Messages(Departures(run, ops, n)) + run[n].pending == Accepted(run, ops, n)
  {
    if n > 0 {
      QueueIsFifo(run, ops, n - 1);
      var s, op, ds := run[n - 1], ops[n - 1], Departures(run, ops, n - 1);
      assert run[n - 1 + 1] == Step(s, op);
      if op.DeliverOp? {
        DeliverTakesDuePrefix(s, op.now);
        MessagesAppend(ds, Departing(s, op.now));
        ConcatAssociates(Messages(ds), Messages(Departing(s, op.now)), run[n].pending);
        assert Accepted(run, ops, n) == Accepted(run, ops, n - 1) + [];
      } else if Queued(s, op) {
        assert ds + [] == ds;
        ConcatAssociates(Messages(ds), s.pending, [Entry(op)]);
      } else {
        assert ds + [] == ds;
        assert Accepted(run, ops, n) == Accepted(run, ops, n - 1) + [];
      }
    }
  }

  lemma {:induction false} DeparturesAreDue(run: seq<State>, ops: seq<Op>, n: nat)
    requires n <= |ops| <= |run|
    ensures forall i | 0 <= i < |Departures(run, ops, n)| ::
              Departures(run, ops, n)[i].p.deliverAt <= Departures(run, ops, n)[i].at
  {
    if n > 0 {
      DeparturesAreDue(run, ops, n - 1);
      if ops[n - 1].DeliverOp? {
        DepartingAreDue(run[n - 1], ops[n - 1].now);
      }
    }
  }

  /** The `k`-th message to leave the queue in a run is the `k`-th that was accepted, and
      it leaves no earlier than its own delivery time. */
  lemma NothingLeavesEarly(run: seq<State>, ops: seq<Op>, n: nat, k: nat)
    requires IsRun(run, ops) && n <= |ops| && k < |Departures(run, ops, n)|
    ensures k < |Accepted(run, ops, n)| && Departures(run, ops, n)[k].p == Accepted(run, ops, n)[k]
    ensures Accepted(run, ops, n)[k].deliverAt <= Departures(run, ops, n)[k].at
  {
    QueueIsFifo(run, ops, n);
    DeparturesAreDue(run, ops, n);
    assert Messages(Departures(run, ops, n))[k] == Accepted(run, ops, n)[k];
  }

  /** What a delivery leaves behind is held up by a message that is not yet due: the first
      one accepted and not yet gone. */
  lemma OnlyTheUndueWait(run: seq<State>, ops: seq<Op>, n: nat)
    requires IsRun(run, ops) && n < |ops| && ops[n].DeliverOp?
    requires |Departures(run, ops, n + 1)| < |Accepted(run, ops, n + 1)|
    ensures Accepted(run, ops, n + 1)[|Departures(run, ops, n + 1)|].deliverAt > ops[n].now
  {
    QueueIsFifo(run, ops, n + 1);
    HeadIsUndue(run, ops, n);
    HeadFollows(Messages(Departures(run, ops, n + 1)), run[n + 1].pending, Accepted(run, ops, n + 1));
  }

  lemma HeadIsUndue(run: seq<State>, ops: seq<Op>, n: nat)
    requires IsRun(run, ops) && n < |ops| && ops[n].DeliverOp?
    ensures run[n + 1].pending != [] ==> run[n + 1].pending[0].deliverAt > ops[n].now
  {
    DeliverTakesDuePrefix(run[n], ops[n].now);
    assert run[n + 1] == Step(run[n], ops[n]);
  }

  lemma HeadFollows(left: seq<Pending>, pending: seq<Pending>, accepted: seq<Pending>)
    requires left + pending == accepted && |left| < |accepted|
    ensures pending != [] && accepted[|left|] == pending[0]
  {
  }

  predicate Balanced(s: State, lost: nat) {
    s.stats.sent == s.stats.delivered + s.stats.dropped + |s.pending| + lost
  }

  lemma DeliverKeepsBalance(s: State, now: nat, lost: nat)
    requires Balanced(s, lost)
    ensures Balanced(Deliver(s, now), lost + CountLost(Departing(s, now)))
  {
    DeliverTakesDuePrefix(s, now);
    DeliverCounts(s, now);
    assert |Messages(Departing(s, now)) + Deliver(s, now).pending| == |s.pending|;
  }

  lemma OtherKeepsBalance(s: State, op: Op, lost: nat)
    requires Balanced(s, lost) && !op.DeliverOp?
    ensures Balanced(Step(s, op), lost) && Step(s, op).stats.delivered == s.stats.delivered
  {
  }

  /** Between operations every sent message is accounted for exactly once: delivered,
      dropped, still pending, or gone for want of a receiver. */
  lemma {:induction false} MessagesAccounted(run: seq<State>, ops: seq<Op>, n: nat)
    requires IsRun(run, ops) && n <= |ops|
    ensures run[n].stats.delivered == CountReceived(Departures(run, ops, n))
    ensures Balanced(run[n], CountLost(Departures(run, ops, n)))
  {
    if n > 0 {
      MessagesAccounted(run, ops, n - 1);
      var s, op, ds := run[n - 1], ops[n - 1], Departures(run, ops, n - 1);
      assert run[n - 1 + 1] == Step(s, op);
      if op.DeliverOp? {
        DeliverCounts(s, op.now);
        DeliverKeepsBalance(s, op.now, CountLost(ds));
        CountsAppend(ds, Departing(s, op.now));
      } else {
        OtherKeepsBalance(s, op, CountLost(ds));
        assert ds + [] == ds;
      }
    }
  }
}

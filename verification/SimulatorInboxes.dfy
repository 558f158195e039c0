/** What the network simulator's deliveries put into inboxes and into the statistics, and
    which messages it lets through. */
module SimulatorInboxes {
  import opened Types
  import opened Simulator

  // ---- Sending ----

  /** A message is queued, with its time of delivery, unless it is lost or some partition
      that has not run out holds exactly one of its ends; it is counted either way. */
  lemma SendQueuesIff(s: State, from: NodeId, to: NodeId, message: Message, size: nat, d: Draw)
    ensures var s' := Send(s, from, to, message, size, d);
            var through := !d.lost && forall i | 0 <= i < |s.partitions| ::
                             d.checkedAt < s.partitions[i].startedAt + s.partitions[i].duration ==>
                               (from in s.partitions[i].nodes <==> to in s.partitions[i].nodes);
            && s'.pending == (if through then s.pending + [Pending(from, to, message, d.sentAt + d.latency, size)] else s.pending)
            && s'.stats.sent == s.stats.sent + 1
            && s'.stats.dropped == s.stats.dropped + (if through then 0 else 1)
            && s' == s.(pending := s'.pending, stats := s.stats.(sent := s'.stats.sent, dropped := s'.stats.dropped))
  {
    assert Partitioned(s.partitions, from, to, d.checkedAt) <==>
           exists i | 0 <= i < |s.partitions| ::
             Active(s.partitions[i], d.checkedAt) && Separates(s.partitions[i], from, to);
  }

  /** Cleaning up keeps exactly the partitions that have not run out. */
  lemma {:induction false} UnexpiredAre(ps: seq<Partition>, now: nat, p: Partition)
    ensures p in Unexpired(ps, now) <==> p in ps && now < p.startedAt + p.duration
    ensures |Unexpired(ps, now)| <= |ps|
  {
    if ps != [] {
      UnexpiredAre(ps[1..], now, p);
      assert ps == [ps[0]] + ps[1..];
    }
  }

  // ---- One delivery ----

  /** The messages at the front of the queue that are due. */
  function DuePrefix(pending: seq<Pending>, now: nat): (due: seq<Pending>)
    ensures |due| <= |pending|
  {
    if pending == [] || pending[0].deliverAt > now then [] else [pending[0]] + DuePrefix(pending[1..], now)
  }

  /** What is in `ps` for node `n`, with the sender of each message. */
  function Addressed(ps: seq<Pending>, n: NodeId): seq<(NodeId, Message)> {
    if ps == [] then []
    else (if ps[0].to == n then [(ps[0].from, ps[0].message)] else []) + Addressed(ps[1..], n)
  }

  predicate Listening(nodes: map<NodeId, Receiver>, n: NodeId) {
    n in nodes && nodes[n].open
  }

  /** The messages that find a receiver. */
  function Reaching(nodes: map<NodeId, Receiver>, ps: seq<Pending>): seq<Pending> {
    if ps == [] then []
    else (if Listening(nodes, ps[0].to) then [ps[0]] else []) + Reaching(nodes, ps[1..])
  }

  function Bytes(ps: seq<Pending>): nat {
    if ps == [] then 0 else ps[0].sizeBytes + Bytes(ps[1..])
  }

  function Lateness(ps: seq<Pending>, now: nat): nat {
    if ps == [] then 0 else (if now >= ps[0].deliverAt then now - ps[0].deliverAt else 0) + Lateness(ps[1..], now)
  }

  ghost predicate SameListening(a: map<NodeId, Receiver>, b: map<NodeId, Receiver>) {
    a.Keys == b.Keys && forall n | n in a :: a[n].open == b[n].open
  }

  lemma {:induction false} SameReaching(a: map<NodeId, Receiver>, b: map<NodeId, Receiver>, ps: seq<Pending>)
    requires SameListening(a, b)
    ensures Reaching(a, ps) == Reaching(b, ps)
  {
    if ps != [] {
      SameReaching(a, b, ps[1..]);
    }
  }

  lemma FrontKeepsListening(s: State, now: nat)
    requires s.pending != [] && s.pending[0].deliverAt <= now
    ensures SameListening(s.nodes, DeliverFront(s, now).nodes)
    ensures DeliverFront(s, now).pending == s.pending[1..] && DeliverFront(s, now).partitions == s.partitions
  {
  }

  lemma {:induction false} DeliverTakes(s: State, now: nat)
    ensures var s', due := Deliver(s, now), DuePrefix(s.pending, now);
            && s'.pending == s.pending[|due|..]
            && s'.partitions == s.partitions && SameListening(s.nodes, s'.nodes)
    decreases |s.pending|
  {
    if s.pending != [] && s.pending[0].deliverAt <= now {
      FrontKeepsListening(s, now);
      DeliverTakes(DeliverFront(s, now), now);
    }
  }

  /** Each listening node receives what is due for it, in order; the others nothing. */
  lemma {:induction false} DeliverFills(s: State, now: nat, n: NodeId)
    requires n in s.nodes
    ensures n in Deliver(s, now).nodes
    ensures Deliver(s, now).nodes[n] ==
            if s.nodes[n].open then Receiver(true, s.nodes[n].inbox + Addressed(DuePrefix(s.pending, now), n))
            else s.nodes[n]
    decreases |s.pending|
  {
    if s.pending != [] && s.pending[0].deliverAt <= now {
      var s1, p := DeliverFront(s, now), s.pending[0];
      var rest := DuePrefix(s1.pending, now);
      FrontKeepsListening(s, now);
      DeliverFills(s1, now, n);
      assert DuePrefix(s.pending, now)[1..] == rest;
      if s.nodes[n].open {
        ConcatAssociates(s.nodes[n].inbox, if p.to == n then [(p.from, p.message)] else [], Addressed(rest, n));
        assert p.to != n ==> s.nodes[n].inbox + [] == s.nodes[n].inbox;
      }
    } else if s.nodes[n].open {
      assert s.nodes[n].inbox + [] == s.nodes[n].inbox;
    }
  }

  /** The statistics grow by the messages that found a receiver, their sizes and how late
      each of them was. */
  lemma {:induction false} DeliverAccounts(s: State, now: nat)
    ensures var s', reached := Deliver(s, now), Reaching(s.nodes, DuePrefix(s.pending, now));
            && s'.stats.delivered == s.stats.delivered + |reached|
            && s'.stats.totalBytes == s.stats.totalBytes + Bytes(reached)
            && s'.stats.totalLatency == s.stats.totalLatency + Lateness(reached, now)
            && s'.stats.sent == s.stats.sent && s'.stats.dropped == s.stats.dropped
    decreases |s.pending|
  {
    if s.pending != [] && s.pending[0].deliverAt <= now {
      var s1 := DeliverFront(s, now);
      var rest := DuePrefix(s1.pending, now);
      FrontKeepsListening(s, now);
      DeliverAccounts(s1, now);
      SameReaching(s.nodes, s1.nodes, rest);
      assert DuePrefix(s.pending, now)[1..] == rest;
      ReachingFirst(s.nodes, s.pending[0], rest, now);
    }
  }

  lemma ReachingFirst(nodes: map<NodeId, Receiver>, p: Pending, rest: seq<Pending>, now: nat)
    requires p.deliverAt <= now
    ensures var one, more := Reaching(nodes, [p] + rest), Reaching(nodes, rest);
            if Listening(nodes, p.to) then
              && |one| == 1 + |more| && Bytes(one) == p.sizeBytes + Bytes(more)
              && Lateness(one, now) == now - p.deliverAt + Lateness(more, now)
            else one == more
  {
    assert ([p] + rest)[1..] == rest;
    var more := Reaching(nodes, rest);
    if Listening(nodes, p.to) {
      assert ([p] + more)[1..] == more;
    } else {
      assert [] + more == more;
    }
  }

  // ---- Whole runs ----

  /** What was due for node `n` at the deliveries among operations `i` to `j - 1`. */
  function DueFor(run: seq<State>, ops: seq<Op>, i: nat, j: nat, n: NodeId): seq<(NodeId, Message)>
    requires i <= j <= |ops| < |run|
    decreases j
  {
    if i == j then []
    else
      DueFor(run, ops, i, j - 1, n)
      + if ops[j - 1].DeliverOp? then Addressed(DuePrefix(run[j - 1].pending, ops[j - 1].now), n) else []
  }

  predicate Concerns(op: Op, n: NodeId) {
    op == AddNode(n) || op == RemoveNode(n) || op == CloseReceiver(n)
  }

  lemma OtherOpKeepsReceiver(s: State, op: Op, n: NodeId)
    requires n in s.nodes && !Concerns(op, n) && !op.DeliverOp?
    ensures n in Step(s, op).nodes && Step(s, op).nodes[n] == s.nodes[n]
  {
  }

  /** From the moment a node is added until it is removed or closed, its inbox holds exactly
      the messages that became due for it, in the order in which they were delivered. */
  lemma {:induction false} InboxIsDue(run: seq<State>, ops: seq<Op>, i: nat, j: nat, n: NodeId)
    requires IsRun(run, ops) && i < j <= |ops| && ops[i] == AddNode(n)
    requires forall k | i < k < j :: !Concerns(ops[k], n)
    ensures n in run[j].nodes && run[j].nodes[n] == Receiver(true, DueFor(run, ops, i + 1, j, n))
    decreases j
  {
    var s, op := run[j - 1], ops[j - 1];
    assert run[j - 1 + 1] == Step(s, op);
    if j > i + 1 {
      InboxIsDue(run, ops, i, j - 1, n);
      if op.DeliverOp? {
        DeliverFills(s, op.now, n);
      } else {
        OtherOpKeepsReceiver(s, op, n);
        assert DueFor(run, ops, i + 1, j - 1, n) + [] == DueFor(run, ops, i + 1, j - 1, n);
      }
    }
  }

  /** A closed receiver's inbox does not change until its node is added anew. */
  lemma {:induction false} ClosedInboxStays(run: seq<State>, ops: seq<Op>, i: nat, j: nat, n: NodeId)
    requires IsRun(run, ops) && i <= j <= |ops| && n in run[i].nodes && !run[i].nodes[n].open
    requires forall k | i <= k < j :: ops[k] != AddNode(n) && ops[k] != RemoveNode(n)
    ensures n in run[j].nodes && run[j].nodes[n] == run[i].nodes[n]
    decreases j
  {
    if i < j {
      var s, op := run[j - 1], ops[j - 1];
      ClosedInboxStays(run, ops, i, j - 1, n);
      assert run[j - 1 + 1] == Step(s, op);
      if op.DeliverOp? {
        DeliverFills(s, op.now, n);
      } else if op != CloseReceiver(n) {
        OtherOpKeepsReceiver(s, op, n);
      }
    }
  }

  // ---- Partitions and nodes over a run ----

  /** Two nodes are kept apart at `now`: by a partition created since the last healing that
      has not run out and holds exactly one of them. */
  ghost predicate KeptApart(ops: seq<Op>, n: nat, a: NodeId, b: NodeId, now: nat)
    requires n <= |ops|
  {
    exists k | 0 <= k < n :: SeparatedBy(ops, k, n, a, b, now)
  }

  ghost predicate SeparatedBy(ops: seq<Op>, k: nat, n: nat, a: NodeId, b: NodeId, now: nat)
    requires k < n <= |ops|
  {
    && ops[k].CreatePartition?
    && (forall h | k < h < n :: ops[h] != HealPartitions)
    && now < ops[k].p.startedAt + ops[k].p.duration
    && (a in ops[k].p.nodes <==> b !in ops[k].p.nodes)
  }

  lemma KeptApartStep(ops: seq<Op>, n: nat, a: NodeId, b: NodeId, now: nat)
    requires 0 < n <= |ops|
    ensures KeptApart(ops, n, a, b, now) <==>
            (ops[n - 1] != HealPartitions && KeptApart(ops, n - 1, a, b, now)) || SeparatedBy(ops, n - 1, n, a, b, now)
  {
    if k :| 0 <= k < n && SeparatedBy(ops, k, n, a, b, now) {
      if k < n - 1 {
        assert SeparatedBy(ops, k, n - 1, a, b, now);
      }
    }
    if ops[n - 1] != HealPartitions && KeptApart(ops, n - 1, a, b, now) {
      var k :| 0 <= k < n - 1 && SeparatedBy(ops, k, n - 1, a, b, now);
      assert SeparatedBy(ops, k, n, a, b, now);
    }
  }

  lemma PartitionedLast(ps: seq<Partition>, p: Partition, a: NodeId, b: NodeId, now: nat)
    ensures Partitioned(ps + [p], a, b, now) <==> Partitioned(ps, a, b, now) || (Active(p, now) && Separates(p, a, b))
  {
    if i :| 0 <= i < |ps| && Active(ps[i], now) && Separates(ps[i], a, b) {
      assert (ps + [p])[i] == ps[i];
    }
    assert (ps + [p])[|ps|] == p;
  }

  lemma DeliverKeepsPartitions(s: State, now: nat)
    ensures Deliver(s, now).partitions == s.partitions
  {
    DeliverTakes(s, now);
  }

  lemma StepApart(s: State, op: Op, a: NodeId, b: NodeId, now: nat)
    requires op.CleanupPartitions? ==> op.now <= now
    ensures Partitioned(Step(s, op).partitions, a, b, now) <==>
            || (op != HealPartitions && Partitioned(s.partitions, a, b, now))
            || (op.CreatePartition? && Active(op.p, now) && Separates(op.p, a, b))
  {
    match op {
      case CreatePartition(p) => PartitionedLast(s.partitions, p, a, b, now);
      case CleanupPartitions(cleaned) => CleanupIsInvisible(s.partitions, cleaned, a, b, now);
      case DeliverOp(t) => DeliverKeepsPartitions(s, t);
      case _ =>
    }
  }

  /** Who is kept apart is told by the partitions created and healed; cleaning up, as long as
      it does not run ahead of the clock, makes no difference. */
  lemma {:induction false} PartitionedIff(run: seq<State>, ops: seq<Op>, n: nat, a: NodeId, b: NodeId, now: nat)
    requires IsRun(run, ops) && n <= |ops|
    requires forall k | 0 <= k < n && ops[k].CleanupPartitions? :: ops[k].now <= now
    ensures Partitioned(run[n].partitions, a, b, now) <==> KeptApart(ops, n, a, b, now)
  {
    if n > 0 {
      PartitionedIff(run, ops, n - 1, a, b, now);
      assert run[n - 1 + 1] == Step(run[n - 1], ops[n - 1]);
      StepApart(run[n - 1], ops[n - 1], a, b, now);
      KeptApartStep(ops, n, a, b, now);
    }
  }

  /** A node is known exactly between being added and being removed. */
  ghost predicate Known(ops: seq<Op>, n: nat, node: NodeId)
    requires n <= |ops|
  {
    n > 0 && (ops[n - 1] == AddNode(node) || (ops[n - 1] != RemoveNode(node) && Known(ops, n - 1, node)))
  }

  lemma {:induction false} NodesAreKnown(run: seq<State>, ops: seq<Op>, n: nat, node: NodeId)
    requires IsRun(run, ops) && n <= |ops|
    ensures node in run[n].nodes <==> Known(ops, n, node)
  {
    if n > 0 {
      NodesAreKnown(run, ops, n - 1, node);
      assert run[n - 1 + 1] == Step(run[n - 1], ops[n - 1]);
      if ops[n - 1].DeliverOp? {
        DeliverTakes(run[n - 1], ops[n - 1].now);
      }
    }
  }
}

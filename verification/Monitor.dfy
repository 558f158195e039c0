/** The network monitor (`NetworkMonitor` in `rabia-core/src/network.rs`): what changed
    between two views of the connected nodes, told as events. */
module Monitor {
  import opened Types
  import opened Quorum

  datatype Event =
    | NodeConnected(n: NodeId)
    | NodeDisconnected(n: NodeId)
    | NetworkPartition(active: set<NodeId>)
    | QuorumLost
    | QuorumRestored(active: set<NodeId>)

  datatype State = State(connected: set<NodeId>, hasQuorum: bool)

  predicate HasQuorum(c: ClusterConfig, active: set<NodeId>) {
    |active| >= c.QuorumSize()
  }

  function New(c: ClusterConfig): State {
    State(c.nodes, HasQuorum(c, c.nodes))
  }

  /** `order` lists the elements of `s`, each once. */
  ghost predicate Lists(order: seq<NodeId>, s: set<NodeId>) {
    && (forall n :: n in order <==> n in s)
    && forall i, j | 0 <= i < j < |order| :: order[i] != order[j]
  }

  function Ups(order: seq<NodeId>): seq<Event> {
    seq(|order|, i requires 0 <= i < |order| => NodeConnected(order[i]))
  }

  function Downs(order: seq<NodeId>): seq<Event> {
    seq(|order|, i requires 0 <= i < |order| => NodeDisconnected(order[i]))
  }

  function QuorumChange(before: bool, after: bool, nodes: set<NodeId>): seq<Event> {
    if before && !after then [QuorumLost] else if !before && after then [QuorumRestored(nodes)] else []
  }

  /** The events of one update; `up` and `down` are the orders in which the newly
      connected and newly disconnected nodes happen to be visited. */
  function Events(c: ClusterConfig, s: State, nodes: set<NodeId>, up: seq<NodeId>, down: seq<NodeId>): seq<Event> {
    Ups(up) + Downs(down) + QuorumChange(s.hasQuorum, HasQuorum(c, nodes), nodes)
    + if nodes != s.connected then [NetworkPartition(nodes)] else []
  }

  function After(c: ClusterConfig, nodes: set<NodeId>): State {
    State(nodes, HasQuorum(c, nodes))
  }

  class NetworkMonitor {
    const config: ClusterConfig
    var connectedNodes: set<NodeId>
    var hasQuorum: bool

    function View(): State
      reads this
    {
      State(connectedNodes, hasQuorum)
    }

    constructor (config: ClusterConfig)
      ensures this.config == config && View() == New(config)
    {
      this.config := config;
      connectedNodes, hasQuorum := config.nodes, HasQuorum(config, config.nodes);
    }

    method UpdateConnectedNodes(nodes: set<NodeId>)
      returns (events: seq<Event>, ghost up: seq<NodeId>, ghost down: seq<NodeId>)
      modifies this
      ensures Lists(up, nodes - old(connectedNodes)) && Lists(down, old(connectedNodes) - nodes)
      ensures events == Events(config, old(View()), nodes, up, down)
      ensures View() == After(config, nodes)
    {
      var newlyConnected, newlyDisconnected := nodes - connectedNodes, connectedNodes - nodes;
      var ups := AnyOrder(newlyConnected);
      var downs := AnyOrder(newlyDisconnected);
      up, down := ups, downs;
      events := [];
      for i := 0 to |ups|
        invariant events == Ups(ups[..i])
      {
        events := events + [NodeConnected(ups[i])];
      }
      assert ups[..|ups|] == ups;
      for i := 0 to |downs|
        invariant events == Ups(ups) + Downs(downs[..i])
      {
        events := events + [NodeDisconnected(downs[i])];
      }
      assert downs[..|downs|] == downs;
      var newHasQuorum := HasQuorum(config, nodes);
      if hasQuorum && !newHasQuorum {
        events := events + [QuorumLost];
      } else if !hasQuorum && newHasQuorum {
        events := events + [QuorumRestored(nodes)];
      }
      assert newlyConnected == {} && newlyDisconnected == {} <==> nodes == connectedNodes;
      if newlyConnected != {} || newlyDisconnected != {} {
        events := events + [NetworkPartition(nodes)];
      }
      connectedNodes := nodes;
      hasQuorum := newHasQuorum;
    }
  }

  /** The order in which a set happens to be iterated. */
  method AnyOrder(s: set<NodeId>) returns (order: seq<NodeId>)
    ensures Lists(order, s)
  {
    order := [];
    var todo := s;
    while todo != {}
      invariant todo <= s && Lists(order, s - todo)
      decreases todo
    {
      var n :| n in todo;
      order := order + [n];
      todo := todo - {n};
    }
  }

  // ---- Runs ----

  datatype Update = Update(nodes: set<NodeId>, up: seq<NodeId>, down: seq<NodeId>)

  ghost predicate IsRun(c: ClusterConfig, run: seq<State>, us: seq<Update>) {
    && |run| == |us| + 1
    && run[0] == New(c)
    && forall i | 0 <= i < |us| ::
         && Lists(us[i].up, us[i].nodes - run[i].connected)
         && Lists(us[i].down, run[i].connected - us[i].nodes)
         && run[i + 1] == After(c, us[i].nodes)
  }

  /** All events emitted by the first `n` updates. */
  function Stream(c: ClusterConfig, run: seq<State>, us: seq<Update>, n: nat): seq<Event>
    requires n <= |us| <= |run|
  {
    if n == 0 then []
    else Stream(c, run, us, n - 1) + Events(c, run[n - 1], us[n - 1].nodes, us[n - 1].up, us[n - 1].down)
  }

  /** What a listener that follows node events believes to be connected. */
  function Follow(connected: set<NodeId>, es: seq<Event>): set<NodeId>
    decreases |es|
  {
    if es == [] then connected else Follow(Heard(connected, es[0]), es[1..])
  }

  function Heard(connected: set<NodeId>, e: Event): set<NodeId> {
    match e
    case NodeConnected(n) => connected + {n}
    case NodeDisconnected(n) => connected - {n}
    case _ => connected
  }

  /** What a listener that follows quorum events believes; `None` once a loss is reported
      without a quorum or a restoration with one. */
  function FollowQuorum(belief: Option<bool>, es: seq<Event>): Option<bool>
    decreases |es|
  {
    if es == [] then belief else FollowQuorum(HeardQuorum(belief, es[0]), es[1..])
  }

  function HeardQuorum(belief: Option<bool>, e: Event): Option<bool> {
    match e
    case QuorumLost => if belief == Some(true) then Some(false) else None
    case QuorumRestored(_) => if belief == Some(false) then Some(true) else None
    case _ => belief
  }

  lemma {:induction false} FollowAppend(connected: set<NodeId>, a: seq<Event>, b: seq<Event>)
    ensures Follow(connected, a + b) == Follow(Follow(connected, a), b)
    decreases |a|
  {
    if a == [] {
      assert a + b == b;
    } else {
      assert (a + b)[1..] == a[1..] + b;
      FollowAppend(Heard(connected, a[0]), a[1..], b);
    }
  }

  lemma {:induction false} FollowQuorumAppend(belief: Option<bool>, a: seq<Event>, b: seq<Event>)
    ensures FollowQuorum(belief, a + b) == FollowQuorum(FollowQuorum(belief, a), b)
    decreases |a|
  {
    if a == [] {
      assert a + b == b;
    } else {
      assert (a + b)[1..] == a[1..] + b;
      FollowQuorumAppend(HeardQuorum(belief, a[0]), a[1..], b);
    }
  }

  function Elements(order: seq<NodeId>): set<NodeId> {
    set n | n in order
  }

  lemma {:induction false} FollowUps(connected: set<NodeId>, order: seq<NodeId>, belief: Option<bool>)
    ensures Follow(connected, Ups(order)) == connected + Elements(order)
    ensures FollowQuorum(belief, Ups(order)) == belief
    decreases |order|
  {
    if order != [] {
      assert Ups(order)[1..] == Ups(order[1..]);
      FollowUps(connected + {order[0]}, order[1..], belief);
      assert Elements(order) == {order[0]} + Elements(order[1..]);
    }
  }

  lemma {:induction false} FollowDowns(connected: set<NodeId>, order: seq<NodeId>, belief: Option<bool>)
    ensures Follow(connected, Downs(order)) == connected - Elements(order)
    ensures FollowQuorum(belief, Downs(order)) == belief
    decreases |order|
  {
    if order != [] {
      assert Downs(order)[1..] == Downs(order[1..]);
      FollowDowns(connected - {order[0]}, order[1..], belief);
      assert Elements(order) == {order[0]} + Elements(order[1..]);
    }
  }

  lemma FollowTail(connected: set<NodeId>, belief: bool, after: bool, nodes: set<NodeId>, p: seq<Event>)
    requires p == [] || p == [NetworkPartition(nodes)]
    ensures Follow(connected, QuorumChange(belief, after, nodes) + p) == connected
    ensures FollowQuorum(Some(belief), QuorumChange(belief, after, nodes) + p) == Some(after)
  {
    FollowAppend(connected, QuorumChange(belief, after, nodes), p);
    FollowQuorumAppend(Some(belief), QuorumChange(belief, after, nodes), p);
  }

  lemma FollowParts(connected: set<NodeId>, up: seq<NodeId>, down: seq<NodeId>, tail: seq<Event>, belief: Option<bool>)
    ensures Follow(connected, Ups(up) + (Downs(down) + tail)) == Follow(connected + Elements(up) - Elements(down), tail)
    ensures FollowQuorum(belief, Ups(up) + (Downs(down) + tail)) == FollowQuorum(belief, tail)
  {
    var met := connected + Elements(up);
    FollowAppend(connected, Ups(up), Downs(down) + tail);
    FollowQuorumAppend(belief, Ups(up), Downs(down) + tail);
    FollowUps(connected, up, belief);
    FollowAppend(met, Downs(down), tail);
    FollowQuorumAppend(belief, Downs(down), tail);
    FollowDowns(met, down, belief);
  }

  lemma MeetsView(connected: set<NodeId>, nodes: set<NodeId>, up: seq<NodeId>, down: seq<NodeId>)
    requires Lists(up, nodes - connected) && Lists(down, connected - nodes)
    ensures connected + Elements(up) - Elements(down) == nodes
  {
    assert Elements(up) == nodes - connected;
    assert Elements(down) == connected - nodes;
  }

  lemma FollowUpdate(c: ClusterConfig, s: State, u: Update)
    requires Lists(u.up, u.nodes - s.connected) && Lists(u.down, s.connected - u.nodes)
    ensures Follow(s.connected, Events(c, s, u.nodes, u.up, u.down)) == u.nodes
    ensures FollowQuorum(Some(s.hasQuorum), Events(c, s, u.nodes, u.up, u.down)) == Some(HasQuorum(c, u.nodes))
  {
    var after := HasQuorum(c, u.nodes);
    var q := QuorumChange(s.hasQuorum, after, u.nodes);
    var p := if u.nodes != s.connected then [NetworkPartition(u.nodes)] else [];
    MeetsView(s.connected, u.nodes, u.up, u.down);
    FollowTail(u.nodes, s.hasQuorum, after, u.nodes, p);
    FollowParts(s.connected, u.up, u.down, q + p, Some(s.hasQuorum));
    ConcatAssociates(Ups(u.up) + Downs(u.down), q, p);
    ConcatAssociates(Ups(u.up), Downs(u.down), q + p);
  }

  // ---- What a quorum is ----

  /** A quorum is more than half of the configured nodes. */
  lemma QuorumIsMajority(c: ClusterConfig, active: set<NodeId>)
    ensures HasQuorum(c, active) <==> 2 * |active| > |c.nodes|
  {
  }

  /** Two views of the cluster that both have a quorum have a node in common. */
  lemma QuorumsMeet(c: ClusterConfig, a: set<NodeId>, b: set<NodeId>)
    requires a <= c.nodes && b <= c.nodes && HasQuorum(c, a) && HasQuorum(c, b)
    ensures exists n :: n in a && n in b
  {
    MajoritiesIntersect(c, a, b);
  }

  // ---- Views announced ----

  /** What a listener that follows the partition events takes for the current view, and how
      many it has heard. */
  function FollowViews(view: set<NodeId>, es: seq<Event>): (set<NodeId>, nat)
    decreases |es|
  {
    if es == [] then (view, 0)
    else
      var (after, heard) := FollowViews(view, es[..|es| - 1]);
      if es[|es| - 1].NetworkPartition? then (es[|es| - 1].active, heard + 1) else (after, heard)
  }

  lemma {:induction false} FollowViewsAppend(view: set<NodeId>, a: seq<Event>, b: seq<Event>)
    ensures FollowViews(view, a + b).0 == FollowViews(FollowViews(view, a).0, b).0
    ensures FollowViews(view, a + b).1 == FollowViews(view, a).1 + FollowViews(FollowViews(view, a).0, b).1
    decreases |b|
  {
    if b == [] {
      assert a + b == a;
    } else {
      assert (a + b)[..|a + b| - 1] == a + b[..|b| - 1];
      FollowViewsAppend(view, a, b[..|b| - 1]);
    }
  }

  lemma {:induction false} NoViews(view: set<NodeId>, es: seq<Event>)
    requires forall i | 0 <= i < |es| :: !es[i].NetworkPartition?
    ensures FollowViews(view, es) == (view, 0)
  {
    if es != [] {
      NoViews(view, es[..|es| - 1]);
    }
  }

  lemma ViewUpdate(c: ClusterConfig, s: State, u: Update)
    ensures FollowViews(s.connected, Events(c, s, u.nodes, u.up, u.down)) ==
            (u.nodes, if u.nodes != s.connected then 1 else 0)
  {
    var quiet := Ups(u.up) + Downs(u.down) + QuorumChange(s.hasQuorum, HasQuorum(c, u.nodes), u.nodes);
    NoViews(s.connected, quiet);
    if u.nodes != s.connected {
      assert (quiet + [NetworkPartition(u.nodes)])[..|quiet|] == quiet;
    } else {
      assert quiet + [] == quiet;
    }
  }

  /** How many of the first `n` updates changed the view. */
  function Changes(run: seq<State>, us: seq<Update>, n: nat): nat
    requires n <= |us| <= |run|
  {
    if n == 0 then 0 else Changes(run, us, n - 1) + if us[n - 1].nodes != run[n - 1].connected then 1 else 0
  }

  /** Every change of the view is announced by one partition event, which names the view. */
  lemma {:induction false} ViewsReplay(c: ClusterConfig, run: seq<State>, us: seq<Update>, n: nat)
    requires IsRun(c, run, us) && n <= |us|
    ensures FollowViews(run[0].connected, Stream(c, run, us, n)) == (run[n].connected, Changes(run, us, n))
  {
    if n > 0 {
      ViewsReplay(c, run, us, n - 1);
      var s, u := run[n - 1], us[n - 1];
      assert run[n - 1 + 1] == After(c, u.nodes);
      ViewStep(c, run[0].connected, Stream(c, run, us, n - 1), Changes(run, us, n - 1), s, u);
    }
  }

  lemma ViewStep(c: ClusterConfig, first: set<NodeId>, before: seq<Event>, changes: nat, s: State, u: Update)
    requires FollowViews(first, before) == (s.connected, changes)
    ensures FollowViews(first, before + Events(c, s, u.nodes, u.up, u.down)) ==
            (u.nodes, changes + if u.nodes != s.connected then 1 else 0)
  {
    FollowViewsAppend(first, before, Events(c, s, u.nodes, u.up, u.down));
    ViewUpdate(c, s, u);
  }

  /** A restoration names the view in which the quorum is back. */
  lemma {:induction false} RestorationsNameQuorums(c: ClusterConfig, run: seq<State>, us: seq<Update>, n: nat, active: set<NodeId>)
    requires IsRun(c, run, us) && n <= |us| && QuorumRestored(active) in Stream(c, run, us, n)
    ensures 2 * |active| > |c.nodes| && exists k: nat :: k <= n && run[k].connected == active
  {
    var s, u := run[n - 1], us[n - 1];
    if QuorumRestored(active) in Stream(c, run, us, n - 1) {
      RestorationsNameQuorums(c, run, us, n - 1, active);
    } else {
      RestorationInUpdate(c, s, u, active);
      assert run[n - 1 + 1] == After(c, u.nodes);
    }
  }

  lemma RestorationInUpdate(c: ClusterConfig, s: State, u: Update, active: set<NodeId>)
    requires QuorumRestored(active) in Events(c, s, u.nodes, u.up, u.down)
    ensures active == u.nodes && HasQuorum(c, active)
  {
  }

  /** Following the node events from the first view gives the connected set; losses and
      restorations of the quorum strictly alternate, beginning with a loss exactly when
      there was a quorum at first, and following them gives whether there is one now. */
  lemma {:induction false} EventsReplay(c: ClusterConfig, run: seq<State>, us: seq<Update>, n: nat)
    requires IsRun(c, run, us) && n <= |us|
    ensures Follow(run[0].connected, Stream(c, run, us, n)) == run[n].connected
    ensures FollowQuorum(Some(run[0].hasQuorum), Stream(c, run, us, n)) == Some(run[n].hasQuorum)
    ensures run[n].hasQuorum <==> 2 * |run[n].connected| > |c.nodes|
  {
    if n > 0 {
      EventsReplay(c, run, us, n - 1);
      var s, u := run[n - 1], us[n - 1];
      assert run[n - 1 + 1] == After(c, u.nodes);
      var before, es := Stream(c, run, us, n - 1), Events(c, s, u.nodes, u.up, u.down);
      FollowAppend(run[0].connected, before, es);
      FollowQuorumAppend(Some(run[0].hasQuorum), before, es);
      FollowUpdate(c, s, u);
    }
  }
}

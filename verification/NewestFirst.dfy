/** Sorting by timestamp, newest first, as a stable sort does it: entries with equal
    timestamps stay in the order of the log. The sort is told by the positions of the
    entries, so that two logs can be compared entry by entry. */
module NewestFirst {

  /** Puts position `i` behind every position at least as new. */
  function InsertIn(order: seq<nat>, times: seq<nat>, i: nat): (r: seq<nat>)
    requires i < |times| && forall a | 0 <= a < |order| :: order[a] < |times|
    ensures |r| == |order| + 1
    ensures forall a | 0 <= a < |r| :: r[a] == i || r[a] in order
  {
    if order == [] then [i]
    else
      var last := order[|order| - 1];
      if times[last] >= times[i] then order + [i] else InsertIn(order[..|order| - 1], times, i) + [last]
  }

  /** The first `n` positions, newest first. */
  function Order(times: seq<nat>, n: nat): (r: seq<nat>)
    requires n <= |times|
    ensures |r| == n && forall a | 0 <= a < n :: r[a] < n
  {
    if n == 0 then [] else InsertIn(Order(times, n - 1), times, n - 1)
  }

  /** Position `j` belongs before position `i`. */
  predicate Precedes(times: seq<nat>, j: nat, i: nat)
    requires j < |times| && i < |times|
  {
    times[j] > times[i] || (times[j] == times[i] && j < i)
  }

  function Before(times: seq<nat>, n: nat, i: nat): set<nat>
    requires n <= |times| && i < |times|
  {
    set j: nat | j < n && Precedes(times, j, i)
  }

  /** How many of the first `n` positions belong before `i`. */
  function Ahead(times: seq<nat>, n: nat, i: nat): nat
    requires n <= |times| && i < |times|
  {
    |Before(times, n, i)|
  }

  ghost predicate Distinct(order: seq<nat>) {
    forall a, b | 0 <= a < b < |order| :: order[a] != order[b]
  }

  ghost predicate Descending(order: seq<nat>, times: seq<nat>)
    requires forall a | 0 <= a < |order| :: order[a] < |times|
  {
    forall a, b | 0 <= a < b < |order| :: times[order[a]] >= times[order[b]]
  }

  /** The first `m` positions of `order` are at least as new as `i`, the others older. */
  ghost predicate Parts(order: seq<nat>, times: seq<nat>, i: nat, m: nat)
    requires i < |times| && forall a | 0 <= a < |order| :: order[a] < |times|
  {
    && m <= |order|
    && (forall a | 0 <= a < m :: times[order[a]] >= times[i])
    && (forall a | m <= a < |order| :: times[order[a]] < times[i])
  }

  lemma PartsAppend(most: seq<nat>, last: nat, times: seq<nat>, i: nat, m: nat)
    requires i < |times| && last < |times| && forall a | 0 <= a < |most| :: most[a] < |times|
    requires Parts(most, times, i, m) && times[last] < times[i]
    ensures Parts(most + [last], times, i, m)
    ensures most[..m] + [i] + most[m..] + [last] == (most + [last])[..m] + [i] + (most + [last])[m..]
  {
  }

  lemma {:induction false} InsertSplits(order: seq<nat>, times: seq<nat>, i: nat) returns (m: nat)
    requires i < |times| && (forall a | 0 <= a < |order| :: order[a] < |times|) && Descending(order, times)
    ensures Parts(order, times, i, m)
    ensures InsertIn(order, times, i) == order[..m] + [i] + order[m..]
  {
    if order == [] || times[order[|order| - 1]] >= times[i] {
      m := |order|;
      assert order[..m] == order && order[m..] == [];
    } else {
      var most, last := order[..|order| - 1], order[|order| - 1];
      assert order == most + [last];
      m := InsertSplits(most, times, i);
      PartsAppend(most, last, times, i, m);
    }
  }

  function Members(order: seq<nat>): set<nat> {
    set j | j in order
  }

  lemma MembersAppend(most: seq<nat>, last: nat)
    ensures Members(most + [last]) == Members(most) + {last}
  {
  }

  lemma {:induction false} DistinctCard(order: seq<nat>)
    requires Distinct(order)
    ensures |Members(order)| == |order|
  {
    if order == [] {
      assert Members(order) == {};
    } else {
      var most, last := order[..|order| - 1], order[|order| - 1];
      DistinctCard(most);
      assert last !in most;
      MembersAppend(most, last);
      assert order == most + [last];
    }
  }

  /** Position `i` is found where its rank says. */
  ghost predicate RankedAt(times: seq<nat>, n: nat, i: nat)
    requires n <= |times| && i < |times|
  {
    Ahead(times, n, i) < n && Order(times, n)[Ahead(times, n, i)] == i
  }

  ghost predicate Ranked(times: seq<nat>, n: nat)
    requires n <= |times|
  {
    forall i: nat | i < n :: RankedAt(times, n, i)
  }

  lemma OlderRank(times: seq<nat>, n: nat, i: nat)
    requires i < n < |times|
    ensures Ahead(times, n + 1, i) == Ahead(times, n, i) + if times[n] > times[i] then 1 else 0
  {
    if times[n] > times[i] {
      assert Before(times, n + 1, i) == Before(times, n, i) + {n};
    } else {
      assert Before(times, n + 1, i) == Before(times, n, i);
    }
  }

  lemma LastRank(times: seq<nat>, n: nat, m: nat)
    requires n < |times| && m <= n && Ranked(times, n) && Distinct(Order(times, n))
    requires Parts(Order(times, n), times, n, m)
    ensures Ahead(times, n + 1, n) == m
  {
    var front := Order(times, n)[..m];
    forall j: nat
      ensures j in Before(times, n + 1, n) <==> j in front
    {
      if j in Before(times, n + 1, n) {
        var a := Ahead(times, n, j);
        assert RankedAt(times, n, j);
        assert Order(times, n)[a] == j && a < m;
        assert front[a] == j;
      }
    }
    assert Before(times, n + 1, n) == Members(front);
    DistinctCard(front);
  }

  lemma InsertKeepsOrder(order: seq<nat>, times: seq<nat>, i: nat, m: nat, r: seq<nat>)
    requires i < |times| && (forall a | 0 <= a < |order| :: order[a] < i)
    requires Distinct(order) && Descending(order, times)
    requires m <= |order| && r == order[..m] + [i] + order[m..]
    requires Parts(order, times, i, m)
    ensures (forall a | 0 <= a < |r| :: r[a] < |times|) && Distinct(r) && Descending(r, times)
  {
    forall a | 0 <= a < |r|
      ensures r[a] == if a < m then order[a] else if a == m then i else order[a - 1]
    {
    }
  }

  lemma InsertMoves(order: seq<nat>, i: nat, m: nat, a: nat)
    requires m <= |order| && a < |order|
    ensures (order[..m] + [i] + order[m..])[if a < m then a else a + 1] == order[a]
  {
  }

  lemma OlderKeepsRank(times: seq<nat>, n: nat, m: nat, i: nat)
    requires i < n < |times| && m <= n
    requires Order(times, n + 1) == Order(times, n)[..m] + [n] + Order(times, n)[m..]
    requires Parts(Order(times, n), times, n, m)
    requires RankedAt(times, n, i)
    ensures RankedAt(times, n + 1, i)
  {
    OlderRank(times, n, i);
    InsertMoves(Order(times, n), n, m, Ahead(times, n, i));
  }

  lemma InsertKeepsRanks(times: seq<nat>, n: nat, m: nat)
    requires n < |times| && m <= n && Ranked(times, n) && Distinct(Order(times, n))
    requires Order(times, n + 1) == Order(times, n)[..m] + [n] + Order(times, n)[m..]
    requires Parts(Order(times, n), times, n, m)
    ensures Ranked(times, n + 1)
  {
    LastRank(times, n, m);
    var next: nat := n + 1;
    forall i: nat | i < next
      ensures RankedAt(times, next, i)
    {
      if i < n {
        OlderKeepsRank(times, n, m, i);
      }
    }
  }

  /** The sort is a permutation of the positions, newest first and stable: position `i`
      stands behind exactly those that precede it. */
  lemma {:induction false} OrderIsRanked(times: seq<nat>, n: nat)
    requires n <= |times|
    ensures Distinct(Order(times, n)) && Descending(Order(times, n), times) && Ranked(times, n)
  {
    if n > 0 {
      var k: nat := n - 1;
      OrderIsRanked(times, k);
      var m := InsertSplits(Order(times, k), times, k);
      InsertKeepsOrder(Order(times, k), times, k, m, Order(times, n));
      InsertKeepsRanks(times, k, m);
    }
  }

  function Ranks(times: seq<nat>): seq<nat> {
    seq(|times|, i requires 0 <= i < |times| => Ahead(times, |times|, i))
  }

  /** `ranks` says where in `order` each position stands. */
  ghost predicate Places(order: seq<nat>, ranks: seq<nat>) {
    && |order| == |ranks|
    && (forall i | 0 <= i < |ranks| :: ranks[i] < |order| && order[ranks[i]] == i)
    && forall a | 0 <= a < |order| :: order[a] < |ranks| && ranks[order[a]] == a
  }

  lemma RanksPlace(times: seq<nat>)
    ensures Places(Order(times, |times|), Ranks(times))
  {
    OrderIsRanked(times, |times|);
    var order, ranks := Order(times, |times|), Ranks(times);
    forall i | 0 <= i < |ranks|
      ensures ranks[i] < |order| && order[ranks[i]] == i
    {
      assert RankedAt(times, |times|, i) && ranks[i] == Ahead(times, |times|, i);
    }
    DistinctPlaces(order, ranks);
  }

  lemma DistinctPlaces(order: seq<nat>, ranks: seq<nat>)
    requires Distinct(order) && |order| == |ranks|
    requires forall a | 0 <= a < |order| :: order[a] < |ranks|
    requires forall i | 0 <= i < |ranks| :: ranks[i] < |order| && order[ranks[i]] == i
    ensures Places(order, ranks)
  {
    forall a | 0 <= a < |order|
      ensures ranks[order[a]] == a
    {
      assert order[ranks[order[a]]] == order[a];
    }
  }

  function Take(order: seq<nat>, k: nat): seq<nat> {
    if k < |order| then order[..k] else order
  }

  /** Every position that either side places among the first `k` has one rank on both. */
  ghost predicate SameRanks(ranks1: seq<nat>, ranks2: seq<nat>, k: nat)
    requires |ranks1| == |ranks2|
  {
    forall i | 0 <= i < |ranks1| :: ranks1[i] < k || ranks2[i] < k ==> ranks1[i] == ranks2[i]
  }

  lemma TakesAgreeRanksAgree(order1: seq<nat>, ranks1: seq<nat>, order2: seq<nat>, ranks2: seq<nat>, k: nat, i: nat)
    requires Places(order1, ranks1) && Places(order2, ranks2) && i < |ranks1| == |ranks2|
    requires Take(order1, k) == Take(order2, k) && ranks1[i] < k
    ensures ranks1[i] == ranks2[i]
  {
    var a := ranks1[i];
    assert Take(order1, k)[a] == order1[a] && Take(order2, k)[a] == order2[a];
  }

  lemma PlacesAgreeIff(order1: seq<nat>, ranks1: seq<nat>, order2: seq<nat>, ranks2: seq<nat>, k: nat)
    requires Places(order1, ranks1) && Places(order2, ranks2) && |ranks1| == |ranks2|
    ensures Take(order1, k) == Take(order2, k) <==> SameRanks(ranks1, ranks2, k)
  {
    if Take(order1, k) == Take(order2, k) {
      forall i | 0 <= i < |ranks1| && (ranks1[i] < k || ranks2[i] < k)
        ensures ranks1[i] == ranks2[i]
      {
        if ranks1[i] < k {
          TakesAgreeRanksAgree(order1, ranks1, order2, ranks2, k, i);
        } else {
          TakesAgreeRanksAgree(order2, ranks2, order1, ranks1, k, i);
        }
      }
    }
    if SameRanks(ranks1, ranks2, k) {
      forall a | 0 <= a < |order1| && a < k
        ensures order1[a] == order2[a]
      {
        assert ranks1[order1[a]] == a;
      }
    }
  }

  /** The first `k` entries of two logs agree, place by place, exactly when every entry
      that either shows has equally many entries to stand behind in both. */
  lemma TakesAgreeIff(times1: seq<nat>, times2: seq<nat>, k: nat)
    requires |times1| == |times2|
    ensures Take(Order(times1, |times1|), k) == Take(Order(times2, |times2|), k) <==>
            SameRanks(Ranks(times1), Ranks(times2), k)
  {
    RanksPlace(times1);
    RanksPlace(times2);
    PlacesAgreeIff(Order(times1, |times1|), Ranks(times1), Order(times2, |times2|), Ranks(times2), k);
  }

  /** Whatever is ranked alike among the first `k` is labelled alike. */
  ghost predicate SameLabels<T>(labels: seq<T>, ranks1: seq<nat>, ranks2: seq<nat>, k: nat)
    requires |labels| == |ranks1| == |ranks2|
  {
    forall i, j | 0 <= i < |ranks1| && 0 <= j < |ranks2| :: ranks1[i] == ranks2[j] < k ==> labels[i] == labels[j]
  }

  function LabelsOf<T>(labels: seq<T>, order: seq<nat>): seq<T>
    requires forall a | 0 <= a < |order| :: order[a] < |labels|
  {
    seq(|order|, a requires 0 <= a < |order| => labels[order[a]])
  }

  /** Two orders show the same labels among the first `k` exactly when whatever they rank
      alike there is labelled alike. */
  lemma LabelsAgreeIff<T>(labels: seq<T>, order1: seq<nat>, ranks1: seq<nat>, order2: seq<nat>, ranks2: seq<nat>, k: nat)
    requires |labels| == |ranks1| == |ranks2| && Places(order1, ranks1) && Places(order2, ranks2)
    ensures LabelsOf(labels, Take(order1, k)) == LabelsOf(labels, Take(order2, k)) <==>
            SameLabels(labels, ranks1, ranks2, k)
  {
    var shown1, shown2 := LabelsOf(labels, Take(order1, k)), LabelsOf(labels, Take(order2, k));
    if shown1 == shown2 {
      forall i, j | 0 <= i < |ranks1| && 0 <= j < |ranks2| && ranks1[i] == ranks2[j] < k
        ensures labels[i] == labels[j]
      {
        assert shown1[ranks1[i]] == labels[i] && shown2[ranks2[j]] == labels[j];
      }
    }
    if SameLabels(labels, ranks1, ranks2, k) {
      forall a | 0 <= a < |shown1|
        ensures shown1[a] == shown2[a]
      {
        assert ranks1[order1[a]] == a == ranks2[order2[a]];
      }
    }
  }
}

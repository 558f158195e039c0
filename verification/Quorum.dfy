/** Cluster membership and quorum sizes. Quorum intersection, which the protocol
    description takes as an axiom, is derived here by counting. */
module Quorum {
  import opened Types

  datatype ClusterConfig = ClusterConfig(nodes: set<NodeId>) {
    /** The smallest number of nodes that counts as a majority. */
    function QuorumSize(): nat {
      |nodes| / 2 + 1
    }

    /** The smallest size that makes a set of nodes meet every majority. */
    function FPlusOne(): nat {
      |nodes| - |nodes| / 2
    }

    predicate IsMajority(q: set<NodeId>) {
      q <= nodes && |q| >= QuorumSize()
    }

    predicate IsFPlusOne(f: set<NodeId>) {
      f <= nodes && |f| >= FPlusOne()
    }
  }

  lemma SubsetCard<T>(a: set<T>, b: set<T>)
    requires a <= b
    ensures |a| <= |b|
  {
    assert b == a + (b - a);
  }

  /** Two subsets that together outnumber the whole share an element. */
  lemma Pigeonhole<T>(a: set<T>, b: set<T>, whole: set<T>)
    requires a <= whole && b <= whole
    requires |a| + |b| > |whole|
    ensures exists x :: x in a && x in b
  {
    if a * b == {} {
      SubsetCard(a + b, whole);
      assert false;
    }
    var x :| x in a * b;
    assert x in a && x in b;
  }

  lemma MajoritiesIntersect(c: ClusterConfig, q1: set<NodeId>, q2: set<NodeId>)
    requires c.IsMajority(q1) && c.IsMajority(q2)
    ensures exists n :: n in q1 && n in q2
  {
    Pigeonhole(q1, q2, c.nodes);
  }

  lemma MajorityMeetsFPlusOne(c: ClusterConfig, q: set<NodeId>, f: set<NodeId>)
    requires c.IsMajority(q) && c.IsFPlusOne(f)
    ensures exists n :: n in q && n in f
  {
    Pigeonhole(q, f, c.nodes);
  }

  /** The threshold `FPlusOne` is exact: a set of nodes meets every majority
      if and only if it reaches that size. */
  lemma MeetsEveryMajorityIff(c: ClusterConfig, f: set<NodeId>)
    requires f <= c.nodes
    ensures c.IsFPlusOne(f) <==> forall q :: c.IsMajority(q) ==> exists n :: n in q && n in f
  {
    if c.IsFPlusOne(f) {
      forall q | c.IsMajority(q)
        ensures exists n :: n in q && n in f
      {
        MajorityMeetsFPlusOne(c, q, f);
      }
    } else {
      var rest := c.nodes - f;
      assert c.nodes == f + rest;
      assert c.IsMajority(rest);
    }
  }

  /** The quorum size is exact too: it is the least size that makes any two
      sets of that size meet, for every cluster. */
  lemma QuorumSizeIsLeast(c: ClusterConfig, k: nat)
    requires k <= |c.nodes|
    ensures k >= c.QuorumSize() <==>
            forall a, b | a <= c.nodes && b <= c.nodes && |a| == k && |b| == k :: exists n :: n in a && n in b
  {
    if k >= c.QuorumSize() {
      forall a, b | a <= c.nodes && b <= c.nodes && |a| == k && |b| == k
        ensures exists n :: n in a && n in b
      {
        MajoritiesIntersect(c, a, b);
      }
    } else {
      var a := TakeSubset(c.nodes, k);
      var b := TakeSubset(c.nodes - a, k);
      assert a <= c.nodes && b <= c.nodes && |a| == k && |b| == k;
      assert !exists n :: n in a && n in b;
    }
  }

  lemma TakeSubset<T>(s: set<T>, k: nat) returns (t: set<T>)
    requires k <= |s|
    ensures t <= s && |t| == k
  {
    if k == 0 {
      t := {};
    } else {
      var x :| x in s;
      var t' := TakeSubset(s - {x}, k - 1);
      t := t' + {x};
    }
  }
}

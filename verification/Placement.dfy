/** Placing a stripe: every part of it goes to a cluster of its own, on nodes of its own. */
module Placement {
  import opened Listing
  import opened Partitions

  /** The nodes of each cluster, equally many, and the cluster of each node. */
  datatype Topology = Topology(clusters: seq<seq<nat>>, perCluster: nat, map2cluster: map<nat, nat>)

  ghost predicate TopologyOk(t: Topology) {
    forall c :: 0 <= c < |t.clusters| ==> ClusterOk(t, c)
  }

  ghost predicate ClusterOk(t: Topology, c: nat)
    requires c < |t.clusters|
  {
    && NoRepeats(t.clusters[c]) && |t.clusters[c]| == t.perCluster
    && forall x :: x in t.clusters[c] ==> x in t.map2cluster && t.map2cluster[x] == c
  }

  /** The blocks of a part are on different nodes of cluster c. */
  ghost predicate PartOn(t: Topology, part: seq<nat>, blocks2nodes: seq<nat>, c: nat) {
    && c < |t.clusters| && (forall a :: 0 <= a < |part| ==> part[a] < |blocks2nodes| && blocks2nodes[part[a]] in t.clusters[c])
    && forall a, a' :: 0 <= a < a' < |part| ==> blocks2nodes[part[a]] != blocks2nodes[part[a']]
  }

  ghost predicate PartsOn(t: Topology, plan: Partition, blocks2nodes: seq<nat>, chosen: seq<nat>) {
    |chosen| <= |plan| && forall p :: 0 <= p < |chosen| ==> PartOn(t, plan[p], blocks2nodes, chosen[p])
  }

  /** Puts the blocks of one part on randomly chosen nodes; fails when the nodes run out. */
  method PlacePart(t: Topology, c: nat, part: seq<nat>, blocks2nodes0: seq<nat>) returns (ok: bool, blocks2nodes: seq<nat>)
    requires TopologyOk(t) && c < |t.clusters| && NoRepeats(part) && forall a :: 0 <= a < |part| ==> part[a] < |blocks2nodes0|
    ensures ok <==> |part| <= t.perCluster
    ensures |blocks2nodes| == |blocks2nodes0|
    ensures forall u :: 0 <= u < |blocks2nodes| && u !in part ==> blocks2nodes[u] == blocks2nodes0[u]
    ensures ok ==> PartOn(t, part, blocks2nodes, c)
  {
    assert ClusterOk(t, c);
    blocks2nodes := blocks2nodes0;
    var freeNodes := t.clusters[c];
    for j := 0 to |part|
      invariant |blocks2nodes| == |blocks2nodes0| && NoRepeats(freeNodes) && |freeNodes| == t.perCluster - j
      invariant forall x :: x in freeNodes ==> x in t.clusters[c]
      invariant forall u :: 0 <= u < |blocks2nodes| && u !in part ==> blocks2nodes[u] == blocks2nodes0[u]
      invariant forall a :: 0 <= a < j ==> blocks2nodes[part[a]] in t.clusters[c] && blocks2nodes[part[a]] !in freeNodes
      invariant forall a, a' :: 0 <= a < a' < j ==> blocks2nodes[part[a]] != blocks2nodes[part[a']]
    {
      if |freeNodes| == 0 {
        return false, blocks2nodes;
      }
      var nodeIdx :| 0 <= nodeIdx < |freeNodes|;
      blocks2nodes := blocks2nodes[part[j] := freeNodes[nodeIdx]];
      OneTaken(freeNodes, nodeIdx);
      freeNodes := freeNodes[..nodeIdx] + freeNodes[nodeIdx + 1..];
    }
    ok := true;
  }

  ghost predicate PlanFits(t: Topology, plan: Partition, free: nat) {
    |plan| <= free && forall p :: 0 <= p < |plan| ==> |plan[p]| <= t.perCluster
  }

  /** The free clusters: distinct, and there. */
  ghost predicate FreeOk(t: Topology, free: seq<nat>) {
    NoRepeats(free) && forall i :: 0 <= i < |free| ==> free[i] < |t.clusters|
  }

  /** Of the clusters that were free, `chosen` have been taken and `free` are left. */
  ghost predicate Taken(free0: seq<nat>, chosen: seq<nat>, free: seq<nat>) {
    && NoRepeats(chosen) && NoRepeats(free) && |free| + |chosen| == |free0|
    && (forall c :: c in chosen ==> c in free0 && c !in free) && forall c :: c in free ==> c in free0
  }

  lemma TakeOneMore(free0: seq<nat>, chosen: seq<nat>, free: seq<nat>, i: nat)
    requires Taken(free0, chosen, free) && i < |free|
    ensures Taken(free0, chosen + [free[i]], free[..i] + free[i + 1..])
  {
    OneTaken(free, i);
    assert free[i] in free;
    forall c | c in chosen + [free[i]]
      ensures c in free0 && c !in free[..i] + free[i + 1..]
    {
    }
  }

  lemma NoneTaken(t: Topology, free0: seq<nat>)
    requires FreeOk(t, free0)
    ensures Taken(free0, [], free0)
  {
  }

  /** One part is placed; those placed before stay as they are. */
  lemma PartsOnMore(t: Topology, plan: Partition, n: nat, before: seq<nat>, after: seq<nat>, chosen: seq<nat>, c: nat)
    requires IsPartition(plan, n) && |before| == |after| == n && PartsOn(t, plan, before, chosen) && |chosen| < |plan|
    requires forall u :: 0 <= u < n && u !in plan[|chosen|] ==> after[u] == before[u]
    requires PartOn(t, plan[|chosen|], after, c)
    ensures PartsOn(t, plan, after, chosen + [c])
  {
    var i := |chosen|;
    NoRepeatsMeansApart(plan);
    hide IsPartition;
    forall p | 0 <= p < i
      ensures PartOn(t, plan[p], after, chosen[p])
    {
      assert PartOn(t, plan[p], before, chosen[p]);
      forall a | 0 <= a < |plan[p]|
        ensures after[plan[p][a]] == before[plan[p][a]]
      {
      }
    }
  }

  /** Each part goes to a randomly chosen free cluster, which is then no longer free. */
  method SelectNodesByRandom(t: Topology, free0: seq<nat>, plan: Partition, n: nat)
      returns (ok: bool, free: seq<nat>, blocks2nodes: seq<nat>, ghost chosen: seq<nat>)
    requires TopologyOk(t) && FreeOk(t, free0) && IsPartition(plan, n)
    ensures ok <==> PlanFits(t, plan, |free0|)
    ensures ok ==> |blocks2nodes| == n && |chosen| == |plan| && PartsOn(t, plan, blocks2nodes, chosen) && Taken(free0, chosen, free)
  {
    hide TopologyOk, IsPartition, PartOn, NoRepeats;
    free, chosen, blocks2nodes := free0, [], UpTo(n);
    NoneTaken(t, free0);
    for i := 0 to |plan|
      invariant |blocks2nodes| == n && |chosen| == i && PartsOn(t, plan, blocks2nodes, chosen) && Taken(free0, chosen, free)
      invariant forall p :: 0 <= p < i ==> |plan[p]| <= t.perCluster
    {
      if |free| == 0 {
        return false, free, blocks2nodes, chosen;
      }
      var clusterIdx :| 0 <= clusterIdx < |free|;
      var clusterId := free[clusterIdx];
      assert clusterId in free;
      PartOf(plan, n, i);
      ghost var before := blocks2nodes;
      ok, blocks2nodes := PlacePart(t, clusterId, plan[i], blocks2nodes);
      if !ok {
        return;
      }
      PartsOnMore(t, plan, n, before, blocks2nodes, chosen, clusterId);
      TakeOneMore(free0, chosen, free, clusterIdx);
      chosen := chosen + [clusterId];
      free := free[..clusterIdx] + free[clusterIdx + 1..];
    }
    ok := true;
  }

  // What a placed stripe is like.

  /** The cluster block u is on. */
  function ClusterAt(t: Topology, blocks2nodes: seq<nat>, u: nat): nat
    requires u < |blocks2nodes| && blocks2nodes[u] in t.map2cluster
  {
    t.map2cluster[blocks2nodes[u]]
  }

  ghost predicate NodesKnown(t: Topology, blocks2nodes: seq<nat>) {
    forall u :: 0 <= u < |blocks2nodes| ==> blocks2nodes[u] in t.map2cluster
  }

  /** All blocks are on different nodes, and two of them are on one cluster exactly if they are in one part. */
  ghost predicate Spread(t: Topology, plan: Partition, blocks2nodes: seq<nat>) {
    && NodesKnown(t, blocks2nodes) && NoRepeats(blocks2nodes)
    && forall u, v :: 0 <= u < |blocks2nodes| && 0 <= v < |blocks2nodes| ==>
         (ClusterAt(t, blocks2nodes, u) == ClusterAt(t, blocks2nodes, v) <==> SamePart(plan, u, v))
  }

  lemma WhereIs(plan: Partition, n: nat, u: nat) returns (p: nat, a: nat)
    requires IsPartition(plan, n) && u < n
    ensures p < |plan| && a < |plan[p]| && plan[p][a] == u
  {
    assert u in Concat(plan);
    var at :| 0 <= at < |Concat(plan)| && Concat(plan)[at] == u;
    p, a := FromConcat(plan, at);
  }

  lemma OnChosen(t: Topology, plan: Partition, n: nat, blocks2nodes: seq<nat>, chosen: seq<nat>, u: nat) returns (p: nat, a: nat)
    requires TopologyOk(t) && IsPartition(plan, n) && |blocks2nodes| == n && |chosen| == |plan| && u < n
    requires PartsOn(t, plan, blocks2nodes, chosen)
    ensures p < |plan| && a < |plan[p]| && plan[p][a] == u && blocks2nodes[u] in t.map2cluster
    ensures ClusterAt(t, blocks2nodes, u) == chosen[p] && chosen[p] in chosen
  {
    p, a := WhereIs(plan, n, u);
    assert PartOn(t, plan[p], blocks2nodes, chosen[p]);
    assert ClusterOk(t, chosen[p]);
  }

  lemma PartsAreSpread(t: Topology, plan: Partition, n: nat, blocks2nodes: seq<nat>, chosen: seq<nat>)
    requires TopologyOk(t) && IsPartition(plan, n) && |blocks2nodes| == n && |chosen| == |plan|
    requires PartsOn(t, plan, blocks2nodes, chosen) && NoRepeats(chosen)
    ensures Spread(t, plan, blocks2nodes)
    ensures forall u :: 0 <= u < n ==> ClusterAt(t, blocks2nodes, u) in chosen
  {
    hide TopologyOk, PartsOn, NoRepeats, IsPartition;
    forall u: nat | u < n
      ensures blocks2nodes[u] in t.map2cluster && ClusterAt(t, blocks2nodes, u) in chosen
    {
      var p, a := OnChosen(t, plan, n, blocks2nodes, chosen, u);
    }
    forall u: nat, v: nat | u < n && v < n
      ensures ClusterAt(t, blocks2nodes, u) == ClusterAt(t, blocks2nodes, v) <==> SamePart(plan, u, v)
    {
      TwoBlocks(t, plan, n, blocks2nodes, chosen, u, v);
    }
    NodesApart(t, plan, n, blocks2nodes, chosen);
  }

  lemma TwoBlocks(t: Topology, plan: Partition, n: nat, blocks2nodes: seq<nat>, chosen: seq<nat>, u: nat, v: nat)
    requires TopologyOk(t) && IsPartition(plan, n) && |blocks2nodes| == n && |chosen| == |plan|
    requires PartsOn(t, plan, blocks2nodes, chosen) && NoRepeats(chosen) && u < n && v < n
    ensures blocks2nodes[u] in t.map2cluster && blocks2nodes[v] in t.map2cluster
    ensures ClusterAt(t, blocks2nodes, u) == ClusterAt(t, blocks2nodes, v) <==> SamePart(plan, u, v)
    ensures u != v ==> blocks2nodes[u] != blocks2nodes[v]
  {
    hide TopologyOk, PartOn;
    var p, a := OnChosen(t, plan, n, blocks2nodes, chosen, u);
    var q, b := OnChosen(t, plan, n, blocks2nodes, chosen, v);
    NoRepeatsMeansApart(plan);
    if SamePart(plan, u, v) {
      var r :| 0 <= r < |plan| && u in plan[r] && v in plan[r];
      var c :| 0 <= c < |plan[r]| && plan[r][c] == u;
      var d :| 0 <= d < |plan[r]| && plan[r][d] == v;
    }
    if u != v && p == q {
      PartNodesApart(t, plan[p], blocks2nodes, chosen[p], a, b);
    }
  }

  lemma PartNodesApart(t: Topology, part: seq<nat>, blocks2nodes: seq<nat>, c: nat, a: nat, b: nat)
    requires PartOn(t, part, blocks2nodes, c) && a < |part| && b < |part| && a != b
    ensures blocks2nodes[part[a]] != blocks2nodes[part[b]]
  {
  }

  lemma NodesApart(t: Topology, plan: Partition, n: nat, blocks2nodes: seq<nat>, chosen: seq<nat>)
    requires TopologyOk(t) && IsPartition(plan, n) && |blocks2nodes| == n && |chosen| == |plan|
    requires PartsOn(t, plan, blocks2nodes, chosen) && NoRepeats(chosen)
    ensures NoRepeats(blocks2nodes)
  {
    hide TopologyOk, PartsOn, IsPartition;
    forall u: nat, v: nat | u < v < n
      ensures blocks2nodes[u] != blocks2nodes[v]
    {
      TwoBlocks(t, plan, n, blocks2nodes, chosen, u, v);
    }
  }
}

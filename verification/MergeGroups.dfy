/**
 The coordinator's tables of placed stripes. Stripes that are to be merged later form a group, and under
 dispersed placement the stripes of one group never share a cluster.
 */
module MergeGroups {
  import opened Listing
  import opened Partitions
  import opened Stripes
  import opened Placement

  datatype Placed = Placed(plan: Partition, info: StripeInfo)

  type Table = map<nat, Placed>

  /** Every block has a node and an id, the plan is a partition of the blocks, and its parts are on separate clusters. */
  ghost predicate PlacedOk(t: Topology, s: Placed) {
    && |s.info.blocks2nodes| == |s.info.blockIds| && IsPartition(s.plan, |s.info.blocks2nodes|)
    && Spread(t, s.plan, s.info.blocks2nodes)
  }

  ghost predicate AllPlaced(t: Topology, stripes: Table) {
    forall id :: id in stripes ==> PlacedOk(t, stripes[id])
  }

  /** Some block of the stripe is on cluster c. */
  ghost predicate Uses(t: Topology, s: Placed, c: nat) {
    exists u :: 0 <= u < |s.info.blocks2nodes| && s.info.blocks2nodes[u] in t.map2cluster
                && ClusterAt(t, s.info.blocks2nodes, u) == c
  }

  ghost predicate ShareNoCluster(t: Topology, s: Placed, s': Placed) {
    forall c :: Uses(t, s, c) ==> !Uses(t, s', c)
  }

  /** The stripes of a group are placed, and do not share clusters. */
  ghost predicate GroupApart(t: Topology, stripes: Table, group: seq<nat>)
    requires forall a :: 0 <= a < |group| ==> group[a] in stripes
  {
    forall a, b :: 0 <= a < b < |group| ==> ShareNoCluster(t, stripes[group[a]], stripes[group[b]])
  }

  /** No stripe of the group uses a free cluster. */
  ghost predicate FreeUnused(t: Topology, stripes: Table, group: seq<nat>, free: seq<nat>)
    requires forall a :: 0 <= a < |group| ==> group[a] in stripes
  {
    forall a, c :: 0 <= a < |group| && c in free ==> !Uses(t, stripes[group[a]], c)
  }

  /** Groups have at most x stripes, and all but the last have x; every stripe is in one place of one group. */
  ghost predicate GroupsOk(stripes: Table, groups: seq<seq<nat>>, x: nat) {
    && NoRepeats(Concat(groups)) && (forall id :: id in Concat(groups) <==> id in stripes)
    && (forall i :: 0 <= i < |groups| ==> 1 <= |groups[i]| <= x && (i < |groups| - 1 ==> |groups[i]| == x))
  }

  ghost predicate GroupsApart(t: Topology, stripes: Table, groups: seq<seq<nat>>) {
    forall i :: 0 <= i < |groups| ==> (forall a :: 0 <= a < |groups[i]| ==> groups[i][a] in stripes)
                                         && GroupApart(t, stripes, groups[i])
  }

  /** Block ids are given out once. */
  ghost predicate IdsOk(stripes: Table, curBlockId: nat) {
    && (forall id, u :: id in stripes && 0 <= u < |stripes[id].info.blockIds| ==> stripes[id].info.blockIds[u] < curBlockId)
    && forall id, u, id', u' ::
         (id in stripes && id' in stripes && 0 <= u < |stripes[id].info.blockIds| && 0 <= u' < |stripes[id'].info.blockIds|
          && stripes[id].info.blockIds[u] == stripes[id'].info.blockIds[u'])
         ==> id == id' && u == u'
  }

  /** The next ids. */
  function NextIds(cur: nat, n: nat): (r: seq<nat>)
    ensures |r| == n && forall u :: 0 <= u < n ==> r[u] == cur + u
  {
    seq(n, u requires 0 <= u < n => cur + u)
  }

  lemma IdsGrow(stripes: Table, cur: nat, id: nat, plan: Partition, blocks2nodes: seq<nat>)
    requires IdsOk(stripes, cur) && id !in stripes
    ensures IdsOk(stripes[id := Placed(plan, StripeInfo(blocks2nodes, NextIds(cur, |blocks2nodes|)))], cur + |blocks2nodes|)
  {
  }

  /** A new stripe opens a group when there is none, or the last is full. */
  predicate OpensGroup(groups: seq<seq<nat>>, x: nat) { groups == [] || |groups[|groups| - 1]| == x }

  function WithStripe(groups: seq<seq<nat>>, x: nat, id: nat): seq<seq<nat>> {
    if OpensGroup(groups, x) then groups + [[id]] else groups[|groups| - 1 := groups[|groups| - 1] + [id]]
  }

  lemma ConcatWith(groups: seq<seq<nat>>, x: nat, id: nat)
    ensures Concat(WithStripe(groups, x, id)) == Concat(groups) + [id]
  {
    if OpensGroup(groups, x) {
      ConcatSnoc(groups, [id]);
    } else {
      var n := |groups| - 1;
      assert WithStripe(groups, x, id)[..n] == groups[..n];
      assert Concat(groups[..n]) + (groups[n] + [id]) == (Concat(groups[..n]) + groups[n]) + [id];
    }
  }

  lemma GroupsGrow(stripes: Table, groups: seq<seq<nat>>, x: nat, id: nat, s: Placed)
    requires GroupsOk(stripes, groups, x) && id !in stripes && x >= 1
    ensures GroupsOk(stripes[id := s], WithStripe(groups, x, id), x)
  {
    ConcatWith(groups, x, id);
    var all := Concat(groups);
    assert id !in all;
    forall j | j in all + [id] <==> j in all || j == id {
    }
  }

  lemma StaysPlaced(t: Topology, stripes: Table, id: nat, s: Placed)
    requires AllPlaced(t, stripes) && PlacedOk(t, s)
    ensures AllPlaced(t, stripes[id := s])
  {
  }

  /** A stripe on free clusters joins the group. */
  lemma JoinsApart(t: Topology, stripes: Table, group: seq<nat>, free: seq<nat>, id: nat, s: Placed)
    requires (forall a :: 0 <= a < |group| ==> group[a] in stripes) && id !in stripes
    requires GroupApart(t, stripes, group) && FreeUnused(t, stripes, group, free)
    requires forall c :: Uses(t, s, c) ==> c in free
    ensures GroupApart(t, stripes[id := s], group + [id])
  {
    hide Uses;
    var stripes', group' := stripes[id := s], group + [id];
    forall a, b | 0 <= a < b < |group'|
      ensures ShareNoCluster(t, stripes'[group'[a]], stripes'[group'[b]])
    {
      if b < |group| {
        assert ShareNoCluster(t, stripes[group[a]], stripes[group[b]]);
      }
    }
  }

  /** The clusters that are left are not used by the group with the new stripe either. */
  lemma LeftUnused(t: Topology, stripes: Table, group: seq<nat>, free: seq<nat>, left: seq<nat>, id: nat, s: Placed)
    requires (forall a :: 0 <= a < |group| ==> group[a] in stripes) && id !in stripes && FreeUnused(t, stripes, group, free)
    requires forall c :: c in left ==> c in free && !Uses(t, s, c)
    ensures FreeUnused(t, stripes[id := s], group + [id], left)
  {
    hide Uses;
  }

  lemma OthersStayApart(t: Topology, stripes: Table, groups: seq<seq<nat>>, i: nat, id: nat, s: Placed)
    requires GroupsApart(t, stripes, groups) && i < |groups| && id !in stripes
    ensures (forall a :: 0 <= a < |groups[i]| ==> groups[i][a] in stripes) && GroupApart(t, stripes[id := s], groups[i])
  {
    hide ShareNoCluster;
    var g := groups[i];
    assert GroupApart(t, stripes, g);
    forall a, b | 0 <= a < b < |g|
      ensures ShareNoCluster(t, stripes[id := s][g[a]], stripes[id := s][g[b]])
    {
    }
  }

  /** The group the next stripe goes to. */
  function OpenGroup(groups: seq<seq<nat>>, x: nat): seq<nat> {
    if OpensGroup(groups, x) then [] else groups[|groups| - 1]
  }

  /** All the groups stay apart when a stripe on free clusters joins. */
  lemma GroupsStayApart(t: Topology, stripes: Table, groups: seq<seq<nat>>, x: nat, free: seq<nat>, id: nat, s: Placed)
    requires GroupsApart(t, stripes, groups) && GroupsOk(stripes, groups, x) && x >= 1 && id !in stripes
    requires OpenOk(t, stripes, groups, x, free) && forall c :: Uses(t, s, c) ==> c in free
    ensures GroupsApart(t, stripes[id := s], WithStripe(groups, x, id))
  {
    hide Uses, GroupsOk, GroupApart, FreeUnused;
    GroupsGrow(stripes, groups, x, id, s);
    var groups', g := WithStripe(groups, x, id), OpenGroup(groups, x);
    EmptyApart(t, stripes);
    forall i | 0 <= i < |groups'|
      ensures (forall a :: 0 <= a < |groups'[i]| ==> groups'[i][a] in stripes[id := s]) && GroupApart(t, stripes[id := s], groups'[i])
    {
      if i < |groups'| - 1 {
        OthersStayApart(t, stripes, groups, i, id, s);
      } else {
        assert groups'[i] == g + [id];
        JoinsApart(t, stripes, g, free, id, s);
      }
    }
  }

  lemma EmptyApart(t: Topology, stripes: Table)
    ensures GroupApart(t, stripes, [])
  {
  }

  /** A stripe placed on chosen clusters uses those clusters only. */
  lemma UsesChosen(t: Topology, plan: Partition, info: StripeInfo, free0: seq<nat>, chosen: seq<nat>, left: seq<nat>)
    requires TopologyOk(t) && IsPartition(plan, |info.blocks2nodes|) && |chosen| == |plan| && |info.blockIds| == |info.blocks2nodes|
    requires PartsOn(t, plan, info.blocks2nodes, chosen) && Taken(free0, chosen, left)
    ensures PlacedOk(t, Placed(plan, info))
    ensures forall c :: Uses(t, Placed(plan, info), c) ==> c in free0 && c !in left
  {
    PartsAreSpread(t, plan, |info.blocks2nodes|, info.blocks2nodes, chosen);
  }

  /** The open group's stripes are known and keep off the clusters in `free`. */
  ghost predicate OpenOk(t: Topology, stripes: Table, groups: seq<seq<nat>>, x: nat, free: seq<nat>) {
    && (forall a :: 0 <= a < |OpenGroup(groups, x)| ==> OpenGroup(groups, x)[a] in stripes)
    && FreeUnused(t, stripes, OpenGroup(groups, x), free)
  }

  lemma OpenStays(t: Topology, stripes: Table, groups: seq<seq<nat>>, x: nat, free: seq<nat>, left: seq<nat>, id: nat, s: Placed)
    requires OpenOk(t, stripes, groups, x, free) && id !in stripes
    requires forall c :: c in left ==> c in free && !Uses(t, s, c)
    ensures var groups' := WithStripe(groups, x, id);
            LastUnusedIn(t, stripes[id := s], groups', left)
  {
    hide Uses;
    LeftUnused(t, stripes, OpenGroup(groups, x), free, left, id, s);
    assert WithStripe(groups, x, id)[|WithStripe(groups, x, id)| - 1] == OpenGroup(groups, x) + [id];
  }

  /** No stripe of the last group uses a free cluster. */
  ghost predicate LastUnusedIn(t: Topology, stripes: Table, groups: seq<seq<nat>>, free: seq<nat>) {
    groups != [] ==>
      var g := groups[|groups| - 1];
      (forall a :: 0 <= a < |g| ==> g[a] in stripes) && FreeUnused(t, stripes, g, free)
  }

  lemma OpenFromLast(t: Topology, stripes: Table, groups: seq<seq<nat>>, x: nat, free: seq<nat>)
    requires OpensGroup(groups, x) || LastUnusedIn(t, stripes, groups, free)
    ensures OpenOk(t, stripes, groups, x, free)
  {
  }

  lemma TakenIsFree(t: Topology, free0: seq<nat>, chosen: seq<nat>, left: seq<nat>)
    requires FreeOk(t, free0) && Taken(free0, chosen, left)
    ensures FreeOk(t, left) && forall c :: c in left ==> c in free0
  {
    forall i | 0 <= i < |left|
      ensures left[i] < |t.clusters|
    {
      assert left[i] in left;
    }
  }

  lemma AllFree(t: Topology)
    ensures FreeOk(t, UpTo(|t.clusters|))
  {
  }

  class Coordinator {
    const topology: Topology
    const x: nat
    const dispersed: bool
    var curBlockId: nat
    var freeClusters: seq<nat>
    var mergeGroups: seq<seq<nat>>
    var stripes: Table

    /** Placed stripes are spread over clusters; under dispersed placement those of one group share none. */
    ghost predicate Valid()
      reads this
    {
      && TopologyOk(topology) && x >= 1 && FreeOk(topology, freeClusters)
      && AllPlaced(topology, stripes) && IdsOk(stripes, curBlockId) && GroupsOk(stripes, mergeGroups, x)
      && (dispersed ==> GroupsApart(topology, stripes, mergeGroups) && LastUnusedIn(topology, stripes, mergeGroups, freeClusters))
    }

    constructor (t: Topology, x: nat, dispersed: bool)
      requires TopologyOk(t) && x >= 1
      ensures Valid() && topology == t && this.x == x && this.dispersed == dispersed && stripes == map[] && mergeGroups == []
    {
      topology, this.x, this.dispersed, curBlockId, freeClusters, mergeGroups, stripes := t, x, dispersed, 0, [], [], map[];
    }

    /** The clusters a new stripe may go to: all of them, unless its group is already on some. */
    function Available(): nat
      reads this
    {
      if dispersed && !OpensGroup(mergeGroups, x) then |freeClusters| else |topology.clusters|
    }

    /**
     Gives a new stripe its block ids, its nodes and its place in a merge group. This fails only when there
     are too few available clusters, or a cluster has too few nodes for a part.
     */
    method GeneratePlacement(stripeId: nat, n: nat, plan: Partition) returns (ok: bool)
      requires Valid() && stripeId !in stripes && IsPartition(plan, n)
      modifies this
      ensures ok <==> PlanFits(topology, plan, old(Available()))
      ensures ok ==> Valid() && mergeGroups == WithStripe(old(mergeGroups), x, stripeId)
      ensures ok ==> stripeId in stripes && stripes == old(stripes)[stripeId := stripes[stripeId]]
      ensures ok ==> stripes[stripeId].plan == plan && stripes[stripeId].info.blockIds == NextIds(old(curBlockId), n)
      ensures ok ==> curBlockId == old(curBlockId) + n
    {
      hide FreeOk, AllPlaced, IdsOk, GroupsOk, GroupsApart, LastUnusedIn, TopologyOk, IsPartition, Taken, PartsOn, PlacedOk, Uses;
      var blockIds := NextIds(curBlockId, n);
      curBlockId := curBlockId + n;
      var newGroup := OpensGroup(mergeGroups, x);
      var blocks2nodes, left;
      ghost var chosen, free0;
      if dispersed {
        if newGroup {
          AllFree(topology);
          freeClusters := UpTo(|topology.clusters|);
        }
        free0 := freeClusters;
        ok, left, blocks2nodes, chosen := SelectNodesByRandom(topology, freeClusters, plan, n);
        freeClusters := left;
      } else {
        AllFree(topology);
        ok, left, blocks2nodes, chosen := SelectNodesByRandom(topology, UpTo(|topology.clusters|), plan, n);
        free0 := UpTo(|topology.clusters|);
      }
      if !ok {
        return;
      }
      var placed := Placed(plan, StripeInfo(blocks2nodes, blockIds));
      UsesChosen(topology, plan, placed.info, free0, chosen, left);
      StaysPlaced(topology, stripes, stripeId, placed);
      IdsGrow(stripes, old(curBlockId), stripeId, plan, blocks2nodes);
      GroupsGrow(stripes, mergeGroups, x, stripeId, placed);
      if dispersed {
        TakenIsFree(topology, free0, chosen, left);
        OpenFromLast(topology, stripes, mergeGroups, x, free0);
        OpenStays(topology, stripes, mergeGroups, x, free0, left, stripeId, placed);
        GroupsStayApart(topology, stripes, mergeGroups, x, free0, stripeId, placed);
      }
      stripes := stripes[stripeId := placed];
      mergeGroups := if newGroup then mergeGroups + [[stripeId]]
                     else mergeGroups[|mergeGroups| - 1 := mergeGroups[|mergeGroups| - 1] + [stripeId]];
    }
  }
}

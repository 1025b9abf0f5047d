/** Losing a whole cluster: what a stripe loses with it is one part of its partition, which the code can repair. */
module ClusterLoss {
  import opened Listing
  import opened Partitions
  import opened Placement
  import opened MergeGroups
  import LrcShape
  import LrcDecodable
  import LrcPartition
  import RsRepair
  import PcLayout
  import Peeling
  import PcRepair
  import PcPartition

  /** The blocks on cluster c, in order. */
  function LostWith(t: Topology, blocks2nodes: seq<nat>, c: nat, n: nat): seq<nat>
    requires n <= |blocks2nodes|
  {
    if n == 0 then []
    else
      var node := blocks2nodes[n - 1];
      LostWith(t, blocks2nodes, c, n - 1) + (if node in t.map2cluster && t.map2cluster[node] == c then [n - 1] else [])
  }

  lemma {:induction false} LostMembers(t: Topology, blocks2nodes: seq<nat>, c: nat, n: nat)
    requires NodesKnown(t, blocks2nodes) && n <= |blocks2nodes|
    ensures NoRepeats(LostWith(t, blocks2nodes, c, n))
    ensures forall u: nat :: u in LostWith(t, blocks2nodes, c, n) <==> u < n && ClusterAt(t, blocks2nodes, u) == c
  {
    if n > 0 {
      LostMembers(t, blocks2nodes, c, n - 1);
      var before := LostWith(t, blocks2nodes, c, n - 1);
      forall i | 0 <= i < |before|
        ensures before[i] < n - 1
      {
        assert before[i] in before;
      }
    }
  }

  /** Two lists without repetition of the same blocks. */
  ghost predicate SameSet(s: seq<nat>, s': seq<nat>) {
    NoRepeats(s) && NoRepeats(s') && forall x :: x in s <==> x in s'
  }

  /** What is lost with a cluster is nothing, or exactly one part. */
  lemma LostIsPart(t: Topology, s: Placed, c: nat) returns (p: nat)
    requires PlacedOk(t, s)
    ensures var n := |s.info.blocks2nodes|;
            var lost := LostWith(t, s.info.blocks2nodes, c, n);
            lost == [] || (p < |s.plan| && SameSet(lost, s.plan[p]))
  {
    var b2n := s.info.blocks2nodes;
    var n := |b2n|;
    var lost := LostWith(t, b2n, c, n);
    LostMembers(t, b2n, c, n);
    p := 0;
    if lost != [] {
      var u := lost[0];
      assert u in lost;
      var a;
      p, a := WhereIs(s.plan, n, u);
      PartOf(s.plan, n, p);
      forall v
        ensures v in lost <==> v in s.plan[p]
      {
        if v in s.plan[p] {
          var b :| 0 <= b < |s.plan[p]| && s.plan[p][b] == v;
          assert SamePart(s.plan, u, v);
        } else if v in lost {
          SameMeansIn(s.plan, n, p, u, v);
        }
      }
    }
  }

  lemma SameMeansIn(plan: Partition, n: nat, p: nat, u: nat, v: nat)
    requires IsPartition(plan, n) && p < |plan| && u in plan[p] && SamePart(plan, u, v)
    ensures v in plan[p]
  {
    NoRepeatsMeansApart(plan);
    var q :| 0 <= q < |plan| && u in plan[q] && v in plan[q];
    var a :| 0 <= a < |plan[p]| && plan[p][a] == u;
    var b :| 0 <= b < |plan[q]| && plan[q][b] == u;
  }

  lemma SameSetSize(s: seq<nat>, s': seq<nat>)
    requires SameSet(s, s')
    ensures |s| == |s'|
  {
    SizeOfElements(s);
    SizeOfElements(s');
    assert Elements(s) == Elements(s');
  }

  // Azure.

  lemma {:induction false} CountIsSet(s: seq<nat>, lo: int, hi: int)
    requires NoRepeats(s)
    ensures LrcDecodable.CountIn(s, lo, hi) == |set x | x in s && lo <= x < hi|
  {
    if s != [] {
      var n := |s| - 1;
      CountIsSet(s[..n], lo, hi);
      var before, now := set x | x in s[..n] && lo <= x < hi, set x | x in s && lo <= x < hi;
      assert s == s[..n] + [s[n]];
      if lo <= s[n] < hi {
        assert now == before + {s[n]} && s[n] !in before;
      } else {
        assert now == before;
      }
    }
  }

  lemma SameCounts(s: seq<nat>, s': seq<nat>, lo: int, hi: int)
    requires SameSet(s, s')
    ensures LrcDecodable.CountIn(s, lo, hi) == LrcDecodable.CountIn(s', lo, hi)
  {
    CountIsSet(s, lo, hi);
    CountIsSet(s', lo, hi);
    assert (set x | x in s && lo <= x < hi) == (set x | x in s' && lo <= x < hi);
  }

  lemma {:induction false} SameNeeds(c: LrcShape.Lrc, s: seq<nat>, s': seq<nat>, n: nat)
    requires LrcShape.LrcOk(c) && SameSet(s, s')
    ensures LrcDecodable.TotalNeed(c, s, n) == LrcDecodable.TotalNeed(c, s', n)
  {
    hide SameSet;
    if n > 0 {
      SameNeeds(c, s, s', n - 1);
      SameCounts(s, s', LrcDecodable.GroupLo(c, n - 1), LrcDecodable.GroupLo(c, n));
      SameCounts(s, s', c.k + c.g + n - 1, c.k + c.g + n);
    }
  }

  /** Any cluster can be lost: an Azure stripe placed by a partition whose parts are decodable stays decodable. */
  lemma AzureSurvivesCluster(t: Topology, s: Placed, c: LrcShape.Lrc, cluster: nat)
    requires PlacedOk(t, s) && LrcDecodable.AzureOk(c) && |s.info.blocks2nodes| == LrcShape.BlockNum(c)
    requires LrcPartition.AllDecodable(c, s.plan)
    ensures LrcDecodable.Decodable(c, LostWith(t, s.info.blocks2nodes, cluster, |s.info.blocks2nodes|))
  {
    hide SameSet, PlacedOk;
    var lost := LostWith(t, s.info.blocks2nodes, cluster, |s.info.blocks2nodes|);
    var p := LostIsPart(t, s, cluster);
    if lost == [] {
      LrcDecodable.SmallFailuresDecodable(c, lost);
    } else {
      SameNeeds(c, lost, s.plan[p], c.l);
      SameCounts(lost, s.plan[p], c.k, c.k + c.g);
      assert LrcDecodable.Decodable(c, s.plan[p]);
    }
  }

  // Reed-Solomon and product codes.

  lemma RsSurvivesCluster(t: Topology, s: Placed, m: nat, cluster: nat)
    requires PlacedOk(t, s) && forall i :: 0 <= i < |s.plan| ==> |s.plan[i]| <= m
    ensures RsRepair.CheckIfDecodable(m, LostWith(t, s.info.blocks2nodes, cluster, |s.info.blocks2nodes|))
  {
    var p := LostIsPart(t, s, cluster);
    if LostWith(t, s.info.blocks2nodes, cluster, |s.info.blocks2nodes|) != [] {
      SameSetSize(LostWith(t, s.info.blocks2nodes, cluster, |s.info.blocks2nodes|), s.plan[p]);
    }
  }

  lemma PcSurvivesCluster(t: Topology, s: Placed, pc: PcLayout.Params, hv: bool, cluster: nat)
    requires PlacedOk(t, s) && PcPartition.EachSurvives(pc, hv, s.plan)
    ensures var lost := LostWith(t, s.info.blocks2nodes, cluster, |s.info.blocks2nodes|);
            !Peeling.HasStoppingSet(PcRepair.Failed(pc, lost), PcRepair.ShapeOf(pc, hv))
  {
    hide Peeling.HasStoppingSet, PcRepair.ShapeOf, PlacedOk;
    var lost := LostWith(t, s.info.blocks2nodes, cluster, |s.info.blocks2nodes|);
    var p := LostIsPart(t, s, cluster);
    if lost == [] {
      PcPartition.ColumnsSurvive(pc, hv, []);
    } else {
      SameFailed(pc, lost, s.plan[p]);
    }
  }

  lemma SameFailed(pc: PcLayout.Params, s: seq<nat>, s': seq<nat>)
    requires SameSet(s, s')
    ensures PcRepair.Failed(pc, s) == PcRepair.Failed(pc, s')
  {
    hide PcLayout.RowCol2Bid;
    var g, g' := PcRepair.Failed(pc, s), PcRepair.Failed(pc, s');
    forall r | 0 <= r < PcLayout.Rows(pc)
      ensures g[r] == g'[r]
    {
    }
  }
}

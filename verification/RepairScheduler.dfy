/** The cross-rack link scheduler: pads the links to a regular graph and peels off perfect matchings. */
module Scheduling {
  import opened Links
  import opened Decomposition
  import opened Matching
  import opened Regularity

  /** A degree table in which a missing cluster counts as 0. */
  function At(degree: map<int, int>, i: int): int { if i in degree then degree[i] else 0 }

  ghost predicate DegreesOf(out: map<int, int>, into: map<int, int>, links: seq<ScheduledLink>) {
    && (forall i :: At(out, i) == OutW(links, i))
    && (forall i :: At(into, i) == InW(links, i))
  }

  ghost predicate BoundedBy(links: seq<ScheduledLink>, D: int) {
    && (forall i :: OutW(links, i) <= D)
    && (forall i :: InW(links, i) <= D)
  }

  /** `links` is `physical` with padding added: no cluster of `physical` that is full has padding. */
  ghost predicate Pads(links: seq<ScheduledLink>, physical: seq<ScheduledLink>, D: int) {
    && (forall s, d :: RealWeight(links, s, d) == RealWeight(physical, s, d))
    && (forall k :: 0 <= k < |links| && links[k].isDummy ==>
          OutW(physical, links[k].src) < D && InW(physical, links[k].dst) < D)
  }

  /** The links differ from `before` only in weight. */
  ghost predicate SameEnds(links: seq<ScheduledLink>, before: seq<ScheduledLink>) {
    |links| == |before| &&
    forall k :: 0 <= k < |links| ==> links[k] == before[k].(weight := links[k].weight)
  }

  /** m matches all of 1..n both ways, along links that still carry weight. */
  ghost predicate PerfectMatching(m: seq<int>, links: seq<ScheduledLink>, n: nat) {
    && |m| == n + 1 && Injective(m) && m[0] < 0
    && (forall v :: 1 <= v <= n ==> 1 <= m[v] <= n && HasEdge(links, m[v], v))
    && (forall a :: 1 <= a <= n ==> IsMatched(m, a))
  }

  /** `chosen` holds, for v = 1, 2, ..., the link through which destination v is matched. */
  ghost predicate Chosen(chosen: seq<int>, m: seq<int>, links: seq<ScheduledLink>) {
    |chosen| < |m| &&
    forall j :: 0 <= j < |chosen| ==>
      && 0 <= chosen[j] < |links|
      && links[chosen[j]].dst == j + 1 && links[chosen[j]].src == m[j + 1] && links[chosen[j]].weight > 0
  }

  ghost predicate MatchedUpTo(m: seq<int>, t: nat, i: int)
    requires t < |m|
  {
    exists v :: 1 <= v <= t && m[v] == i
  }

  /** The edges of a round being built from the first t matched destinations. */
  ghost predicate RoundSoFar(edges: seq<ScheduledLink>, m: seq<int>, t: nat)
    requires t < |m|
  {
    && (forall j :: 0 <= j < |edges| ==>
          edges[j].weight == 1 && !edges[j].isDummy && 1 <= edges[j].dst <= t && edges[j].src == m[edges[j].dst])
    && (forall i, j :: 0 <= i < j < |edges| ==> edges[i].dst < edges[j].dst)
  }

  /** What has been scheduled plus what is still to do is what there was. */
  ghost predicate Conserves(schedule: seq<ScheduleRound>, links: seq<ScheduledLink>, physical: seq<ScheduledLink>) {
    forall s, d :: RoundsUsing(schedule, s, d) + RealWeight(links, s, d) == RealWeight(physical, s, d)
  }

  lemma RoundIsMatching(edges: seq<ScheduledLink>, m: seq<int>, t: nat)
    requires t < |m| && Injective(m) && RoundSoFar(edges, m, t) && forall v :: 1 <= v <= t ==> m[v] >= 0
    ensures IsMatching(ScheduleRound(edges, 1))
  {
  }

  /** The number of destinations a search has not visited yet. */
  ghost function Unvisited(vis: seq<bool>): nat {
    if vis == [] then 0
    else Unvisited(vis[..|vis| - 1]) + (if vis[|vis| - 1] then 0 else 1)
  }

  lemma {:induction false} VisitingLeavesFewer(before: seq<bool>, after: seq<bool>, v: nat)
    requires |before| == |after| && v < |before| && !before[v] && after[v]
    requires forall w :: 0 <= w < |before| && before[w] ==> after[w]
    ensures Unvisited(after) < Unvisited(before)
  {
    var n := |before| - 1;
    if v < n {
      VisitingLeavesFewer(before[..n], after[..n], v);
    } else {
      NeverMore(before[..n], after[..n]);
    }
  }

  lemma {:induction false} NeverMore(before: seq<bool>, after: seq<bool>)
    requires |before| == |after|
    requires forall w :: 0 <= w < |before| && before[w] ==> after[w]
    ensures Unvisited(after) <= Unvisited(before)
  {
    if before != [] {
      NeverMore(before[..|before| - 1], after[..|after| - 1]);
    }
  }

  /** After a failed search every edge of u, and of each newly visited destination's source, is visited. */
  ghost predicate Exhausted(adj: seq<seq<int>>, m: seq<int>, before: seq<bool>, after: seq<bool>)
    requires |m| == |before| == |after| && UsesEdges(m, adj)
  {
    && (forall v :: 0 <= v < |m| && before[v] ==> after[v])
    && (forall v :: 0 <= v < |m| && after[v] && !before[v] ==>
          m[v] >= 0 && forall x :: x in adj[m[v]] ==> Visited(after, x))
  }

  class RepairScheduler {
    var maxNodes: int

    constructor ()
      ensures maxNodes == 0
    {
      maxNodes := 0;
    }

    method Dfs(u: int, adj: seq<seq<int>>, partner: array<int>, vis: array<bool>) returns (found: bool)
      requires 0 <= u < |adj| == partner.Length == vis.Length
      requires forall a, v :: 0 <= a < |adj| && v in adj[a] ==> 0 <= v < |adj|
      requires Injective(partner[..]) && UsesEdges(partner[..], adj)
      requires forall v :: 0 <= v < partner.Length && partner[v] == u ==> vis[v]
      modifies partner, vis
      ensures found ==> Augmented(old(partner[..]), partner[..], old(vis[..]), u) && UsesEdges(partner[..], adj)
      ensures !found ==> partner[..] == old(partner[..])
      ensures !found ==> Exhausted(adj, partner[..], old(vis[..]), vis[..])
      ensures !found ==> forall v :: v in adj[u] ==> Visited(vis[..], v)
      decreases Unvisited(vis[..])
    {
      ghost var m0, vis0 := partner[..], vis[..];
      for k := 0 to |adj[u]|
        invariant partner[..] == m0
        invariant Exhausted(adj, m0, vis0, vis[..])
        invariant forall j :: 0 <= j < k ==> Visited(vis[..], adj[u][j])
      {
        var v := adj[u][k];
        assert v in adj[u];
        if vis[v] {
          continue;
        }
        ghost var now := vis[..];
        vis[v] := true;
        assert vis[..] == now[v := true];
        var reached := partner[v] < 0;
        if !reached {
          VisitingLeavesFewer(vis0, vis[..], v);
          reached := Dfs(partner[v], adj, partner, vis);
        }
        if reached {
          if m0[v] < 0 {
            TakeFree(m0, vis0, now, v, u);
          } else {
            TakeOver(m0, partner[..], vis0, now, v, u);
          }
          ghost var m1 := partner[..];
          partner[v] := u;
          assert partner[..] == m1[v := u];
          return true;
        }
      }
      return false;
    }

    method SumDegrees(links: seq<ScheduledLink>)
      returns (outDegree: map<int, int>, inDegree: map<int, int>)
      requires LinksOk(links)
      modifies this
      ensures DegreesOf(outDegree, inDegree, links)
      ensures maxNodes >= 0 && EndsWithin(links, maxNodes)
    {
      outDegree, inDegree := map[], map[];
      maxNodes := 0;
      for k := 0 to |links|
        invariant maxNodes >= 0
        invariant forall j :: 0 <= j < k ==> links[j].src <= maxNodes && links[j].dst <= maxNodes
        invariant DegreesOf(outDegree, inDegree, links[..k])
      {
        var link := links[k];
        assert links[..k + 1] == links[..k] + [link];
        forall i {
          Extend(links[..k], link, i);
        }
        outDegree := outDegree[link.src := At(outDegree, link.src) + link.weight];
        inDegree := inDegree[link.dst := At(inDegree, link.dst) + link.weight];
        maxNodes := Max(maxNodes, Max(link.src, link.dst));
      }
      assert links[..|links|] == links;
    }

    method LargestDegree(outDegree: map<int, int>, inDegree: map<int, int>, ghost links: seq<ScheduledLink>)
      returns (maxDeg: int)
      requires LinksOk(links) && maxNodes >= 0 && EndsWithin(links, maxNodes)
      requires DegreesOf(outDegree, inDegree, links)
      ensures maxDeg >= 0 && IsMaxDegree(links, maxDeg)
    {
      maxDeg := 0;
      for i := 1 to maxNodes + 1
        invariant maxDeg >= 0
        invariant forall j :: 1 <= j < i ==> OutW(links, j) <= maxDeg && InW(links, j) <= maxDeg
        invariant maxDeg == 0 || exists h :: Hub(links, h, maxDeg)
      {
        var larger := Max(At(outDegree, i), At(inDegree, i));
        assert Hub(links, i, larger);
        maxDeg := Max(maxDeg, larger);
      }
      forall i
        ensures OutW(links, i) <= maxDeg && InW(links, i) <= maxDeg
      {
        if !(1 <= i <= maxNodes) {
          NothingBeyond(links, maxNodes, i);
        }
      }
    }

    /** The first receiver with room; there is one, because some sender is not full. */
    method FirstWithRoom(inDegree: map<int, int>, maxDeg: int,
                         ghost out: map<int, int>, ghost links: seq<ScheduledLink>, ghost i: int)
      returns (j: int)
      requires LinksOk(links) && maxNodes >= 0 && EndsWithin(links, maxNodes)
      requires DegreesOf(out, inDegree, links) && BoundedBy(links, maxDeg)
      requires 1 <= i <= maxNodes && At(out, i) < maxDeg
      ensures 1 <= j <= maxNodes && At(inDegree, j) < maxDeg
      ensures forall b :: 1 <= b < j ==> At(inDegree, b) == maxDeg
    {
      j := 1;
      while j <= maxNodes && !(At(inDegree, j) < maxDeg)
        invariant 1 <= j <= maxNodes + 1
        invariant forall b :: 1 <= b < j ==> At(inDegree, b) == InW(links, b) == maxDeg
      {
        assert InW(links, j) <= maxDeg;
        j := j + 1;
      }
      if j > maxNodes {
        SendersFull(links, maxNodes, maxDeg);
        assert false;
      }
    }

    /** Adds padding links out of cluster i until it is full. */
    method PadSender(i: int, links: seq<ScheduledLink>, out0: map<int, int>, in0: map<int, int>, maxDeg: int,
                     ghost physical: seq<ScheduledLink>)
      returns (padded: seq<ScheduledLink>, outDegree: map<int, int>, inDegree: map<int, int>)
      requires maxNodes >= 0 && 1 <= i <= maxNodes
      requires Padding(links, out0, in0, physical, maxNodes, maxDeg)
      ensures Padding(padded, outDegree, inDegree, physical, maxNodes, maxDeg)
      ensures NoLighter(padded, links) && OutW(padded, i) == maxDeg
    {
      padded, outDegree, inDegree := links, out0, in0;
      while At(outDegree, i) < maxDeg
        invariant Padding(padded, outDegree, inDegree, physical, maxNodes, maxDeg)
        invariant NoLighter(padded, links)
        decreases maxDeg - At(outDegree, i)
      {
        var j := FirstWithRoom(inDegree, maxDeg, outDegree, padded, i);
        var addWeight := Min(maxDeg - At(outDegree, i), maxDeg - At(inDegree, j));
        var padding := ScheduledLink(i, j, addWeight, true);
        PaddingStep(padded, padding, outDegree, inDegree, physical, maxNodes, maxDeg);
        padded := padded + [padding];
        outDegree := outDegree[i := At(outDegree, i) + addWeight];
        inDegree := inDegree[j := At(inDegree, j) + addWeight];
      }
    }

    method PadLinks(physical: seq<ScheduledLink>, out0: map<int, int>, in0: map<int, int>, maxDeg: int)
      returns (allLinks: seq<ScheduledLink>)
      requires PhysicalLinks(physical) && maxNodes >= 0 && EndsWithin(physical, maxNodes)
      requires DegreesOf(out0, in0, physical) && BoundedBy(physical, maxDeg)
      ensures LinksOk(allLinks) && EndsWithin(allLinks, maxNodes) && Regular(allLinks, maxNodes, maxDeg)
      ensures Pads(allLinks, physical, maxDeg)
    {
      var outDegree, inDegree := out0, in0;
      allLinks := physical;
      for i := 1 to maxNodes + 1
        invariant Padding(allLinks, outDegree, inDegree, physical, maxNodes, maxDeg)
        invariant forall a :: 1 <= a < i ==> OutW(allLinks, a) == maxDeg
      {
        allLinks, outDegree, inDegree := PadSender(i, allLinks, outDegree, inDegree, maxDeg, physical);
      }
      ReceiversFull(allLinks, maxNodes, maxDeg);
    }

    method Adjacency(links: seq<ScheduledLink>) returns (adj: seq<seq<int>>)
      requires LinksOk(links) && maxNodes >= 0 && EndsWithin(links, maxNodes)
      ensures |adj| == maxNodes + 1 && Describes(adj, links)
    {
      adj := seq(maxNodes + 1, _ => []);
      for k := 0 to |links|
        invariant |adj| == maxNodes + 1 && Describes(adj, links[..k])
      {
        var link := links[k];
        ghost var adj0 := adj;
        if link.weight > 0 {
          adj := adj[link.src := adj[link.src] + [link.dst]];
        }
        DescribesStep(adj0, adj, links, k);
      }
      assert links[..|links|] == links;
    }

    /** Searches for a destination for source i; the search always succeeds. */
    method MatchOne(i: int, adj: seq<seq<int>>, partner: array<int>, ghost links: seq<ScheduledLink>, ghost D: int)
      requires maxNodes >= 0 && LinksOk(links) && EndsWithin(links, maxNodes) && Regular(links, maxNodes, D) && D > 0
      requires |adj| == partner.Length == maxNodes + 1 && Describes(adj, links) && 1 <= i <= maxNodes
      requires Injective(partner[..]) && UsesEdges(partner[..], adj) && !IsMatched(partner[..], i)
      modifies partner
      ensures Injective(partner[..]) && UsesEdges(partner[..], adj)
      ensures forall a :: a >= 0 ==> (IsMatched(partner[..], a) <==> old(IsMatched(partner[..], a)) || a == i)
    {
      var vis := new bool[maxNodes + 1](_ => false);
      ghost var m0, none := partner[..], vis[..];
      EdgesInRange(adj, links, maxNodes);
      NotYetMatched(m0, i);
      var found := Dfs(i, adj, partner, vis);
      if !found {
        SearchCannotFail(links, maxNodes, D, adj, m0, vis[..], i);
        assert false;
      }
      AugmentedFromScratch(m0, partner[..], none, i);
    }

    method MatchAll(adj: seq<seq<int>>, ghost links: seq<ScheduledLink>, ghost D: int)
      returns (partner: array<int>)
      requires LinksOk(links) && maxNodes >= 0 && EndsWithin(links, maxNodes)
      requires Regular(links, maxNodes, D) && D > 0
      requires |adj| == maxNodes + 1 && Describes(adj, links)
      ensures fresh(partner) && PerfectMatching(partner[..], links, maxNodes)
    {
      partner := new int[maxNodes + 1](_ => -1);
      for i := 1 to maxNodes + 1
        invariant Injective(partner[..]) && UsesEdges(partner[..], adj)
        invariant forall a :: a >= 0 ==> (IsMatched(partner[..], a) <==> 1 <= a < i)
      {
        MatchOne(i, adj, partner, links, D);
      }
      PerfectAtEnd(partner[..], adj, links, maxNodes);
    }

    /** The first link from m[v] to v that still carries weight, for v = 1, 2, ... */
    method SelectLinks(partner: array<int>, links: seq<ScheduledLink>) returns (chosen: seq<int>)
      requires maxNodes >= 0 && PerfectMatching(partner[..], links, maxNodes)
      ensures |chosen| == maxNodes && Chosen(chosen, partner[..], links)
    {
      chosen := [];
      for v := 1 to maxNodes + 1
        invariant |chosen| == v - 1 && Chosen(chosen, partner[..], links)
      {
        var u := partner[v];
        assert HasEdge(links, u, v);
        if u != -1 {
          var k := 0;
          while k < |links| && !(links[k].src == u && links[k].dst == v && links[k].weight > 0)
            invariant 0 <= k <= |links|
            invariant forall j :: 0 <= j < k ==> !(links[j].src == u && links[j].dst == v && links[j].weight > 0)
          {
            k := k + 1;
          }
          chosen := chosen + [k];
        }
      }
    }

    /** Takes one task off each chosen link and collects the real ones into a round. */
    method Dispatch(chosen: seq<int>, before: seq<ScheduledLink>, ghost m: seq<int>)
      returns (round: ScheduleRound, links: seq<ScheduledLink>)
      requires LinksOk(before) && |chosen| + 1 == |m| && Injective(m) && Chosen(chosen, m, before)
      requires forall v :: 1 <= v < |m| ==> m[v] >= 0
      ensures SameEnds(links, before) && LinksOk(links)
      ensures Lightened(links, before, round.edges, m, |chosen|)
      ensures IsMatching(round) && round.weight == 1
      ensures round.edges == [] ==> forall j :: 0 <= j < |chosen| ==> before[chosen[j]].isDummy
    {
      var edges: seq<ScheduledLink> := [];
      links := before;
      for t := 0 to |chosen|
        invariant Dispatching(links, before, edges, chosen, m, t)
        invariant Lightened(links, before, edges, m, t)
      {
        var idx := chosen[t];
        ghost var links0, edges0 := links, edges;
        DispatchStep(links, before, edges, chosen, m, t);
        LightenStep(links, before, edges, m, t, idx);
        links := links[idx := links[idx].(weight := links[idx].weight - 1)];
        if !links[idx].isDummy {
          edges := edges + [ScheduledLink(links[idx].src, links[idx].dst, 1, false)];
        }
        assert links == links0[idx := LighterBy1(links0[idx])] && edges == edges0 + EdgeOf(links0[idx]);
      }
      RoundIsMatching(edges, m, |chosen|);
      round := ScheduleRound(edges, 1);
    }

    /** One pass of the schedule loop: matches every cluster and takes one task off each matched link. */
    method PeelRound(before: seq<ScheduledLink>, ghost R: int, ghost physical: seq<ScheduledLink>, ghost D: int,
                     ghost schedule: seq<ScheduleRound>)
      returns (round: ScheduleRound, links: seq<ScheduledLink>)
      requires maxNodes >= 0 && Peeling(schedule, before, physical, maxNodes, R, D) && R > 0
      ensures IsMatching(round) && round.weight == 1 && round.edges != []
      ensures Peeling(schedule + [round], links, physical, maxNodes, R - 1, D)
    {
      var adj := Adjacency(before);
      var partner := MatchAll(adj, before, R);
      var chosen := SelectLinks(partner, before);
      round, links := Dispatch(chosen, before, partner[..]);
      RoundStepAll(before, links, round, partner[..], maxNodes, R, schedule, physical);
      HubKeepsRoundFull(before, chosen, partner[..], physical, maxNodes, D);
    }

    /**
     Splits the links into rounds: every round is a non-empty matching, each pair of clusters sends in
     exactly as many rounds as it has tasks, and there are exactly as many rounds as the busiest
     cluster has tasks.
     */
    method ComputeSchedule(physicalLinks: seq<ScheduledLink>) returns (schedule: seq<ScheduleRound>)
      requires PhysicalLinks(physicalLinks)
      modifies this
      ensures Decomposes(schedule, physicalLinks)
      ensures IsMaxDegree(physicalLinks, |schedule|)
      ensures forall r :: 0 <= r < |schedule| ==> schedule[r].edges != [] && schedule[r].weight == 1
    {
      var outDegree, inDegree := SumDegrees(physicalLinks);
      var maxDeg := LargestDegree(outDegree, inDegree, physicalLinks);
      var allLinks := PadLinks(physicalLinks, outDegree, inDegree, maxDeg);
      schedule := [];
      ghost var n := maxNodes;
      while true
        invariant maxNodes == n && 0 <= |schedule| <= maxDeg
        invariant Peeling(schedule, allLinks, physicalLinks, n, maxDeg - |schedule|, maxDeg)
        invariant forall r :: 0 <= r < |schedule| ==>
                    IsMatching(schedule[r]) && schedule[r].edges != [] && schedule[r].weight == 1
        decreases maxDeg - |schedule|
      {
        var allZero := AllZero(allLinks);
        ZeroExactlyAtEnd(allLinks, n, maxDeg - |schedule|, physicalLinks, maxDeg);
        if allZero {
          break;
        }
        var round;
        round, allLinks := PeelRound(allLinks, maxDeg - |schedule|, physicalLinks, maxDeg, schedule);
        if round.edges != [] {
          schedule := schedule + [round];
        }
      }
      EverythingScheduled(schedule, allLinks, physicalLinks);
    }
  }

  method AllZero(links: seq<ScheduledLink>) returns (allZero: bool)
    requires LinksOk(links)
    ensures allZero <==> forall k :: 0 <= k < |links| ==> links[k].weight == 0
  {
    allZero := true;
    for k := 0 to |links|
      invariant allZero && forall j :: 0 <= j < k ==> links[j].weight == 0
    {
      if links[k].weight > 0 {
        return false;
      }
    }
  }

  /** The state of the schedule loop when every cluster has R tasks left. */
  ghost predicate Peeling(schedule: seq<ScheduleRound>, links: seq<ScheduledLink>, physical: seq<ScheduledLink>,
                          n: int, R: int, D: int) {
    && 0 <= n && 0 <= R <= D
    && LinksOk(links) && EndsWithin(links, n) && Regular(links, n, R)
    && PhysicalLinks(physical) && EndsWithin(physical, n) && IsMaxDegree(physical, D)
    && PaddingAvoidsFull(links, physical, D) && Conserves(schedule, links, physical)
  }

  lemma EverythingScheduled(schedule: seq<ScheduleRound>, links: seq<ScheduledLink>, physical: seq<ScheduledLink>)
    requires Conserves(schedule, links, physical)
    requires forall k :: 0 <= k < |links| ==> links[k].weight == 0
    requires forall r :: 0 <= r < |schedule| ==> IsMatching(schedule[r])
    ensures Decomposes(schedule, physical)
  {
    forall s, d
      ensures RoundsUsing(schedule, s, d) == RealWeight(physical, s, d)
    {
      WeightlessLinks(links, s, d);
      assert RoundsUsing(schedule, s, d) + RealWeight(links, s, d) == RealWeight(physical, s, d);
    }
  }

  function Max(a: int, b: int): int { if a < b then b else a }

  function Min(a: int, b: int): int { if b < a then b else a }

  ghost predicate NoLighter(links: seq<ScheduledLink>, physical: seq<ScheduledLink>) {
    forall i :: OutW(links, i) >= OutW(physical, i) && InW(links, i) >= InW(physical, i)
  }

  /** The state of the padding loops: the tables are right and only room has been filled. */
  ghost predicate Padding(links: seq<ScheduledLink>, out: map<int, int>, into: map<int, int>,
                          physical: seq<ScheduledLink>, n: int, D: int) {
    && n >= 0 && LinksOk(links) && EndsWithin(links, n)
    && DegreesOf(out, into, links) && BoundedBy(links, D)
    && Pads(links, physical, D) && NoLighter(links, physical)
  }

  /** Filling room with one padding link keeps the state of the padding loops. */
  lemma PaddingStep(links: seq<ScheduledLink>, padding: ScheduledLink, out: map<int, int>, into: map<int, int>,
                    physical: seq<ScheduledLink>, n: int, D: int)
    requires Padding(links, out, into, physical, n, D)
    requires padding.isDummy && padding.weight > 0 && 1 <= padding.src <= n && 1 <= padding.dst <= n
    requires At(out, padding.src) + padding.weight <= D && At(into, padding.dst) + padding.weight <= D
    ensures Padding(links + [padding], out[padding.src := At(out, padding.src) + padding.weight],
                    into[padding.dst := At(into, padding.dst) + padding.weight], physical, n, D)
    ensures NoLighter(links + [padding], links)
  {
    assert OutW(links, padding.src) < D && InW(links, padding.dst) < D;
    PaddingDegrees(links, padding, out, into, D);
    PaddingIsNotReal(links, padding, physical, D);
  }

  lemma PaddingDegrees(links: seq<ScheduledLink>, padding: ScheduledLink, out: map<int, int>, into: map<int, int>,
                       D: int)
    requires padding.weight > 0 && DegreesOf(out, into, links) && BoundedBy(links, D)
    requires At(out, padding.src) + padding.weight <= D && At(into, padding.dst) + padding.weight <= D
    ensures DegreesOf(out[padding.src := At(out, padding.src) + padding.weight],
                      into[padding.dst := At(into, padding.dst) + padding.weight], links + [padding])
    ensures BoundedBy(links + [padding], D) && NoLighter(links + [padding], links)
  {
    forall i {
      Extend(links, padding, i);
    }
  }

  lemma PaddingIsNotReal(links: seq<ScheduledLink>, padding: ScheduledLink, physical: seq<ScheduledLink>, D: int)
    requires padding.isDummy && Pads(links, physical, D) && NoLighter(links, physical)
    requires OutW(links, padding.src) < D && InW(links, padding.dst) < D
    ensures Pads(links + [padding], physical, D)
  {
    forall s, d {
      ExtendReal(links, padding, s, d);
    }
  }

  lemma NotYetMatched(m: seq<int>, i: int)
    requires !IsMatched(m, i)
    ensures forall v :: 0 <= v < |m| ==> m[v] != i
  {
    forall v | 0 <= v < |m|
      ensures m[v] != i
    {
      assert m[v] == i ==> IsMatched(m, i);
    }
  }

  lemma DescribesStep(adj0: seq<seq<int>>, adj: seq<seq<int>>, links: seq<ScheduledLink>, k: nat)
    requires k < |links| && LinksOk(links) && |adj0| > 0 && EndsWithin(links, |adj0| - 1)
    requires links[k].src < |adj0| && Describes(adj0, links[..k])
    requires adj == if links[k].weight > 0 then adj0[links[k].src := adj0[links[k].src] + [links[k].dst]] else adj0
    ensures Describes(adj, links[..k + 1])
  {
    forall a, v | 0 <= a < |adj|
      ensures v in adj[a] <==> HasEdge(links[..k + 1], a, v)
    {
      assert v in adj0[a] <==> HasEdge(links[..k], a, v);
      EdgeStep(links, k, a, v);
    }
  }

  lemma EdgeStep(links: seq<ScheduledLink>, k: nat, a: int, v: int)
    requires k < |links|
    ensures HasEdge(links[..k + 1], a, v)
            <==> HasEdge(links[..k], a, v) || (links[k].weight > 0 && links[k].src == a && links[k].dst == v)
  {
    var now, next := links[..k], links[..k + 1];
    if HasEdge(now, a, v) {
      var j :| 0 <= j < |now| && now[j].weight > 0 && now[j].src == a && now[j].dst == v;
      assert next[j] == now[j];
    }
    if HasEdge(next, a, v) {
      var j :| 0 <= j < |next| && next[j].weight > 0 && next[j].src == a && next[j].dst == v;
      assert j < k ==> now[j] == next[j];
    }
    assert next[k] == links[k];
  }

  lemma EdgesInRange(adj: seq<seq<int>>, links: seq<ScheduledLink>, n: nat)
    requires LinksOk(links) && EndsWithin(links, n) && |adj| == n + 1 && Describes(adj, links)
    ensures forall a, v :: 0 <= a < |adj| && v in adj[a] ==> 1 <= v <= n && 1 <= a
  {
    forall a, v | 0 <= a < |adj| && v in adj[a]
      ensures 1 <= v <= n && 1 <= a
    {
      assert HasEdge(links, a, v);
    }
  }

  lemma AugmentedFromScratch(m: seq<int>, m': seq<int>, none: seq<bool>, u: int)
    requires |m| == |m'| == |none| && (forall v :: 0 <= v < |none| ==> !none[v])
    requires Augmented(m, m', none, u)
    ensures Injective(m') && forall a :: a >= 0 ==> (IsMatched(m', a) <==> IsMatched(m, a) || a == u)
  {
    forall a | a >= 0
      ensures IsMatched(m', a) <==> IsMatched(m, a) || a == u
    {
      assert HasOutside(m', none, a) <==> HasOutside(m, none, a) || a == u;
      assert IsMatched(m, a) <==> HasOutside(m, none, a);
      assert IsMatched(m', a) <==> HasOutside(m', none, a);
    }
  }

  lemma PerfectAtEnd(m: seq<int>, adj: seq<seq<int>>, links: seq<ScheduledLink>, n: nat)
    requires LinksOk(links) && EndsWithin(links, n) && |adj| == |m| == n + 1 && Describes(adj, links)
    requires Injective(m) && UsesEdges(m, adj)
    requires forall a :: a >= 0 ==> (IsMatched(m, a) <==> 1 <= a < n + 1)
    ensures PerfectMatching(m, links, n)
  {
    EdgesInRange(adj, links, n);
    EveryDestinationMatched(m, n);
    forall v | 1 <= v <= n
      ensures 1 <= m[v] <= n && HasEdge(links, m[v], v)
    {
      assert v in adj[m[v]];
    }
  }

  /** After t of the chosen links each lost one task. */
  ghost predicate Lightened(links: seq<ScheduledLink>, before: seq<ScheduledLink>, edges: seq<ScheduledLink>,
                            m: seq<int>, t: nat)
  {
    && t < |m|
    && (forall i :: OutW(links, i) == OutW(before, i) - (if MatchedUpTo(m, t, i) then 1 else 0))
    && (forall i :: InW(links, i) == InW(before, i) - (if 1 <= i <= t then 1 else 0))
    && (forall s, d :: RealWeight(links, s, d) + RealWeight(edges, s, d) == RealWeight(before, s, d))
  }

  ghost function EdgeOf(link: ScheduledLink): seq<ScheduledLink> {
    if link.isDummy then [] else [ScheduledLink(link.src, link.dst, 1, false)]
  }

  lemma LightenStep(links: seq<ScheduledLink>, before: seq<ScheduledLink>, edges: seq<ScheduledLink>,
                    m: seq<int>, t: nat, idx: nat)
    requires t + 1 < |m| && Injective(m) && m[t + 1] >= 0 && idx < |links|
    requires Lightened(links, before, edges, m, t)
    requires links[idx].src == m[t + 1] && links[idx].dst == t + 1
    ensures Lightened(links[idx := LighterBy1(links[idx])], before, edges + EdgeOf(links[idx]), m, t + 1)
  {
    var after, edges' := links[idx := LighterBy1(links[idx])], edges + EdgeOf(links[idx]);
    forall i
      ensures OutW(after, i) == OutW(before, i) - (if MatchedUpTo(m, t + 1, i) then 1 else 0)
      ensures InW(after, i) == InW(before, i) - (if 1 <= i <= t + 1 then 1 else 0)
    {
      TakeUnit(links, idx, i, 0, 0);
      MatchedStep(m, t, i);
    }
    forall s, d
      ensures RealWeight(after, s, d) + RealWeight(edges', s, d) == RealWeight(before, s, d)
    {
      TakeUnit(links, idx, 0, s, d);
      if links[idx].isDummy {
        assert edges' == edges;
      } else {
        ExtendReal(edges, ScheduledLink(links[idx].src, links[idx].dst, 1, false), s, d);
      }
    }
  }

  /** The state of the dispatch loop after t of the chosen links. */
  ghost predicate Dispatching(links: seq<ScheduledLink>, before: seq<ScheduledLink>, edges: seq<ScheduledLink>,
                              chosen: seq<int>, m: seq<int>, t: nat) {
    && t <= |chosen| < |m| && SameEnds(links, before) && LinksOk(links) && Chosen(chosen, m, before)
    && (forall j :: t <= j < |chosen| ==> links[chosen[j]] == before[chosen[j]])
    && RoundSoFar(edges, m, t)
    && (edges == [] ==> forall j :: 0 <= j < t ==> before[chosen[j]].isDummy)
  }

  lemma DispatchStep(links: seq<ScheduledLink>, before: seq<ScheduledLink>, edges: seq<ScheduledLink>,
                     chosen: seq<int>, m: seq<int>, t: nat)
    requires t < |chosen| && Dispatching(links, before, edges, chosen, m, t)
    ensures Dispatching(links[chosen[t] := LighterBy1(links[chosen[t]])], before,
                        edges + EdgeOf(links[chosen[t]]), chosen, m, t + 1)
  {
    assert links[chosen[t]] == before[chosen[t]];
    assert forall j :: t < j < |chosen| ==> before[chosen[j]].dst == j + 1;
  }

  lemma MatchedStep(m: seq<int>, t: nat, i: int)
    requires t + 1 < |m| && Injective(m) && m[t + 1] >= 0
    ensures MatchedUpTo(m, t + 1, i) <==> MatchedUpTo(m, t, i) || m[t + 1] == i
    ensures MatchedUpTo(m, t, i) ==> m[t + 1] != i
  {
    if MatchedUpTo(m, t, i) {
      var v :| 1 <= v <= t && m[v] == i;
      assert v < t + 1 && m[v] != m[t + 1];
    }
    if MatchedUpTo(m, t + 1, i) {
      var v :| 1 <= v <= t + 1 && m[v] == i;
    }
  }

  /** A cluster that is full in `physical` has no padding on the side where it is full. */
  ghost predicate PaddingAvoidsFull(links: seq<ScheduledLink>, physical: seq<ScheduledLink>, D: int) {
    forall k :: 0 <= k < |links| && links[k].isDummy ==>
      OutW(physical, links[k].src) < D && InW(physical, links[k].dst) < D
  }

  /** No link carries weight exactly when the common degree has come down to 0. */
  lemma ZeroExactlyAtEnd(links: seq<ScheduledLink>, n: nat, R: int, physical: seq<ScheduledLink>, D: int)
    requires LinksOk(links) && EndsWithin(links, n) && Regular(links, n, R) && 0 <= R <= D
    requires PhysicalLinks(physical) && EndsWithin(physical, n) && IsMaxDegree(physical, D)
    ensures (forall k :: 0 <= k < |links| ==> links[k].weight == 0) <==> R == 0
  {
    if R == 0 {
      forall k | 0 <= k < |links|
        ensures links[k].weight == 0
      {
        WeightAtEnds(links, k);
      }
    } else {
      var h :| Hub(physical, h, D);
      if !(1 <= h <= n) {
        NothingBeyond(physical, n, h);
      }
      if forall k :: 0 <= k < |links| ==> links[k].weight == 0 {
        WeightlessLinks(links, h, h);
      }
    }
  }

  /** A round takes one off every cluster's degree and moves its pairs from "to do" to "scheduled". */
  lemma RoundStepAll(before: seq<ScheduledLink>, links: seq<ScheduledLink>, round: ScheduleRound, m: seq<int>,
                     n: nat, R: int, schedule: seq<ScheduleRound>, physical: seq<ScheduledLink>)
    requires Regular(before, n, R) && PerfectMatching(m, before, n) && Lightened(links, before, round.edges, m, n)
    requires IsMatching(round) && round.weight == 1 && Conserves(schedule, before, physical)
    ensures Regular(links, n, R - 1) && Conserves(schedule + [round], links, physical)
  {
    forall i | 1 <= i <= n
      ensures OutW(links, i) == R - 1 && InW(links, i) == R - 1
    {
      assert IsMatched(m, i);
      var v :| 0 <= v < |m| && m[v] == i;
      assert MatchedUpTo(m, n, i);
    }
    forall s, d
      ensures RoundsUsing(schedule + [round], s, d) + RealWeight(links, s, d) == RealWeight(physical, s, d)
    {
      RoundStep(schedule, round, s, d);
      CarriedIsUse(round.edges, s, d);
      assert RoundsUsing(schedule, s, d) + RealWeight(before, s, d) == RealWeight(physical, s, d);
    }
  }

  /** A full cluster is matched through a real link, so no round consists of padding only. */
  lemma HubKeepsRoundFull(links: seq<ScheduledLink>, chosen: seq<int>, m: seq<int>, physical: seq<ScheduledLink>,
                          n: nat, D: int)
    requires PerfectMatching(m, links, n) && |chosen| == n && Chosen(chosen, m, links)
    requires PhysicalLinks(physical) && EndsWithin(physical, n) && IsMaxDegree(physical, D) && D > 0
    requires PaddingAvoidsFull(links, physical, D)
    ensures exists j :: 0 <= j < |chosen| && !links[chosen[j]].isDummy
  {
    var h :| Hub(physical, h, D);
    if !(1 <= h <= n) {
      NothingBeyond(physical, n, h);
    }
    var v := h;
    if OutW(physical, h) == D {
      assert IsMatched(m, h);
      v :| 0 <= v < |m| && m[v] == h;
    }
    assert !links[chosen[v - 1]].isDummy;
  }
}

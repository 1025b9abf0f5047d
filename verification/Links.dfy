/** Weighted links between clusters and the weight sums the round scheduler reasons about. */
module Links {

  /** A transfer link from a helper cluster to a main cluster; clusters are numbered from 1. */
  datatype ScheduledLink = ScheduledLink(src: int, dst: int, weight: int, isDummy: bool)

  /** One dispatch round: the links that send at the same time, each by `weight` tasks. */
  datatype ScheduleRound = ScheduleRound(edges: seq<ScheduledLink>, weight: int)

  /** 1-based cluster numbers, and weights that are task counts. */
  ghost predicate LinksOk(links: seq<ScheduledLink>) {
    forall k :: 0 <= k < |links| ==> links[k].src >= 1 && links[k].dst >= 1 && links[k].weight >= 0
  }

  /** The input the scheduler is given: none of its links is padding. */
  ghost predicate PhysicalLinks(links: seq<ScheduledLink>) {
    LinksOk(links) && forall k :: 0 <= k < |links| ==> !links[k].isDummy
  }

  ghost predicate EndsWithin(links: seq<ScheduledLink>, n: nat) {
    forall k :: 0 <= k < |links| ==> links[k].src <= n && links[k].dst <= n
  }

  /** Total weight that cluster i sends. */
  ghost function OutW(links: seq<ScheduledLink>, i: int): int {
    if links == [] then 0
    else OutW(links[..|links| - 1], i)
         + (if links[|links| - 1].src == i then links[|links| - 1].weight else 0)
  }

  /** Total weight that cluster i receives. */
  ghost function InW(links: seq<ScheduledLink>, i: int): int {
    if links == [] then 0
    else InW(links[..|links| - 1], i)
         + (if links[|links| - 1].dst == i then links[|links| - 1].weight else 0)
  }

  /** Total real (not padding) weight of the ordered pair (s, d). */
  ghost function RealWeight(links: seq<ScheduledLink>, s: int, d: int): int {
    if links == [] then 0
    else RealWeight(links[..|links| - 1], s, d) + RealPart(links[|links| - 1], s, d)
  }

  ghost function RealPart(link: ScheduledLink, s: int, d: int): int {
    if !link.isDummy && link.src == s && link.dst == d then link.weight else 0
  }

  /** D is the largest total weight that any one cluster sends or receives. */
  ghost predicate IsMaxDegree(links: seq<ScheduledLink>, D: int) {
    && (forall i :: OutW(links, i) <= D)
    && (forall i :: InW(links, i) <= D)
    && (D == 0 || exists h :: Hub(links, h, D))
  }

  ghost predicate Hub(links: seq<ScheduledLink>, h: int, D: int) {
    OutW(links, h) == D || InW(links, h) == D
  }

  /** Every cluster 1..n sends exactly D and receives exactly D. */
  ghost predicate Regular(links: seq<ScheduledLink>, n: nat, D: int) {
    && (forall i :: 1 <= i <= n ==> OutW(links, i) == D)
    && (forall i :: 1 <= i <= n ==> InW(links, i) == D)
  }

  lemma Extend(links: seq<ScheduledLink>, link: ScheduledLink, i: int)
    ensures OutW(links + [link], i) == OutW(links, i) + (if link.src == i then link.weight else 0)
    ensures InW(links + [link], i) == InW(links, i) + (if link.dst == i then link.weight else 0)
  {
    assert (links + [link])[..|links|] == links;
  }

  lemma ExtendReal(links: seq<ScheduledLink>, link: ScheduledLink, s: int, d: int)
    ensures RealWeight(links + [link], s, d) == RealWeight(links, s, d) + RealPart(link, s, d)
  {
    assert (links + [link])[..|links|] == links;
  }

  lemma {:induction false} NonNegative(links: seq<ScheduledLink>, s: int, d: int)
    requires forall j :: 0 <= j < |links| ==> links[j].weight >= 0
    ensures OutW(links, s) >= 0 && InW(links, d) >= 0 && RealWeight(links, s, d) >= 0
  {
    if links != [] {
      var rest := links[..|links| - 1];
      assert forall j :: 0 <= j < |rest| ==> rest[j] == links[j];
      NonNegative(rest, s, d);
    }
  }

  /** No link is heavier than the total weight at either of its ends. */
  lemma {:induction false} WeightAtEnds(links: seq<ScheduledLink>, k: nat)
    requires k < |links| && forall j :: 0 <= j < |links| ==> links[j].weight >= 0
    ensures links[k].weight <= OutW(links, links[k].src)
    ensures links[k].weight <= InW(links, links[k].dst)
  {
    var rest := links[..|links| - 1];
    assert forall j :: 0 <= j < |rest| ==> rest[j] == links[j];
    if k < |rest| {
      WeightAtEnds(rest, k);
    } else {
      NonNegative(rest, links[k].src, links[k].dst);
    }
  }

  lemma {:induction false} WeightlessLinks(links: seq<ScheduledLink>, s: int, d: int)
    requires forall j :: 0 <= j < |links| ==> links[j].weight == 0
    ensures OutW(links, s) == 0 && InW(links, d) == 0 && RealWeight(links, s, d) == 0
  {
    if links != [] {
      var rest := links[..|links| - 1];
      assert forall j :: 0 <= j < |rest| ==> rest[j] == links[j];
      WeightlessLinks(rest, s, d);
    }
  }

  lemma {:induction false} NothingBeyond(links: seq<ScheduledLink>, n: nat, i: int)
    requires LinksOk(links) && EndsWithin(links, n) && !(1 <= i <= n)
    ensures OutW(links, i) == 0 && InW(links, i) == 0
  {
    if links != [] {
      var rest := links[..|links| - 1];
      assert forall j :: 0 <= j < |rest| ==> rest[j] == links[j];
      NothingBeyond(rest, n, i);
    }
  }

  ghost function LighterBy1(link: ScheduledLink): ScheduledLink { link.(weight := link.weight - 1) }

  /** Taking one unit off link k changes exactly the sums of its two ends and of its pair. */
  lemma {:induction false} TakeUnit(links: seq<ScheduledLink>, k: nat, i: int, s: int, d: int)
    requires k < |links|
    ensures var after := links[k := LighterBy1(links[k])];
            && OutW(after, i) == OutW(links, i) - (if links[k].src == i then 1 else 0)
            && InW(after, i) == InW(links, i) - (if links[k].dst == i then 1 else 0)
            && RealWeight(after, s, d)
               == RealWeight(links, s, d)
                  - (if !links[k].isDummy && links[k].src == s && links[k].dst == d then 1 else 0)
  {
    var after := links[k := LighterBy1(links[k])];
    var rest := links[..|links| - 1];
    if k < |rest| {
      TakeUnit(rest, k, i, s, d);
      assert after[..|links| - 1] == rest[k := LighterBy1(rest[k])];
    } else {
      assert after[..|links| - 1] == rest;
    }
  }
}

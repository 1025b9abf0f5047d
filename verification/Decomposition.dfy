/** What it means to split a set of links into rounds, and why no split can use fewer rounds. */
module Decomposition {
  import opened Links

  /** In a round no cluster sends twice and none receives twice, and every edge carries one real task. */
  ghost predicate IsMatching(round: ScheduleRound) {
    && (forall j :: 0 <= j < |round.edges| ==> round.edges[j].weight == 1 && !round.edges[j].isDummy)
    && (forall i, j :: 0 <= i < j < |round.edges| ==>
          round.edges[i].src != round.edges[j].src && round.edges[i].dst != round.edges[j].dst)
  }

  ghost predicate Uses(round: ScheduleRound, s: int, d: int) {
    exists j :: 0 <= j < |round.edges| && round.edges[j].src == s && round.edges[j].dst == d
  }

  /** In how many rounds the pair (s, d) sends. */
  ghost function RoundsUsing(rounds: seq<ScheduleRound>, s: int, d: int): nat {
    if rounds == [] then 0
    else RoundsUsing(rounds[..|rounds| - 1], s, d) + (if Uses(rounds[|rounds| - 1], s, d) then 1 else 0)
  }

  /** The rounds are matchings, and each pair sends in exactly as many of them as it has tasks. */
  ghost predicate Decomposes(rounds: seq<ScheduleRound>, links: seq<ScheduledLink>) {
    && (forall r :: 0 <= r < |rounds| ==> IsMatching(rounds[r]))
    && (forall s, d :: RoundsUsing(rounds, s, d) == RealWeight(links, s, d))
  }

  /** In a matching the weight carried by a pair is 1 or 0, as the pair is used or not. */
  lemma {:induction false} CarriedIsUse(edges: seq<ScheduledLink>, s: int, d: int)
    requires IsMatching(ScheduleRound(edges, 1))
    ensures RealWeight(edges, s, d) == (if Uses(ScheduleRound(edges, 1), s, d) then 1 else 0)
  {
    if edges != [] {
      var n := |edges| - 1;
      var rest := edges[..n];
      CarriedIsUse(rest, s, d);
      if Uses(ScheduleRound(edges, 1), s, d) {
        var j :| 0 <= j < |edges| && edges[j].src == s && edges[j].dst == d;
        assert j < n ==> rest[j].src == s && rest[j].dst == d;
      }
      if Uses(ScheduleRound(rest, 1), s, d) {
        var j :| 0 <= j < |rest| && rest[j].src == s && rest[j].dst == d;
        assert edges[j].src == s && edges[j].dst == d;
      }
    }
  }

  /** Sum over d in 1..n of the real weight from h to d, and from d to h. */
  ghost function FanOut(links: seq<ScheduledLink>, h: int, n: nat): int {
    if n == 0 then 0 else FanOut(links, h, n - 1) + RealWeight(links, h, n)
  }

  ghost function FanIn(links: seq<ScheduledLink>, h: int, n: nat): int {
    if n == 0 then 0 else FanIn(links, h, n - 1) + RealWeight(links, n, h)
  }

  /** Sum over d in 1..n of the number of rounds in which h sends to d, and in which d sends to h. */
  ghost function RoundsOut(rounds: seq<ScheduleRound>, h: int, n: nat): nat {
    if n == 0 then 0 else RoundsOut(rounds, h, n - 1) + RoundsUsing(rounds, h, n)
  }

  ghost function RoundsIn(rounds: seq<ScheduleRound>, h: int, n: nat): nat {
    if n == 0 then 0 else RoundsIn(rounds, h, n - 1) + RoundsUsing(rounds, n, h)
  }

  lemma {:induction false} FanStep(links: seq<ScheduledLink>, link: ScheduledLink, h: int, n: nat)
    requires !link.isDummy && 1 <= link.src && 1 <= link.dst
    ensures FanOut(links + [link], h, n)
            == FanOut(links, h, n) + (if link.src == h && link.dst <= n then link.weight else 0)
    ensures FanIn(links + [link], h, n)
            == FanIn(links, h, n) + (if link.dst == h && link.src <= n then link.weight else 0)
  {
    if n > 0 {
      FanStep(links, link, h, n - 1);
      ExtendReal(links, link, h, n);
      ExtendReal(links, link, n, h);
    }
  }

  lemma {:induction false} FanEmpty(h: int, n: nat)
    ensures FanOut([], h, n) == 0 && FanIn([], h, n) == 0
  {
    if n > 0 {
      FanEmpty(h, n - 1);
    }
  }

  lemma {:induction false} FanIsWeight(links: seq<ScheduledLink>, h: int, n: nat)
    requires PhysicalLinks(links) && EndsWithin(links, n)
    ensures FanOut(links, h, n) == OutW(links, h) && FanIn(links, h, n) == InW(links, h)
  {
    if links == [] {
      FanEmpty(h, n);
    } else {
      var rest, link := links[..|links| - 1], links[|links| - 1];
      assert links == rest + [link];
      assert forall k :: 0 <= k < |rest| ==> rest[k] == links[k];
      FanIsWeight(rest, h, n);
      FanStep(rest, link, h, n);
      Extend(rest, link, h);
    }
  }

  lemma RoundStep(rounds: seq<ScheduleRound>, round: ScheduleRound, s: int, d: int)
    ensures RoundsUsing(rounds + [round], s, d)
            == RoundsUsing(rounds, s, d) + (if Uses(round, s, d) then 1 else 0)
  {
    assert (rounds + [round])[..|rounds|] == rounds;
  }

  /** A matching adds at most one to what h sends, and at most one to what it receives. */
  lemma {:induction false} RoundAddsOne(rounds: seq<ScheduleRound>, round: ScheduleRound, h: int, n: nat)
    requires IsMatching(round)
    ensures RoundsOut(rounds + [round], h, n)
            == RoundsOut(rounds, h, n) + (if exists d :: 1 <= d <= n && Uses(round, h, d) then 1 else 0)
    ensures RoundsIn(rounds + [round], h, n)
            == RoundsIn(rounds, h, n) + (if exists d :: 1 <= d <= n && Uses(round, d, h) then 1 else 0)
  {
    if n > 0 {
      RoundAddsOne(rounds, round, h, n - 1);
      RoundStep(rounds, round, h, n);
      RoundStep(rounds, round, n, h);
      assert Uses(round, h, n) ==> forall d :: 1 <= d <= n - 1 ==> !Uses(round, h, d);
      assert Uses(round, n, h) ==> forall d :: 1 <= d <= n - 1 ==> !Uses(round, d, h);
    }
  }

  lemma {:induction false} NoRounds(h: int, n: nat)
    ensures RoundsOut([], h, n) == 0 && RoundsIn([], h, n) == 0
  {
    if n > 0 {
      NoRounds(h, n - 1);
    }
  }

  lemma {:induction false} OneSendPerRound(rounds: seq<ScheduleRound>, h: int, n: nat)
    requires forall r :: 0 <= r < |rounds| ==> IsMatching(rounds[r])
    ensures RoundsOut(rounds, h, n) <= |rounds| && RoundsIn(rounds, h, n) <= |rounds|
  {
    if rounds == [] {
      NoRounds(h, n);
    } else {
      var rest, round := rounds[..|rounds| - 1], rounds[|rounds| - 1];
      assert rounds == rest + [round];
      OneSendPerRound(rest, h, n);
      RoundAddsOne(rest, round, h, n);
    }
  }

  lemma {:induction false} FanIsRounds(rounds: seq<ScheduleRound>, links: seq<ScheduledLink>, h: int, n: nat)
    requires Decomposes(rounds, links)
    ensures RoundsOut(rounds, h, n) == FanOut(links, h, n)
    ensures RoundsIn(rounds, h, n) == FanIn(links, h, n)
  {
    if n > 0 {
      FanIsRounds(rounds, links, h, n - 1);
    }
  }

  ghost function LargestEnd(links: seq<ScheduledLink>): (n: nat)
    ensures EndsWithin(links, n)
  {
    if links == [] then 0
    else
      var n := LargestEnd(links[..|links| - 1]);
      var last := links[|links| - 1];
      assert forall k :: 0 <= k < |links| - 1 ==> links[..|links| - 1][k] == links[k];
      if last.src > n && last.src >= last.dst then last.src
      else if last.dst > n then last.dst
      else n
  }

  /** No split of the links into matchings has fewer rounds than the busiest cluster has tasks. */
  lemma NoFewerRounds(rounds: seq<ScheduleRound>, links: seq<ScheduledLink>, D: int)
    requires PhysicalLinks(links) && Decomposes(rounds, links) && IsMaxDegree(links, D)
    ensures |rounds| >= D
  {
    if D > 0 {
      var h :| Hub(links, h, D);
      var n := LargestEnd(links);
      FanIsWeight(links, h, n);
      FanIsRounds(rounds, links, h, n);
      OneSendPerRound(rounds, h, n);
    }
  }
}

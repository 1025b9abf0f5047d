/** The counting arguments behind the scheduler: padding always finds room, every search succeeds. */
module Regularity {
  import opened Links
  import opened Matching

  ghost predicate HasEdge(links: seq<ScheduledLink>, a: int, v: int) {
    exists k :: 0 <= k < |links| && links[k].weight > 0 && links[k].src == a && links[k].dst == v
  }

  /** `adj[a]` lists the destinations of the links out of a that still carry weight. */
  ghost predicate Describes(adj: seq<seq<int>>, links: seq<ScheduledLink>) {
    forall a, v :: 0 <= a < |adj| ==> (v in adj[a] <==> HasEdge(links, a, v))
  }

  // Sets of clusters are marks: `mark[i]` says whether cluster i belongs to the set.

  ghost function Count(mark: seq<bool>, k: nat): nat
    requires k <= |mark|
  {
    if k == 0 then 0 else Count(mark, k - 1) + (if mark[k - 1] then 1 else 0)
  }

  ghost function SentBy(links: seq<ScheduledLink>, mark: seq<bool>, k: nat): int
    requires k <= |mark|
  {
    if k == 0 then 0 else SentBy(links, mark, k - 1) + (if mark[k - 1] then OutW(links, k - 1) else 0)
  }

  ghost function ReceivedBy(links: seq<ScheduledLink>, mark: seq<bool>, k: nat): int
    requires k <= |mark|
  {
    if k == 0 then 0 else ReceivedBy(links, mark, k - 1) + (if mark[k - 1] then InW(links, k - 1) else 0)
  }

  lemma {:induction false} SentStep(links: seq<ScheduledLink>, link: ScheduledLink, mark: seq<bool>, k: nat)
    requires k <= |mark| && 0 <= link.src && 0 <= link.dst
    ensures SentBy(links + [link], mark, k)
            == SentBy(links, mark, k) + (if link.src < k && mark[link.src] then link.weight else 0)
    ensures ReceivedBy(links + [link], mark, k)
            == ReceivedBy(links, mark, k) + (if link.dst < k && mark[link.dst] then link.weight else 0)
  {
    if k > 0 {
      SentStep(links, link, mark, k - 1);
      Extend(links, link, k - 1);
    }
  }

  lemma {:induction false} NothingSent(mark: seq<bool>, k: nat)
    requires k <= |mark|
    ensures SentBy([], mark, k) == 0 && ReceivedBy([], mark, k) == 0
  {
    if k > 0 {
      NothingSent(mark, k - 1);
    }
  }

  /** If every positive link that leaves S enters T, then T receives at least what S sends. */
  lemma {:induction false} Covered(links: seq<ScheduledLink>, S: seq<bool>, T: seq<bool>)
    requires |S| == |T| && LinksOk(links) && EndsWithin(links, |S|)
    requires forall k :: 0 <= k < |links| ==> links[k].src < |S| && links[k].dst < |T|
    requires forall k :: 0 <= k < |links| && links[k].weight > 0 && S[links[k].src] ==> T[links[k].dst]
    ensures SentBy(links, S, |S|) <= ReceivedBy(links, T, |T|)
  {
    if links == [] {
      NothingSent(S, |S|);
      NothingSent(T, |T|);
    } else {
      var rest, link := links[..|links| - 1], links[|links| - 1];
      assert links == rest + [link];
      assert forall k :: 0 <= k < |rest| ==> rest[k] == links[k];
      Covered(rest, S, T);
      SentStep(rest, link, S, |S|);
      SentStep(rest, link, T, |T|);
    }
  }

  /** What a set sends and receives when none of its members exceeds D, or all reach it. */
  lemma {:induction false} SentAtMost(links: seq<ScheduledLink>, mark: seq<bool>, k: nat, D: int)
    requires k <= |mark| && forall i :: 0 <= i < k && mark[i] ==> OutW(links, i) <= D
    ensures SentBy(links, mark, k) <= D * Count(mark, k)
    ensures (exists i :: 0 <= i < k && mark[i] && OutW(links, i) < D) ==> SentBy(links, mark, k) < D * Count(mark, k)
  {
    if k > 0 {
      SentAtMost(links, mark, k - 1, D);
      assert D * (Count(mark, k - 1) + 1) == D * Count(mark, k - 1) + D;
    }
  }

  lemma {:induction false} ReceivedAtMost(links: seq<ScheduledLink>, mark: seq<bool>, k: nat, D: int)
    requires k <= |mark| && forall i :: 0 <= i < k && mark[i] ==> InW(links, i) <= D
    ensures ReceivedBy(links, mark, k) <= D * Count(mark, k)
    ensures (exists i :: 0 <= i < k && mark[i] && InW(links, i) < D) ==> ReceivedBy(links, mark, k) < D * Count(mark, k)
  {
    if k > 0 {
      ReceivedAtMost(links, mark, k - 1, D);
      assert D * (Count(mark, k - 1) + 1) == D * Count(mark, k - 1) + D;
    }
  }

  lemma {:induction false} SentExactly(links: seq<ScheduledLink>, mark: seq<bool>, k: nat, D: int)
    requires k <= |mark| && forall i :: 0 <= i < k && mark[i] ==> OutW(links, i) == D
    ensures SentBy(links, mark, k) == D * Count(mark, k)
  {
    if k > 0 {
      SentExactly(links, mark, k - 1, D);
      assert D * (Count(mark, k - 1) + 1) == D * Count(mark, k - 1) + D;
    }
  }

  lemma {:induction false} ReceivedExactly(links: seq<ScheduledLink>, mark: seq<bool>, k: nat, D: int)
    requires k <= |mark| && forall i :: 0 <= i < k && mark[i] ==> InW(links, i) == D
    ensures ReceivedBy(links, mark, k) == D * Count(mark, k)
  {
    if k > 0 {
      ReceivedExactly(links, mark, k - 1, D);
      assert D * (Count(mark, k - 1) + 1) == D * Count(mark, k - 1) + D;
    }
  }

  ghost function Everyone(n: nat): (r: seq<bool>)
    ensures |r| == n + 1 && forall i :: 0 <= i <= n ==> r[i] == (i > 0)
  {
    seq(n + 1, i => i > 0)
  }

  lemma TotalsAgree(links: seq<ScheduledLink>, n: nat)
    requires LinksOk(links) && EndsWithin(links, n)
    ensures SentBy(links, Everyone(n), n + 1) == ReceivedBy(links, Everyone(n), n + 1)
  {
    Covered(links, Everyone(n), Everyone(n));
    CoveredBack(links, Everyone(n));
  }

  lemma {:induction false} CoveredBack(links: seq<ScheduledLink>, mark: seq<bool>)
    requires LinksOk(links)
    requires forall k :: 0 <= k < |links| ==> links[k].src < |mark| && mark[links[k].src]
    ensures SentBy(links, mark, |mark|) >= ReceivedBy(links, mark, |mark|)
  {
    if links == [] {
      NothingSent(mark, |mark|);
    } else {
      var rest, link := links[..|links| - 1], links[|links| - 1];
      assert links == rest + [link];
      assert forall k :: 0 <= k < |rest| ==> rest[k] == links[k];
      CoveredBack(rest, mark);
      SentStep(rest, link, mark, |mark|);
    }
  }

  /** If all receivers are full and no sender exceeds D, then all senders are full. */
  lemma SendersFull(links: seq<ScheduledLink>, n: nat, D: int)
    requires LinksOk(links) && EndsWithin(links, n)
    requires forall j :: 1 <= j <= n ==> InW(links, j) == D && OutW(links, j) <= D
    ensures forall i :: 1 <= i <= n ==> OutW(links, i) == D
  {
    TotalsAgree(links, n);
    ReceivedExactly(links, Everyone(n), n + 1, D);
    SentAtMost(links, Everyone(n), n + 1, D);
  }

  /** If all senders are full and no receiver exceeds D, then all receivers are full. */
  lemma ReceiversFull(links: seq<ScheduledLink>, n: nat, D: int)
    requires LinksOk(links) && EndsWithin(links, n)
    requires forall j :: 1 <= j <= n ==> OutW(links, j) == D && InW(links, j) <= D
    ensures forall i :: 1 <= i <= n ==> InW(links, i) == D
  {
    TotalsAgree(links, n);
    SentExactly(links, Everyone(n), n + 1, D);
    ReceivedAtMost(links, Everyone(n), n + 1, D);
  }

  lemma {:induction false} MarkOne(mark: seq<bool>, i: nat, k: nat)
    requires i < |mark| && k <= |mark|
    ensures Count(mark[i := true], k) == Count(mark, k) + (if i < k && !mark[i] then 1 else 0)
  {
    if k > 0 {
      MarkOne(mark, i, k - 1);
    }
  }

  lemma {:induction false} Unmarked(n: nat, k: nat)
    requires k <= n
    ensures Count(seq(n, _ => false), k) == 0
  {
    if k > 0 {
      Unmarked(n, k - 1);
    }
  }

  /** Marks the sources matched at the first k destinations marked in `keep`. */
  ghost function Sources(m: seq<int>, keep: seq<bool>, k: nat): (S: seq<bool>)
    requires k <= |m| == |keep|
    requires forall v :: 0 <= v < |m| && keep[v] ==> 0 <= m[v] < |m|
    ensures |S| == |m|
    ensures forall v :: 0 <= v < k && keep[v] ==> S[m[v]]
    ensures forall a :: 0 <= a < |m| && S[a] ==> exists v :: 0 <= v < k && keep[v] && m[v] == a
  {
    if k == 0 then seq(|m|, _ => false)
    else if keep[k - 1] then Sources(m, keep, k - 1)[m[k - 1] := true]
    else Sources(m, keep, k - 1)
  }

  lemma {:induction false} AsManySources(m: seq<int>, keep: seq<bool>, k: nat)
    requires k <= |m| == |keep| && Injective(m)
    requires forall v :: 0 <= v < |m| && keep[v] ==> 0 <= m[v] < |m|
    ensures Count(Sources(m, keep, k), |m|) == Count(keep, k)
  {
    if k == 0 {
      Unmarked(|m|, |m|);
    } else {
      AsManySources(m, keep, k - 1);
      if keep[k - 1] {
        MarkOne(Sources(m, keep, k - 1), m[k - 1], |m|);
      }
    }
  }

  /** In a regular graph all the links out of a set reach at least as many clusters as the set has. */
  lemma NeighboursNotFewer(links: seq<ScheduledLink>, n: nat, D: int, S: seq<bool>, T: seq<bool>)
    requires LinksOk(links) && EndsWithin(links, n) && Regular(links, n, D) && D > 0
    requires |S| == |T| == n + 1 && !S[0] && !T[0]
    requires forall k :: 0 <= k < |links| && links[k].weight > 0 && S[links[k].src] ==> T[links[k].dst]
    ensures Count(S, n + 1) <= Count(T, n + 1)
  {
    Covered(links, S, T);
    SentExactly(links, S, n + 1, D);
    ReceivedExactly(links, T, n + 1, D);
    if Count(S, n + 1) > Count(T, n + 1) {
      StrictScale(D, Count(S, n + 1), Count(T, n + 1));
    }
  }

  lemma StrictScale(D: int, s: int, t: int)
    requires D > 0 && s > t
    ensures D * s > D * t
  {
    assert D * s == D * t + D * (s - t);
  }

  /**
   In a regular graph a search cannot fail: the visited destinations' sources, and u, would together
   reach nothing but the visited destinations, which are one fewer.
   */
  lemma SearchCannotFail(links: seq<ScheduledLink>, n: nat, D: int, adj: seq<seq<int>>,
                         m: seq<int>, vis: seq<bool>, u: int)
    requires LinksOk(links) && EndsWithin(links, n) && Regular(links, n, D) && D > 0
    requires |adj| == |m| == |vis| == n + 1 && Describes(adj, links)
    requires Injective(m) && UsesEdges(m, adj) && 1 <= u <= n
    requires forall v :: v in adj[u] ==> Visited(vis, v)
    requires forall v :: 0 <= v <= n && vis[v] ==> m[v] >= 0 && forall x :: x in adj[m[v]] ==> Visited(vis, x)
    ensures IsMatched(m, u)
  {
    forall v | 0 <= v <= n && vis[v]
      ensures 1 <= v <= n && 1 <= m[v] <= n
    {
      assert v in adj[m[v]] && HasEdge(links, m[v], v);
    }
    var S0 := Sources(m, vis, n + 1);
    var S := S0[u := true];
    AsManySources(m, vis, n + 1);
    MarkOne(S0, u, n + 1);
    forall k | 0 <= k < |links| && links[k].weight > 0 && S[links[k].src]
      ensures vis[links[k].dst]
    {
      var a, x := links[k].src, links[k].dst;
      assert HasEdge(links, a, x) && x in adj[a];
      assert Visited(vis, x);
    }
    NeighboursNotFewer(links, n, D, S, vis);
  }

  lemma {:induction false} CountAtMost(few: seq<bool>, many: seq<bool>, k: nat)
    requires k <= |few| == |many| && forall i :: 0 <= i < k && few[i] ==> many[i]
    ensures Count(few, k) <= Count(many, k)
    ensures Count(few, k) == Count(many, k) ==> forall i :: 0 <= i < k && many[i] ==> few[i]
  {
    if k > 0 {
      CountAtMost(few, many, k - 1);
    }
  }

  lemma MatchedIsSource(m: seq<int>, keep: seq<bool>, n: nat, a: nat)
    requires |m| == |keep| == n + 1 && 1 <= a <= n && IsMatched(m, a)
    requires forall v :: 0 <= v <= n ==> m[v] <= n && keep[v] == (m[v] >= 0)
    ensures Sources(m, keep, n + 1)[a]
  {
    hide Sources;
    var v :| 0 <= v < |m| && m[v] == a;
    assert keep[v];
  }

  /** If all n sources are matched then all n destinations are. */
  lemma EveryDestinationMatched(m: seq<int>, n: nat)
    requires |m| == n + 1 && Injective(m) && m[0] < 0
    requires forall v :: 0 <= v <= n ==> m[v] <= n
    requires forall a :: 1 <= a <= n ==> IsMatched(m, a)
    ensures forall v :: 1 <= v <= n ==> m[v] >= 0
  {
    hide Injective, Sources, Count, IsMatched;
    var keep := seq(n + 1, v requires 0 <= v < n + 1 => m[v] >= 0);
    var S := Sources(m, keep, n + 1);
    forall a: nat | 1 <= a <= n
      ensures S[a]
    {
      MatchedIsSource(m, keep, n, a);
    }
    AllKept(m, keep, S, n);
  }

  lemma AllKept(m: seq<int>, keep: seq<bool>, S: seq<bool>, n: nat)
    requires |m| == |keep| == n + 1 && Injective(m) && m[0] < 0
    requires forall v :: 0 <= v <= n ==> keep[v] == (m[v] >= 0) && m[v] <= n
    requires S == Sources(m, keep, n + 1) && forall a :: 1 <= a <= n ==> S[a]
    ensures forall v :: 1 <= v <= n ==> keep[v]
  {
    hide Injective, Sources, Count;
    AsManySources(m, keep, n + 1);
    CountAtMost(Everyone(n), S, n + 1);
    CountAtMost(keep, Everyone(n), n + 1);
  }
}

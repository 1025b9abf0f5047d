/** The helpers for repairing one block of a Reed-Solomon code, from as few partitions as possible. */
module RsSingle {
  import opened Listing
  import opened Partitions
  import opened Placement
  import opened RsRepair

  /** Marks the part of the failed block. */
  function Mark(own: nat, n: nat): (r: seq<nat>)
    ensures |r| == n && forall i :: 0 <= i < n ==> r[i] == if i == own then 1 else 0
  {
    seq(n, i => if i == own then 1 else 0)
  }

  lemma InOneOnly(plan: Partition, n: nat, own: nat, failure: nat, i: nat)
    requires IsPartition(plan, n) && own < |plan| && failure in plan[own] && i < |plan| && failure in plan[i]
    ensures i == own
  {
    NoRepeatsMeansApart(plan);
    OnlyInPart(plan, own, i, failure);
  }

  /** Finds the part of the failed block, and lists the others with their sizes. */
  method OwnAndOthers(plan: Partition, n: nat, failure: nat) returns (own: nat, others: seq<(nat, nat)>)
    requires IsPartition(plan, n) && failure < n
    ensures own < |plan| && failure in plan[own]
    ensures others == PartsWith(plan, Mark(own, |plan|), false, |plan|)
  {
    ghost var o, a := WhereIs(plan, n, failure);
    own, others := 0, [];
    for i := 0 to |plan|
      invariant others == PartsWith(plan, Mark(o, |plan|), false, i) && (i > o ==> own == o)
    {
      var at := Find(plan[i], failure);
      if at < |plan[i]| {
        InOneOnly(plan, n, o, failure, i);
        own := i;
      } else {
        others := others + [(i, |plan[i]|)];
      }
    }
  }

  /** The first blocks of a part that are not the failed one. */
  function TakenFrom(part: seq<nat>, failure: nat, room: nat): seq<nat> {
    var live := Without(part, [failure]);
    live[..Min(room, |live|)]
  }

  lemma TakeNext(part: seq<nat>, failure: nat, room: nat, j: nat)
    requires j < |part|
    ensures var before, after := TakenFrom(part[..j], failure, room), TakenFrom(part[..j + 1], failure, room);
            after == before + (if part[j] != failure && |before| < room then [part[j]] else [])
  {
    assert part[..j + 1][..j] == part[..j];
  }

  lemma TakenEnough(part: seq<nat>, failure: nat, room: nat, j: nat)
    requires j <= |part| && |TakenFrom(part[..j], failure, room)| >= room
    ensures TakenFrom(part, failure, room) == TakenFrom(part[..j], failure, room)
  {
    WithoutPrefix(part, j, failure);
  }

  /** Takes blocks from one part until there are k. */
  method TakePart(part: seq<nat>, failure: nat, k: nat, cnt0: nat, parity0: seq<nat>)
      returns (group: seq<nat>, cnt: nat, parityIdxs: seq<nat>)
    requires cnt0 <= k
    ensures group == TakenFrom(part, failure, k - cnt0) && cnt == cnt0 + |group| <= k
    ensures parityIdxs == parity0 + ParitiesOf(group, k)
  {
    hide TakenFrom, ParitiesOf;
    group, cnt, parityIdxs := [], cnt0, parity0;
    NothingTaken(part, failure, k - cnt0, k);
    for j := 0 to |part|
      invariant cnt == cnt0 + |group| <= k && group == TakenFrom(part[..j], failure, k - cnt0)
      invariant parityIdxs == parity0 + ParitiesOf(group, k)
    {
      TakeNext(part, failure, k - cnt0, j);
      if part[j] != failure {
        if cnt < k {
          ParitiesSnoc(group, part[j], k);
          group := group + [part[j]];
          cnt := cnt + 1;
          if part[j] >= k {
            parityIdxs := parityIdxs + [part[j]];
          }
        } else {
          TakenEnough(part, failure, k - cnt0, j);
          return;
        }
      }
    }
    assert part[..|part|] == part;
  }

  lemma NothingTaken(part: seq<nat>, failure: nat, room: nat, k: nat)
    ensures TakenFrom(part[..0], failure, room) == [] && ParitiesOf([], k) == []
  {
  }

  lemma {:induction false} WithoutPrefix(part: seq<nat>, j: nat, failure: nat)
    requires j <= |part|
    ensures Without(part[..j], [failure]) <= Without(part, [failure])
  {
    if j < |part| {
      WithoutPrefix(part[..|part| - 1], j, failure);
      assert part[..|part| - 1][..j] == part[..j];
    } else {
      assert part[..j] == part;
    }
  }

  // How few parts are needed.

  /** The blocks in the listed parts. */
  function SizeOf(plan: Partition, q: seq<nat>): nat
    requires forall i :: 0 <= i < |q| ==> q[i] < |plan|
  {
    if q == [] then 0 else SizeOf(plan, q[..|q| - 1]) + |plan[q[|q| - 1]]|
  }

  lemma {:induction false} SizeOfBoth(plan: Partition, a: seq<nat>, b: seq<nat>)
    requires (forall i :: 0 <= i < |a| ==> a[i] < |plan|) && (forall i :: 0 <= i < |b| ==> b[i] < |plan|)
    ensures SizeOf(plan, a + b) == SizeOf(plan, a) + SizeOf(plan, b)
  {
    if b == [] {
      assert a + b == a;
    } else {
      var n := |b| - 1;
      SizeOfBoth(plan, a, b[..n]);
      assert (a + b)[..|a + b| - 1] == a + b[..n];
    }
  }

  /** Of the parts in `order`, no choice of so many holds more than the first ones do. */
  lemma {:induction false} FirstHoldMost(plan: Partition, order: seq<nat>, q: seq<nat>)
    requires (forall i :: 0 <= i < |order| ==> order[i] < |plan|) && BySize(plan, order) && NoRepeats(order)
    requires NoRepeats(q) && forall i :: 0 <= i < |q| ==> q[i] in order && q[i] < |plan|
    ensures |q| <= |order| && SizeOf(plan, q) <= SizeOf(plan, order[..|q|])
    decreases |order|
  {
    hide SizeOf, BySize;
    if order == [] {
      NothingListed(plan, order, q);
    } else {
      var n := |order| - 1;
      var last := order[n];
      assert order == order[..n] + [last];
      if last in q {
        var at :| 0 <= at < |q| && q[at] == last;
        OneTaken(q, at);
        var rest := q[..at] + q[at + 1..];
        RestListed(order, q, at);
        FrontOk(plan, order);
        FirstHoldMost(plan, order[..n], rest);
        LastJoins(plan, order, q, at);
      } else {
        FrontOk(plan, order);
        FirstHoldMost(plan, order[..n], q);
        assert order[..n][..|q|] == order[..|q|];
      }
    }
  }

  lemma FrontOk(plan: Partition, order: seq<nat>)
    requires (forall i :: 0 <= i < |order| ==> order[i] < |plan|) && BySize(plan, order) && NoRepeats(order) && order != []
    ensures var front := order[..|order| - 1];
            (forall i :: 0 <= i < |front| ==> front[i] < |plan|) && BySize(plan, front) && NoRepeats(front)
  {
  }

  /** The smallest part joins a choice of others. */
  lemma LastJoins(plan: Partition, order: seq<nat>, q: seq<nat>, at: nat)
    requires (forall i :: 0 <= i < |order| ==> order[i] < |plan|) && BySize(plan, order) && order != []
    requires (forall i :: 0 <= i < |q| ==> q[i] < |plan|) && at < |q| && q[at] == order[|order| - 1]
    requires var rest, front := q[..at] + q[at + 1..], order[..|order| - 1];
             |rest| <= |front| && SizeOf(plan, rest) <= SizeOf(plan, front[..|rest|])
    ensures |q| <= |order| && SizeOf(plan, q) <= SizeOf(plan, order[..|q|])
  {
    hide SizeOf;
    var rest := q[..at] + q[at + 1..];
    assert order[..|order| - 1][..|rest|] == order[..|rest|];
    SizeWithout(plan, q, at);
    SizeOfNext(plan, order, |rest|);
  }

  lemma ListedSomewhere(order: seq<nat>, q: seq<nat>)
    requires forall i :: 0 <= i < |q| ==> q[i] in order
    ensures q != [] ==> order != []
  {
    if q != [] {
      assert q[0] in order;
    }
  }

  lemma NothingListed(plan: Partition, order: seq<nat>, q: seq<nat>)
    requires order == [] && forall i :: 0 <= i < |q| ==> q[i] in order
    ensures q == [] && SizeOf(plan, q) == SizeOf(plan, order[..|q|]) == 0
  {
    ListedSomewhere(order, q);
  }

  lemma SizeWithout(plan: Partition, q: seq<nat>, at: nat)
    requires (forall i :: 0 <= i < |q| ==> q[i] < |plan|) && at < |q|
    ensures var rest := q[..at] + q[at + 1..];
            (forall i :: 0 <= i < |rest| ==> rest[i] < |plan|) && SizeOf(plan, q) == SizeOf(plan, rest) + |plan[q[at]]|
  {
    var a, b := q[..at], q[at + 1..];
    assert q == (a + [q[at]]) + b;
    SizeOfBoth(plan, a + [q[at]], b);
    SizeOfBoth(plan, a, b);
    assert (a + [q[at]])[..at] == a;
  }

  lemma SizeOfNext(plan: Partition, order: seq<nat>, i: nat)
    requires (forall i :: 0 <= i < |order| ==> order[i] < |plan|) && i < |order|
    ensures SizeOf(plan, order[..i + 1]) == SizeOf(plan, order[..i]) + |plan[order[i]]|
  {
    assert order[..i + 1][..i] == order[..i];
  }

  lemma RestListed(order: seq<nat>, q: seq<nat>, at: nat)
    requires order != [] && NoRepeats(q) && at < |q| && q[at] == order[|order| - 1] && forall i :: 0 <= i < |q| ==> q[i] in order
    ensures var rest := q[..at] + q[at + 1..];
            forall i :: 0 <= i < |rest| ==> rest[i] in order[..|order| - 1]
  {
    var n := |order| - 1;
    var rest := q[..at] + q[at + 1..];
    assert order == order[..n] + [order[n]];
    forall i | 0 <= i < |rest|
      ensures rest[i] in order[..n]
    {
      assert rest[i] == q[if i < at then i else i + 1];
    }
  }

  // The choice of helpers.

  /** The other parts, larger first. */
  ghost predicate IsOthersOrder(plan: Partition, own: nat, order: seq<nat>) {
    && NoRepeats(order) && (forall i :: 0 <= i < |order| ==> order[i] < |plan| && order[i] != own)
    && (forall p :: 0 <= p < |plan| && p != own ==> p in order) && BySize(plan, order)
  }

  lemma OrderIs(plan: Partition, own: nat, pairs: seq<(nat, nat)>, sorted: seq<(nat, nat)>)
    requires pairs == PartsWith(plan, Mark(own, |plan|), false, |plan|)
    requires multiset(sorted) == multiset(pairs) && Descending(sorted)
    ensures IsOthersOrder(plan, own, Firsts(sorted))
  {
    hide Descending, PartsWith, Firsts, BySize;
    SortedMembers(plan, Mark(own, |plan|), sorted, false);
    SortedBySize(plan, Mark(own, |plan|), false, sorted);
  }

  /** The parts other than its own that a repair touches. */
  function OtherParts(from: seq<nat>, own: nat): seq<nat> { Without(from, [own]) }

  /** Whichever fewer other parts are chosen, they do not hold enough helpers. */
  ghost predicate FewestParts(plan: Partition, failure: nat, k: nat, own: nat, from: seq<nat>)
    requires own < |plan|
  {
    forall q: seq<nat> :: NoRepeats(q) && (forall i :: 0 <= i < |q| ==> q[i] < |plan| && q[i] != own) && |q| < |OtherParts(from, own)|
      ==> |plan[own]| - 1 + SizeOf(plan, q) < k
  }

  /** All of the live blocks of the own part and of the first i other parts have been taken. */
  ghost predicate TakenSoFar(plan: Partition, failure: nat, own: nat, order: seq<nat>, i: nat, groups: Partition, from: seq<nat>)
    requires IsOthersOrder(plan, own, order) && own < |plan| && i <= |order|
  {
    && GroupsFrom(plan, groups, from) && OtherParts(from, own) == order[..i]
    && (forall j :: 0 <= j < |from| ==> from[j] == own || from[j] in order[..i])
    && Concat(groups) == Concat(Arranged(Live(plan, [failure]), [own] + order[..i]))
  }

  lemma OwnPartSize(plan: Partition, n: nat, own: nat, failure: nat)
    requires IsPartition(plan, n) && own < |plan| && failure in plan[own]
    ensures |Without(plan[own], [failure])| == |plan[own]| - 1
    ensures forall p :: 0 <= p < |plan| && p != own ==> Without(plan[p], [failure]) == plan[p]
  {
    hide Without, Concat, IsPartition;
    PartOf(plan, n, own);
    WithoutNothing(plan[own]);
    var at :| 0 <= at < |plan[own]| && plan[own][at] == failure;
    WithoutOneMore(plan[own], [], failure, at);
    assert [] + [failure] == [failure];
    forall p: nat | p < |plan| && p != own
      ensures Without(plan[p], [failure]) == plan[p]
    {
      if failure in plan[p] {
        InOneOnly(plan, n, own, failure, p);
      }
      WithoutAbsent(plan[p], [], failure);
      WithoutNothing(plan[p]);
    }
  }

  lemma OrderOk(plan: Partition, own: nat, order: seq<nat>)
    requires IsOthersOrder(plan, own, order) && own < |plan|
    ensures IsOrder([own] + order, |plan|)
  {
    forall i: nat | i < |plan|
      ensures i in [own] + order
    {
      assert i == own || i in order;
    }
  }

  lemma {:induction false} ConcatIsPrefix(p: Partition, i: nat)
    requires i <= |p|
    ensures Concat(p[..i]) <= Concat(p)
  {
    if i < |p| {
      ConcatIsPrefix(p[..|p| - 1], i);
      assert p[..|p| - 1][..i] == p[..i];
    } else {
      assert p[..i] == p;
    }
  }

  /** What the first parts hold, and how it goes on. */
  lemma LivePrefix(plan: Partition, failure: nat, own: nat, order: seq<nat>, i: nat)
    requires IsOthersOrder(plan, own, order) && own < |plan| && i < |order|
    ensures var live := Live(plan, [failure]);
            var sofar := Concat(Arranged(live, [own] + order[..i])) + live[order[i]];
            && sofar == Concat(Arranged(live, [own] + order[..i + 1]))
            && sofar <= Concat(Arranged(live, [own] + order))
  {
    hide Concat, IsOthersOrder, Live;
    OrderFacts(plan, own, order);
    var live := Live(plan, [failure]);
    var all := [own] + order;
    ConcatIsPrefix(Arranged(live, all), i + 2);
    assert Arranged(live, all)[..i + 2] == Arranged(live, [own] + order[..i + 1]);
    assert Arranged(live, [own] + order[..i + 1]) == Arranged(live, [own] + order[..i]) + [live[order[i]]];
    ConcatSnoc(Arranged(live, [own] + order[..i]), live[order[i]]);
  }

  lemma {:induction false} TakenSize(plan: Partition, n: nat, failure: nat, own: nat, order: seq<nat>, i: nat)
    requires IsPartition(plan, n) && own < |plan| && failure in plan[own] && IsOthersOrder(plan, own, order) && i <= |order|
    ensures |Concat(Arranged(Live(plan, [failure]), [own] + order[..i]))| == |plan[own]| - 1 + SizeOf(plan, order[..i])
  {
    hide IsPartition, IsOthersOrder;
    OwnPartSize(plan, n, own, failure);
    OrderFacts(plan, own, order);
    if i == 0 {
      assert Arranged(Live(plan, [failure]), [own] + order[..0]) == [] + [Live(plan, [failure])[own]];
      ConcatSnoc([], Live(plan, [failure])[own]);
    } else {
      TakenSize(plan, n, failure, own, order, i - 1);
      LivePrefix(plan, failure, own, order, i - 1);
      SizeOfNext(plan, order, i - 1);
    }
  }

  lemma OrderFacts(plan: Partition, own: nat, order: seq<nat>)
    requires IsOthersOrder(plan, own, order)
    ensures NoRepeats(order) && (forall i :: 0 <= i < |order| ==> order[i] < |plan| && order[i] != own) && BySize(plan, order)
    ensures forall p: nat :: p < |plan| && p != own ==> p in order
  {
  }

  /** With fewer other parts than were touched, there were not enough helpers. */
  lemma FewerAreTooFew(plan: Partition, n: nat, failure: nat, k: nat, own: nat, order: seq<nat>, i: nat, q: seq<nat>)
    requires IsPartition(plan, n) && own < |plan| && failure in plan[own] && IsOthersOrder(plan, own, order) && i <= |order|
    requires |Concat(Arranged(Live(plan, [failure]), [own] + order[..i]))| < k
    requires NoRepeats(q) && (forall j :: 0 <= j < |q| ==> q[j] < |plan| && q[j] != own) && |q| <= i
    ensures |plan[own]| - 1 + SizeOf(plan, q) < k
  {
    hide IsPartition, IsOthersOrder, Live, Arranged, Concat, SizeOf, BySize;
    TakenSize(plan, n, failure, own, order, i);
    OrderFacts(plan, own, order);
    FirstHoldMost(plan, order, q);
    FirstAreSmaller(plan, order, |q|, i);
  }

  lemma FirstAreSmaller(plan: Partition, order: seq<nat>, a: nat, b: nat)
    requires (forall i :: 0 <= i < |order| ==> order[i] < |plan|) && a <= b <= |order|
    ensures SizeOf(plan, order[..a]) <= SizeOf(plan, order[..b])
  {
    assert order[..b] == order[..a] + order[a..b];
    SizeOfBoth(plan, order[..a], order[a..b]);
  }

  /** The repair stops within the part order[i]: the helpers are complete. */
  lemma StopsWithHelpers(plan: Partition, k: nat, m: nat, failure: nat, own: nat, order: seq<nat>, i: nat, groups: Partition,
                         group: seq<nat>)
    requires IsPartition(plan, k + m) && own < |plan| && failure in plan[own] && failure < k + m && m >= 1
    requires IsOthersOrder(plan, own, order) && i < |order| && forall j :: 0 <= j < |groups| ==> groups[j] != []
    requires Concat(groups) == Concat(Arranged(Live(plan, [failure]), [own] + order[..i]))
    requires |Concat(groups)| < k && group == TakenFrom(plan[order[i]], failure, k - |Concat(groups)|)
    requires |Concat(groups)| + |group| == k
    ensures HelpersOk(groups + [group], [failure], k, k + m)
  {
    hide IsPartition, HelpersOk, IsOthersOrder, Concat, Arranged;
    OrderFacts(plan, own, order);
    OrderOk(plan, own, order);
    LiveBlocks(plan, k + m, [failure], [own] + order);
    LivePrefix(plan, failure, own, order, i);
    ConcatSnoc(groups, group);
    var l := Concat(Arranged(Live(plan, [failure]), [own] + order));
    assert Concat(groups) + group == l[..k];
    PrefixHelps(groups + [group], l, [failure], k, k + m);
  }

  /** The repair stops within the part order[i]: fewer parts would not do. */
  lemma StopsInTime(plan: Partition, n: nat, k: nat, failure: nat, own: nat, order: seq<nat>, i: nat, from: seq<nat>)
    requires IsPartition(plan, n) && own < |plan| && failure in plan[own] && IsOthersOrder(plan, own, order) && i < |order|
    requires |Concat(Arranged(Live(plan, [failure]), [own] + order[..i]))| < k
    requires OtherParts(from, own) == order[..i + 1]
    ensures FewestParts(plan, failure, k, own, from)
  {
    hide IsPartition, IsOthersOrder, Live, Arranged, Concat, SizeOf, OtherParts;
    OrderFacts(plan, own, order);
    forall q: seq<nat> | NoRepeats(q) && (forall j :: 0 <= j < |q| ==> q[j] < |plan| && q[j] != own) && |q| <= i
      ensures |plan[own]| - 1 + SizeOf(plan, q) < k
    {
      FewerAreTooFew(plan, n, failure, k, own, order, i, q);
    }
  }

  lemma TakenInPart(part: seq<nat>, failure: nat, room: nat)
    ensures forall x :: x in TakenFrom(part, failure, room) ==> x in part
  {
    forall x | x in TakenFrom(part, failure, room)
      ensures x in part
    {
      assert x in Without(part, [failure]);
      WithoutMember(part, [failure], x);
    }
  }

  lemma OtherAlone(own: nat, p: nat)
    ensures OtherParts([p], own) == if p == own then [] else [p]
    ensures OtherParts([], own) == []
  {
    var one: seq<nat> := [p];
    assert one[..|one| - 1] == [] && Without(one[..|one| - 1], [own]) == [];
    assert Without(one, [own]) == Without(one[..|one| - 1], [own]) + (if one[|one| - 1] in [own] then [] else [one[|one| - 1]]);
    assert one[|one| - 1] == p && (p in [own] <==> p == own);
  }

  lemma OthersJoin(from: seq<nat>, own: nat, order: seq<nat>, i: nat)
    requires i < |order| && OtherParts(from, own) == order[..i] && order[i] != own
    ensures OtherParts(from + [order[i]], own) == order[..i + 1]
  {
    hide Without;
    WithoutConcat(from, [order[i]], [own]);
    OtherAlone(own, order[i]);
    assert order[..i + 1] == order[..i] + [order[i]];
  }

  /** A group out of the next part joins. */
  lemma GroupJoins(plan: Partition, failure: nat, own: nat, order: seq<nat>, i: nat, groups: Partition, from: seq<nat>,
                   group: seq<nat>, room: nat)
    requires own < |plan| && IsOthersOrder(plan, own, order) && i < |order|
    requires TakenSoFar(plan, failure, own, order, i, groups, from)
    requires group == TakenFrom(plan[order[i]], failure, room) && group != []
    ensures GroupsFrom(plan, groups + [group], from + [order[i]])
    ensures OtherParts(from + [order[i]], own) == order[..i + 1]
  {
    hide OtherParts, TakenFrom, Concat, Arranged, BySize;
    TakenInPart(plan[order[i]], failure, room);
    OthersJoin(from, own, order, i);
    forall j | 0 <= j < |from|
      ensures from[j] != order[i]
    {
      NoRepeatsBefore(order, i);
    }
    NoRepeatsConcat(from, [order[i]]);
  }

  /** The repair goes on with the part order[i] taken whole. */
  lemma GoesOn(plan: Partition, n: nat, k: nat, failure: nat, own: nat, order: seq<nat>, i: nat, groups: Partition, from: seq<nat>,
               group: seq<nat>)
    requires IsPartition(plan, n) && own < |plan| && failure in plan[own]
    requires IsOthersOrder(plan, own, order) && i < |order| && TakenSoFar(plan, failure, own, order, i, groups, from)
    requires |Concat(groups)| < k && group == TakenFrom(plan[order[i]], failure, k - |Concat(groups)|)
    requires |Concat(groups)| + |group| < k
    ensures group != []
    ensures var next := i + 1; TakenSoFar(plan, failure, own, order, next, groups + [group], from + [order[i]])
  {
    hide IsPartition, IsOthersOrder, Arranged, Concat, GroupsFrom, OtherParts;
    OrderFacts(plan, own, order);
    WholePart(plan, n, failure, own, order[i], k - |Concat(groups)|);
    GroupJoins(plan, failure, own, order, i, groups, from, group, k - |Concat(groups)|);
    LivePrefix(plan, failure, own, order, i);
    ConcatSnoc(groups, group);
    assert order[..i + 1] == order[..i] + [order[i]];
  }

  /** Another part than the own has nothing failed in it; it is not empty. */
  lemma WholePart(plan: Partition, n: nat, failure: nat, own: nat, p: nat, room: nat)
    requires IsPartition(plan, n) && own < |plan| && failure in plan[own] && p < |plan| && p != own
    requires |TakenFrom(plan[p], failure, room)| < room
    ensures TakenFrom(plan[p], failure, room) == plan[p] == Without(plan[p], [failure]) && plan[p] != []
  {
    OwnPartSize(plan, n, own, failure);
  }

  // The own part.

  lemma OwnStops(plan: Partition, k: nat, m: nat, failure: nat, own: nat, order: seq<nat>, group: seq<nat>)
    requires IsPartition(plan, k + m) && own < |plan| && failure in plan[own] && failure < k + m && m >= 1
    requires IsOthersOrder(plan, own, order) && group == TakenFrom(plan[own], failure, k) && |group| == k
    ensures var groups, from := if k > 0 then [group] else [], if k > 0 then [own] else [];
            && HelpersOk(groups, [failure], k, k + m) && GroupsFrom(plan, groups, from)
            && FewestParts(plan, failure, k, own, from)
  {
    hide IsPartition, HelpersOk, IsOthersOrder;
    OrderFacts(plan, own, order);
    OrderOk(plan, own, order);
    var live := Live(plan, [failure]);
    LiveBlocks(plan, k + m, [failure], [own] + order);
    var l := Concat(Arranged(live, [own] + order));
    ConcatIsPrefix(Arranged(live, [own] + order), 1);
    assert Arranged(live, [own] + order)[..1] == [] + [live[own]];
    ConcatSnoc([], live[own]);
    ConcatSnoc([], group);
    var groups, from: seq<nat> := if k > 0 then [group] else [], if k > 0 then [own] else [];
    assert Concat(groups) == group == l[..k] by { assert [] + [group] == [group]; }
    PrefixHelps(groups, l, [failure], k, k + m);
    OwnGroup(plan, failure, own, k);
  }

  lemma OwnGroup(plan: Partition, failure: nat, own: nat, room: nat)
    requires own < |plan|
    ensures var group := TakenFrom(plan[own], failure, room);
            group != [] ==> GroupsFrom(plan, [group], [own])
    ensures OtherParts([own], own) == [] && OtherParts([], own) == []
  {
    TakenInPart(plan[own], failure, room);
    OtherAlone(own, own);
  }

  lemma OwnGoesOn(plan: Partition, k: nat, failure: nat, own: nat, order: seq<nat>, group: seq<nat>)
    requires own < |plan| && IsOthersOrder(plan, own, order) && group == TakenFrom(plan[own], failure, k) && |group| < k
    ensures var groups, from := if |group| > 0 then [group] else [], if |group| > 0 then [own] else [];
            TakenSoFar(plan, failure, own, order, 0, groups, from) && |Concat(groups)| == |group|
  {
    OwnGroup(plan, failure, own, k);
    var live := Live(plan, [failure]);
    assert group == live[own] && order[..0] == [];
    assert Arranged(live, [own] + order[..0]) == [] + [live[own]];
    ConcatSnoc([], live[own]);
    ConcatSnoc([], group);
    assert [] + [group] == [group];
  }

  /** All live blocks together are enough. */
  lemma AllAreEnough(plan: Partition, k: nat, m: nat, failure: nat, own: nat, order: seq<nat>, groups: Partition, from: seq<nat>)
    requires IsPartition(plan, k + m) && own < |plan| && failure in plan[own] && failure < k + m && m >= 1
    requires IsOthersOrder(plan, own, order) && TakenSoFar(plan, failure, own, order, |order|, groups, from)
    ensures |Concat(groups)| >= k
  {
    hide IsPartition, GroupsFrom;
    OrderOk(plan, own, order);
    LiveBlocks(plan, k + m, [failure], [own] + order);
    assert order[..|order|] == order;
  }

  lemma NoParities(k: nat, group: seq<nat>)
    ensures ParitiesOf([], k) == [] && Concat([]) == [] && Concat([group]) == group
  {
    ConcatSnoc([], group);
    assert [] + [group] == [group];
  }

  lemma Stops(plan: Partition, k: nat, m: nat, failure: nat, own: nat, order: seq<nat>, i: nat, groups: Partition, from: seq<nat>,
              group: seq<nat>)
    requires IsPartition(plan, k + m) && own < |plan| && failure in plan[own] && failure < k + m && m >= 1
    requires IsOthersOrder(plan, own, order) && i < |order| && TakenSoFar(plan, failure, own, order, i, groups, from)
    requires |Concat(groups)| < k && group == TakenFrom(plan[order[i]], failure, k - |Concat(groups)|)
    requires |Concat(groups)| + |group| == k
    ensures HelpersOk(groups + [group], [failure], k, k + m) && GroupsFrom(plan, groups + [group], from + [order[i]])
    ensures FewestParts(plan, failure, k, own, from + [order[i]])
  {
    hide IsPartition, HelpersOk, FewestParts, OtherParts, Arranged, Concat;
    GroupJoins(plan, failure, own, order, i, groups, from, group, k - |Concat(groups)|);
    StopsWithHelpers(plan, k, m, failure, own, order, i, groups, group);
    StopsInTime(plan, k + m, k, failure, own, order, i, from + [order[i]]);
  }

  /** The part of the failed block, and the other parts, larger first. */
  method OrderOthers(plan: Partition, n: nat, failure: nat) returns (own: nat, order: seq<nat>)
    requires IsPartition(plan, n) && failure < n
    ensures own < |plan| && failure in plan[own] && IsOthersOrder(plan, own, order)
  {
    var pairs;
    own, pairs := OwnAndOthers(plan, n, failure);
    var sorted := SortDescending(pairs);
    OrderIs(plan, own, pairs, sorted);
    order := Firsts(sorted);
  }

  /** Completes the helpers from the other parts; `start` are the parities listed before any helper. */
  method TakeFromOthers(k: nat, m: nat, plan: Partition, failureIdx: nat, own: nat, order: seq<nat>, groups0: Partition, cnt0: nat,
                        ghost from0: seq<nat>, parity0: seq<nat>, ghost start: seq<nat>)
      returns (parityIdxs: seq<nat>, helpBlocks: Partition, ghost from: seq<nat>)
    requires IsPartition(plan, k + m) && m >= 1 && failureIdx < k + m && own < |plan| && failureIdx in plan[own]
    requires IsOthersOrder(plan, own, order) && TakenSoFar(plan, failureIdx, own, order, 0, groups0, from0)
    requires cnt0 == |Concat(groups0)| < k && parity0 == start + ParitiesOf(Concat(groups0), k)
    ensures HelpersOk(helpBlocks, [failureIdx], k, k + m)
    ensures GroupsFrom(plan, helpBlocks, from) && FewestParts(plan, failureIdx, k, own, from)
    ensures parityIdxs == start + ParitiesOf(Concat(helpBlocks), k)
  {
    hide IsPartition, HelpersOk, IsOthersOrder, TakenSoFar, TakenFrom, GroupsFrom, FewestParts, ParitiesOf, Concat, BySize;
    helpBlocks, from, parityIdxs := groups0, from0, parity0;
    var cnt := cnt0;
    OrderFacts(plan, own, order);
    for i := 0 to |order|
      invariant TakenSoFar(plan, failureIdx, own, order, i, helpBlocks, from) && cnt == |Concat(helpBlocks)| < k
      invariant parityIdxs == start + ParitiesOf(Concat(helpBlocks), k)
    {
      ghost var groups0, from0 := helpBlocks, from;
      var group;
      group, cnt, parityIdxs := TakePart(plan[order[i]], failureIdx, k, cnt, parityIdxs);
      ParitiesBoth(Concat(groups0), group, k);
      ConcatSnoc(groups0, group);
      if cnt > 0 && cnt <= k {
        helpBlocks, from := helpBlocks + [group], from + [order[i]];
      }
      if cnt == k {
        Stops(plan, k, m, failureIdx, own, order, i, groups0, from0, group);
        return;
      }
      GoesOn(plan, k + m, k, failureIdx, own, order, i, groups0, from0, group);
    }
    AllAreEnough(plan, k, m, failureIdx, own, order, helpBlocks, from);
  }

  /**
   The helpers for one failed block: k live blocks, first from its own part and then from the other parts,
   larger ones first, so that no repair can do with fewer other parts. A parity that is to be re-encoded
   gets the data blocks instead. The parities among the helpers are listed beside.
   */
  method HelpBlocksForSingleBlockRepair(k: nat, m: nat, plan: Partition, failureIdx: nat, partialScheme: bool)
      returns (parityIdxs: seq<nat>, helpBlocks: Partition, ghost own: nat, ghost from: seq<nat>)
    requires IsPartition(plan, k + m) && m >= 1 && failureIdx < k + m
    ensures HelpersOk(helpBlocks, [failureIdx], k, k + m) && GroupsFrom(plan, helpBlocks, from)
    ensures failureIdx >= k && !partialScheme ==> Concat(helpBlocks) == DataOf(Concat(plan), k)
    ensures failureIdx < k || partialScheme ==>
              && own < |plan| && failureIdx in plan[own]
              && FewestParts(plan, failureIdx, k, own, from)
    ensures parityIdxs == (if failureIdx >= k then [failureIdx] else [])
                          + (if failureIdx < k || partialScheme then ParitiesOf(Concat(helpBlocks), k) else [])
  {
    hide IsPartition, HelpersOk, IsOthersOrder, TakenSoFar, TakenFrom, GroupsFrom, FewestParts, ParitiesOf, Concat;
    parityIdxs := if failureIdx >= k then [failureIdx] else [];
    ghost var start := parityIdxs;
    own, from, helpBlocks := 0, [], [];
    if failureIdx < k || partialScheme {
      var mainIdx, order := OrderOthers(plan, k + m, failureIdx);
      own := mainIdx;
      var group, cnt, parity := TakePart(plan[mainIdx], failureIdx, k, 0, parityIdxs);
      parityIdxs := parity;
      NoParities(k, group);
      if cnt > 0 {
        helpBlocks, from := [group], [mainIdx];
      }
      if cnt == k {
        OwnStops(plan, k, m, failureIdx, mainIdx, order, group);
        return;
      }
      OwnGoesOn(plan, k, failureIdx, mainIdx, order, group);
      parityIdxs, helpBlocks, from :=
        TakeFromOthers(k, m, plan, failureIdx, mainIdx, order, helpBlocks, cnt, from, parityIdxs, start);
    } else {
      helpBlocks, from := DataHelpers(plan, k);
      NoneEmptyFrom(plan, helpBlocks, from);
      DataHelpersOk(helpBlocks, plan, k, k + m, [failureIdx]);
    }
  }
}

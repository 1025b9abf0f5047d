/**
 Spreading an Azure stripe over partitions so that losing any one of them can be repaired. Random parts of
 at most g + 1 blocks always can. The optimal partition puts the left-over ends of several groups together;
 with groups of equal size that is always repairable, and otherwise it is so exactly under a condition on
 the last group.
 */
module LrcPartition {
  import opened Listing
  import opened Partitions
  import opened RowMajor
  import opened LrcShape
  import opened LrcDecodable

  ghost predicate AllDecodable(c: Lrc, plan: Partition)
    requires LrcOk(c)
  {
    forall i :: 0 <= i < |plan| ==> Decodable(c, plan[i])
  }

  /** Losing any one random part can be repaired. */
  method RandomParts(c: Lrc) returns (plan: Partition)
    requires AzureOk(c)
    ensures IsPartition(plan, BlockNum(c)) && AllDecodable(c, plan)
  {
    plan := PartitionRandom(BlockNum(c), c.g + 1);
    forall i | 0 <= i < |plan|
      ensures Decodable(c, plan[i])
    {
      PartOf(plan, BlockNum(c), i);
      SmallFailuresDecodable(c, plan[i]);
    }
  }

  // Groups as lists.

  function Range(lo: nat, hi: nat): (r: seq<nat>)
    requires lo <= hi
    ensures |r| == hi - lo && forall i :: 0 <= i < |r| ==> r[i] == lo + i
  {
    seq(hi - lo, i requires 0 <= i < hi - lo => lo + i)
  }

  function DataSize(c: Lrc, i: nat): nat
    requires AzureOk(c)
  {
    GroupLoGrows(c, i);
    GroupLo(c, i + 1) - GroupLo(c, i)
  }

  /** The data blocks of a local group, then its parity. */
  function LocalGroup(c: Lrc, i: nat): (r: seq<nat>)
    requires AzureOk(c)
    ensures |r| == DataSize(c, i) + 1
  {
    GroupLoGrows(c, i);
    Range(GroupLo(c, i), GroupLo(c, i + 1)) + [c.k + c.g + i]
  }

  ghost predicate GroupsAre(c: Lrc, groups: seq<seq<nat>>)
    requires AzureOk(c)
  {
    forall i :: 0 <= i < |groups| ==> groups[i] == LocalGroup(c, i)
  }

  /** All the groups, the global parities last. */
  method GroupingInformation(c: Lrc) returns (groups: seq<seq<nat>>)
    requires AzureOk(c)
    ensures |groups| == c.l + 1 && groups[c.l] == Range(c.k, c.k + c.g) && GroupsAre(c, groups[..c.l])
  {
    groups := [];
    var idx := 0;
    for i := 0 to c.l
      invariant |groups| == i && idx == GroupLo(c, i)
      invariant GroupsAre(c, groups)
    {
      GroupLoGrows(c, i);
      assert (i + 1) * R(c) == i * R(c) + R(c);
      var localGroup: seq<nat> := [];
      var groupSize := Min(R(c), c.k - i * R(c));
      var j := 0;
      while j < groupSize
        invariant 0 <= j <= (if groupSize >= 0 then groupSize else 0) && idx == GroupLo(c, i) + j
        invariant localGroup == Range(GroupLo(c, i), idx)
      {
        localGroup := localGroup + [idx];
        idx := idx + 1;
        j := j + 1;
      }
      groups := groups + [localGroup + [c.k + c.g + i]];
    }
    GroupLoGrows(c, c.l);
    var globals: seq<nat> := [];
    for i := 0 to c.g
      invariant idx == c.k + i && globals == Range(c.k, c.k + i)
    {
      globals := globals + [idx];
      idx := idx + 1;
    }
    groups := groups + [globals];
  }

  lemma RangesJoin(a: nat, b: nat, d: nat)
    requires a <= b <= d
    ensures Range(a, b) + Range(b, d) == Range(a, d)
  {
  }

  /** The list holds the ids below `upTo` and the n ids from `base` on, each once. */
  ghost predicate Holds(all: seq<nat>, upTo: nat, base: nat, n: nat) {
    multiset(all) == multiset(Range(0, upTo)) + multiset(Range(base, base + n))
  }

  /** Taking in the ids from lo to hi and one more parity. */
  lemma HoldMore(all: seq<nat>, group: seq<nat>, lo: nat, hi: nat, base: nat, i: nat)
    requires lo <= hi && Holds(all, lo, base, i)
    requires group == Range(lo, hi) + [base + i]
    ensures var next := i + 1; Holds(all + group, hi, base, next)
  {
    RangesJoin(0, lo, hi);
    assert Range(base, base + i + 1) == Range(base, base + i) + [base + i];
    GrowBoth(all, group, Range(0, lo), Range(base, base + i), Range(lo, hi), [base + i]);
  }

  /** Adding the ids between two ranges. */
  lemma HoldBetween(all: seq<nat>, k: nat, g: nat, l: nat, n: nat)
    requires Holds(all, k, k + g, l) && n == k + g + l
    ensures SameBlocks(all + Range(k, k + g), UpTo(n))
  {
    hide Range, UpTo;
    RangesAll(k, g, n);
    PutBetween(all, Range(0, k), Range(k + g, n), Range(k, k + g));
  }

  lemma RangesAll(k: nat, g: nat, n: nat)
    requires k + g <= n
    ensures (Range(0, k) + Range(k, k + g)) + Range(k + g, n) == UpTo(n)
  {
  }

  /** The groups together hold every block once. */
  lemma {:induction false} GroupsHold(c: Lrc, groups: seq<seq<nat>>, n: nat)
    requires AzureOk(c) && n <= c.l && |groups| == n && GroupsAre(c, groups)
    ensures Holds(Concat(groups), GroupLo(c, n), c.k + c.g, n)
  {
    hide *;
    AzureFacts(c);
    if n == 0 {
      NothingHeld(c, groups);
    } else {
      var i := n - 1;
      LastGroupIs(c, groups);
      GroupsHold(c, groups[..i], i);
      ConcatLast(groups);
      HoldGroup(c, Concat(groups[..i]), i);
    }
  }

  lemma HoldGroup(c: Lrc, all: seq<nat>, i: nat)
    requires AzureOk(c) && Holds(all, GroupLo(c, i), c.k + c.g, i)
    ensures var next := i + 1; Holds(all + LocalGroup(c, i), GroupLo(c, next), c.k + c.g, next)
  {
    hide *;
    AzureFacts(c);
    GroupLoGrows(c, i);
    LocalGroupParts(c, i);
    HoldMore(all, LocalGroup(c, i), GroupLo(c, i), GroupLo(c, i + 1), c.k + c.g, i);
  }

  lemma LocalGroupParts(c: Lrc, i: nat)
    requires AzureOk(c)
    ensures GroupLo(c, i) <= GroupLo(c, i + 1)
    ensures LocalGroup(c, i) == Range(GroupLo(c, i), GroupLo(c, i + 1)) + [c.k + c.g + i]
  {
    GroupLoGrows(c, i);
  }

  lemma NothingHeld(c: Lrc, groups: seq<seq<nat>>)
    requires AzureOk(c) && groups == []
    ensures Holds(Concat(groups), GroupLo(c, 0), c.k + c.g, 0)
  {
    GroupLoGrows(c, 0);
    assert Range(0, 0) == [] && Range(c.k + c.g, c.k + c.g) == [];
  }

  lemma LastGroupIs(c: Lrc, groups: seq<seq<nat>>)
    requires AzureOk(c) && groups != [] && GroupsAre(c, groups)
    ensures var i := |groups| - 1; GroupsAre(c, groups[..i]) && groups[i] == LocalGroup(c, i)
  {
  }

  /** With the global parities that is the whole stripe. */
  lemma AllBlocksHeld(c: Lrc, groups: seq<seq<nat>>)
    requires AzureOk(c) && |groups| == c.l && GroupsAre(c, groups)
    ensures SameBlocks(Concat(groups) + Range(c.k, c.k + c.g), UpTo(BlockNum(c)))
  {
    hide *;
    AzureFacts(c);
    GroupLoGrows(c, c.l);
    GroupsHold(c, groups, c.l);
    HoldBetween(Concat(groups), c.k, c.g, c.l, BlockNum(c));
  }

  // Cutting the groups.

  /** How many blocks of group i do not fill a part of g + 1. */
  function RestSize(c: Lrc, i: nat): nat
    requires AzureOk(c)
  {
    (DataSize(c, i) + 1) % (c.g + 1)
  }

  /** The last t blocks of group i, its parity among them. */
  function Tail(c: Lrc, i: nat, t: nat): (r: seq<nat>)
    requires AzureOk(c) && 1 <= t <= DataSize(c, i) + 1
    ensures |r| == t
  {
    GroupLoGrows(c, i);
    Range(GroupLo(c, i + 1) - (t - 1), GroupLo(c, i + 1)) + [c.k + c.g + i]
  }

  lemma TailIsEnd(c: Lrc, i: nat, t: nat)
    requires AzureOk(c) && 1 <= t <= DataSize(c, i) + 1
    ensures Tail(c, i, t) == LocalGroup(c, i)[|LocalGroup(c, i)| - t..]
  {
  }

  /** The left-over ends of the first n groups, in order. */
  function Rests(c: Lrc, n: nat): seq<seq<nat>>
    requires AzureOk(c)
  {
    if n == 0 then []
    else if RestSize(c, n - 1) == 0 then Rests(c, n - 1)
    else
      RestFits(c, n - 1);
      Rests(c, n - 1) + [Tail(c, n - 1, RestSize(c, n - 1))]
  }

  lemma RestFits(c: Lrc, i: nat)
    requires AzureOk(c)
    ensures RestSize(c, i) <= DataSize(c, i) + 1 && RestSize(c, i) <= c.g
  {
    var n, w := DataSize(c, i) + 1, c.g + 1;
    if n < w {
      RowColOfPos(0, n, w);
      assert n % w == n;
    }
  }

  ghost predicate SmallParts(plan: Partition, most: nat) {
    forall i :: 0 <= i < |plan| ==> 0 < |plan[i]| <= most
  }

  /** Every part has g + 1 blocks, all of one group. */
  ghost predicate FullPieces(c: Lrc, plan: Partition)
    requires AzureOk(c)
  {
    forall a :: 0 <= a < |plan| ==> |plan[a]| == c.g + 1 && exists i :: 0 <= i < c.l && Within(plan[a], LocalGroup(c, i))
  }

  ghost predicate Within(part: seq<nat>, group: seq<nat>) { forall x :: x in part ==> x in group }

  lemma OneMorePiece(c: Lrc, plan: Partition, i: nat, j: nat)
    requires AzureOk(c) && FullPieces(c, plan) && i < c.l && j + (c.g + 1) <= |LocalGroup(c, i)|
    ensures FullPieces(c, plan + [LocalGroup(c, i)[j..j + (c.g + 1)]])
  {
    hide LocalGroup;
    var piece := LocalGroup(c, i)[j..j + (c.g + 1)];
    forall x | x in piece
      ensures x in LocalGroup(c, i)
    {
    }
    assert Within(piece, LocalGroup(c, i));
  }

  /** Cuts one group into parts of g + 1 blocks; what does not fill a part is left over. */
  method CutGroup(c: Lrc, group: seq<nat>, plan0: Partition, ghost i: nat) returns (plan: Partition, rest: seq<nat>)
    requires AzureOk(c) && SmallParts(plan0, c.g + 1) && FullPieces(c, plan0) && i < c.l && group == LocalGroup(c, i)
    ensures SmallParts(plan, c.g + 1) && FullPieces(c, plan)
    ensures |rest| == |group| % (c.g + 1) && rest == group[|group| - |rest|..]
    ensures SameBlocks(Concat(plan) + rest, Concat(plan0) + group)
  {
    hide *;
    plan, rest := plan0, [];
    var j := 0;
    ghost var cuts := 0;
    var w := c.g + 1;
    NothingTaken(plan0, group);
    while j < |group|
      invariant 0 <= j <= |group| && j == cuts * w && SmallParts(plan, w) && FullPieces(c, plan) && rest == []
      invariant SameBlocks(Concat(plan), Concat(plan0) + group[..j])
    {
      if j + w > |group| {
        rest := group[j..];
        CutEnds(group, j, cuts, w);
        SameAppend(Concat(plan), Concat(plan0) + group[..j], rest);
        SplitBack(Concat(plan0), group, j);
        return;
      }
      CutOnce(plan0, plan, group, j, w);
      OneMorePiece(c, plan, i, j);
      assert (cuts + 1) * w == cuts * w + w;
      plan := plan + [group[j..j + w]];
      j, cuts := j + w, cuts + 1;
    }
    CutEnds(group, j, cuts, w);
    SplitBack(Concat(plan0), group, j);
    assert Concat(plan) + [] == Concat(plan);
  }

  lemma NothingTaken(plan0: Partition, group: seq<nat>)
    ensures SameBlocks(Concat(plan0), Concat(plan0) + group[..0])
  {
    assert Concat(plan0) + group[..0] == Concat(plan0);
  }

  lemma SplitBack<X>(a: seq<X>, s: seq<X>, j: nat)
    requires j <= |s|
    ensures (a + s[..j]) + s[j..] == a + s && (j == |s| ==> s[..j] == s)
  {
  }

  lemma CutOnce(plan0: Partition, plan: Partition, group: seq<nat>, j: nat, w: nat)
    requires 0 < w && j + w <= |group| && SmallParts(plan, w)
    requires SameBlocks(Concat(plan), Concat(plan0) + group[..j])
    ensures var plan' := plan + [group[j..j + w]];
            SmallParts(plan', w) && SameBlocks(Concat(plan'), Concat(plan0) + group[..j + w])
  {
    hide Concat;
    ConcatSnoc(plan, group[j..j + w]);
    assert group[..j + w] == group[..j] + group[j..j + w];
    SameAppend(Concat(plan), Concat(plan0) + group[..j], group[j..j + w]);
    assert (Concat(plan0) + group[..j]) + group[j..j + w] == Concat(plan0) + group[..j + w];
  }

  lemma CutEnds(group: seq<nat>, j: nat, cuts: nat, w: nat)
    requires j == cuts * w && j <= |group| < j + w
    ensures |group| % w == |group| - j
  {
    RowColOfPos(cuts, |group| - j, w);
    assert |group| == Pos(cuts, |group| - j, w);
  }

  /** Cuts all the local groups. */
  method CutGroups(c: Lrc, groups: seq<seq<nat>>) returns (plan: Partition, remaining: seq<seq<nat>>)
    requires AzureOk(c) && |groups| == c.l && GroupsAre(c, groups)
    ensures SmallParts(plan, c.g + 1) && FullPieces(c, plan) && remaining == Rests(c, c.l)
    ensures SameBlocks(Concat(plan) + Concat(remaining), Concat(groups))
  {
    hide *;
    plan, remaining := [], [];
    NothingCut(c);
    assert groups[..0] == [];
    for i := 0 to c.l
      invariant SmallParts(plan, c.g + 1) && FullPieces(c, plan) && remaining == Rests(c, i)
      invariant SameBlocks(Concat(plan) + Concat(remaining), Concat(groups[..i]))
    {
      ghost var before, left := plan, remaining;
      var rest;
      GroupIs(c, groups, i);
      plan, rest := CutGroup(c, groups[i], plan, i);
      RestAdded(c, i, rest);
      if rest != [] {
        remaining := remaining + [rest];
      }
      RestMoved(before, plan, rest, left, groups, i);
    }
    assert groups[..c.l] == groups;
  }

  lemma NothingCut(c: Lrc)
    requires AzureOk(c)
    ensures SmallParts([], c.g + 1) && FullPieces(c, []) && Rests(c, 0) == [] && SameBlocks(Concat([]) + Concat([]), Concat([]))
  {
  }

  lemma GroupIs(c: Lrc, groups: seq<seq<nat>>, i: nat)
    requires AzureOk(c) && i < |groups| && GroupsAre(c, groups)
    ensures groups[i] == LocalGroup(c, i)
  {
  }

  /** The blocks of group i have gone to the parts or to its left-over end. */
  lemma RestMoved(before: Partition, after: Partition, rest: seq<nat>, left: Partition, groups: seq<seq<nat>>, i: nat)
    requires i < |groups| && SameBlocks(Concat(after) + rest, Concat(before) + groups[i])
    requires SameBlocks(Concat(before) + Concat(left), Concat(groups[..i]))
    ensures var next := i + 1; var left' := if rest == [] then left else left + [rest];
            SameBlocks(Concat(after) + Concat(left'), Concat(groups[..next]))
  {
    assert groups[..i + 1] == groups[..i] + [groups[i]];
    ConcatSnoc(groups[..i], groups[i]);
    ConcatSnoc(left, rest);
    hide Concat;
    MoveRest(Concat(before), Concat(after), rest, Concat(left), groups[i], Concat(groups[..i]));
    if rest == [] {
      assert Concat(left) + rest == Concat(left);
    }
  }

  lemma MoveRest<X>(before: seq<X>, after: seq<X>, rest: seq<X>, remaining: seq<X>, group: seq<X>, all: seq<X>)
    requires multiset(after + rest) == multiset(before + group)
    requires multiset(before + remaining) == multiset(all)
    ensures multiset(after + (remaining + rest)) == multiset(all + group)
  {
    var a, b, r, l, g := multiset(after), multiset(before), multiset(rest), multiset(remaining), multiset(group);
    assert a + (l + r) == (a + r) + l;
    assert (b + g) + l == (b + l) + g;
  }

  lemma RestAdded(c: Lrc, i: nat, rest: seq<nat>)
    requires AzureOk(c) && |rest| == |LocalGroup(c, i)| % (c.g + 1)
    requires rest == LocalGroup(c, i)[|LocalGroup(c, i)| - |rest|..]
    ensures var next := i + 1; Rests(c, next) == if rest == [] then Rests(c, i) else Rests(c, i) + [rest]
  {
    RestFits(c, i);
    if rest != [] {
      TailIsEnd(c, i, |rest|);
    }
  }
}

/**
 Planning the repair of an Azure stripe: groups with one failure repair it by themselves, in turn; what is
 left is repaired by one plan. The planner succeeds exactly when the decodability test accepts.
 */
module LrcPlanner {
  import opened Listing
  import opened Partitions
  import opened RepairAlgebra
  import opened LrcShape
  import opened LrcDecodable
  import opened LrcHelpers

  // Bookkeeping.

  /** What has been repaired and what is left make up the failures. */
  ghost predicate Tracks(failures: seq<nat>, repaired: seq<nat>, left: seq<nat>) {
    && NoRepeats(repaired) && NoRepeats(left) && (forall x :: x in left ==> x !in repaired)
    && forall x :: x in failures <==> x in repaired || x in left
  }

  /** The list without its entry at position i. */
  function Erased(s: seq<nat>, i: nat): seq<nat>
    requires i < |s|
  {
    s[..i] + s[i + 1..]
  }

  lemma ErasedList(s: seq<nat>, i: nat)
    requires NoRepeats(s) && i < |s|
    ensures NoRepeats(Erased(s, i)) && |Erased(s, i)| == |s| - 1
    ensures forall x :: x in Erased(s, i) <==> x in s && x != s[i]
  {
    var t := Erased(s, i);
    assert forall j :: 0 <= j < |t| ==> t[j] == if j < i then s[j] else s[j + 1];
    forall x
      ensures x in t <==> x in s && x != s[i]
    {
      if x in s && x != s[i] {
        var j :| 0 <= j < |s| && s[j] == x;
        assert t[if j < i then j else j - 1] == x;
      }
    }
  }

  lemma ErasedCount(s: seq<nat>, i: nat, lo: int, hi: int)
    requires i < |s|
    ensures CountIn(Erased(s, i), lo, hi) == CountIn(s, lo, hi) - (if lo <= s[i] < hi then 1 else 0)
  {
    assert s == s[..i] + [s[i]] + s[i + 1..];
    CountConcat(s[..i] + [s[i]], s[i + 1..], lo, hi);
    CountConcat(s[..i], [s[i]], lo, hi);
    CountConcat(s[..i], s[i + 1..], lo, hi);
    assert [s[i]][..0] == [];
  }

  /** Removes an entry from a list. */
  method Erase(s: seq<nat>, x: nat) returns (t: seq<nat>, ghost at: nat)
    requires x in s
    ensures at < |s| && s[at] == x && t == Erased(s, at)
  {
    var i := 0;
    while s[i] != x
      invariant 0 <= i < |s| && x in s[i..]
      decreases |s| - i
    {
      i := i + 1;
    }
    at := i;
    t := s[..i] + s[i + 1..];
  }

  /** How many blocks of group i, its parity included, are in the list. */
  ghost function InGroupCount(c: Lrc, s: seq<nat>, i: nat): nat
    requires AzureOk(c)
  {
    DataFailures(c, s, i) + LocalFailures(c, s, i)
  }

  /** Block x belongs to local group i. */
  ghost predicate Member(c: Lrc, x: nat, i: nat)
    requires AzureOk(c)
  {
    x < BlockNum(c) && i < c.l && Bid2Gid(c, x) == i
  }

  lemma MemberRange(c: Lrc, x: nat, i: nat)
    requires AzureOk(c) && x < BlockNum(c) && i < c.l
    ensures Member(c, x, i) <==> GroupLo(c, i) <= x < GroupLo(c, i + 1) || x == c.k + c.g + i
  {
    GroupLoGrows(c, i);
    if x < c.k {
      GroupRange(c, x, i);
    }
  }

  /** Erasing a block of one group changes that group's count and no other's. */
  lemma EraseCounts(c: Lrc, s: seq<nat>, at: nat, i: nat, j: nat)
    requires AzureOk(c) && at < |s| && Member(c, s[at], i) && j < c.l
    ensures InGroupCount(c, Erased(s, at), j) == InGroupCount(c, s, j) - (if j == i then 1 else 0)
    ensures j != i ==> Need(c, Erased(s, at), j) == Need(c, s, j)
    ensures GlobalFailures(c, Erased(s, at)) == GlobalFailures(c, s)
  {
    hide GroupLo;
    MemberRange(c, s[at], i);
    MemberRange(c, s[at], j);
    GroupLoGrows(c, i);
    GroupLoGrows(c, j);
    ErasedCount(s, at, GroupLo(c, j), GroupLo(c, j + 1));
    ErasedCount(s, at, c.k + c.g + j, c.k + c.g + j + 1);
    ErasedCount(s, at, c.k, c.k + c.g);
  }

  /** A group's only failure asks for no global parity, before or after it is repaired. */
  lemma LoneNeedsNothing(c: Lrc, s: seq<nat>, at: nat, i: nat)
    requires AzureOk(c) && at < |s| && Member(c, s[at], i) && InGroupCount(c, s, i) == 1
    ensures Need(c, s, i) == 0 && Need(c, Erased(s, at), i) == 0
  {
    EraseCounts(c, s, at, i, i);
  }

  lemma {:induction false} LoneTotal(c: Lrc, s: seq<nat>, at: nat, i: nat, n: nat)
    requires AzureOk(c) && at < |s| && Member(c, s[at], i) && InGroupCount(c, s, i) == 1 && n <= c.l
    ensures TotalNeed(c, Erased(s, at), n) == TotalNeed(c, s, n)
  {
    if n > 0 {
      LoneTotal(c, s, at, i, n - 1);
      hide GroupLo, Need;
      LoneNeedsNothing(c, s, at, i);
      EraseCounts(c, s, at, i, n - 1);
    }
  }

  /** Repairing a lone failure leaves the load as it was. */
  lemma LoneLoad(c: Lrc, s: seq<nat>, at: nat, i: nat)
    requires AzureOk(c) && at < |s| && Member(c, s[at], i) && InGroupCount(c, s, i) == 1
    ensures Load(c, Erased(s, at)) == Load(c, s)
  {
    LoneTotal(c, s, at, i, c.l);
    EraseCounts(c, s, at, i, i);
  }

  /** A group with one failure has no other. */
  lemma LoneIsOnly(c: Lrc, s: seq<nat>, at: nat, i: nat, y: nat)
    requires AzureOk(c) && at < |s| && Member(c, s[at], i) && InGroupCount(c, s, i) == 1
    requires Member(c, y, i) && y != s[at] && NoRepeats(s)
    ensures y !in s
  {
    EraseCounts(c, s, at, i, i);
    ErasedList(s, at);
    var t := Erased(s, at);
    CountWhole(t, GroupLo(c, i), GroupLo(c, i + 1));
    CountWhole(t, c.k + c.g + i, c.k + c.g + i + 1);
    MemberRange(c, y, i);
  }

  lemma SomeMember(c: Lrc, s: seq<nat>, i: nat) returns (at: nat)
    requires AzureOk(c) && FailuresOk(c, s) && i < c.l && InGroupCount(c, s, i) > 0
    ensures at < |s| && Member(c, s[at], i)
  {
    CountWhole(s, GroupLo(c, i), GroupLo(c, i + 1));
    CountWhole(s, c.k + c.g + i, c.k + c.g + i + 1);
    at :| 0 <= at < |s| && (GroupLo(c, i) <= s[at] < GroupLo(c, i + 1) || s[at] == c.k + c.g + i);
    MemberRange(c, s[at], i);
  }

  // Repair inside a group.

  /** The blocks of a group other than the lost one. */
  ghost function GroupMask(c: Lrc, x: nat): (m: seq<bool>)
    requires AzureOk(c) && x < BlockNum(c)
    ensures |m| == BlockNum(c) && forall y :: 0 <= y < BlockNum(c) ==> (m[y] <==> Bid2Gid(c, y) == Bid2Gid(c, x) && y != x)
  {
    seq(BlockNum(c), y requires 0 <= y < BlockNum(c) => Bid2Gid(c, y) == Bid2Gid(c, x) && y != x)
  }

  /** The local parities. */
  ghost function ParityMask(c: Lrc): (m: seq<bool>)
    ensures |m| == BlockNum(c) && forall y :: 0 <= y < BlockNum(c) ==> (m[y] <==> y >= c.k + c.g)
  {
    seq(BlockNum(c), y requires 0 <= y < BlockNum(c) => y >= c.k + c.g)
  }

  /** The helpers of one partition; a local parity among them is also listed as an equation. */
  method HelpFromPart(c: Lrc, part: seq<nat>, failureIdx: nat, parity0: seq<nat>) returns (parity: seq<nat>, helpBlock: seq<nat>)
    requires AzureOk(c) && failureIdx < BlockNum(c) && InRange(part, BlockNum(c))
    ensures helpBlock == Picked(part, GroupMask(c, failureIdx)) && InRange(helpBlock, BlockNum(c))
    ensures parity == parity0 + Picked(helpBlock, ParityMask(c))
  {
    hide Bid2Gid;
    ghost var mask, locals := GroupMask(c, failureIdx), ParityMask(c);
    parity, helpBlock := parity0, [];
    for j := 0 to |part|
      invariant helpBlock == Picked(part[..j], mask) && InRange(helpBlock, BlockNum(c))
      invariant parity == parity0 + Picked(helpBlock, locals)
    {
      var bid := part[j];
      assert part[..j + 1][..j] == part[..j];
      if Bid2Gid(c, bid) == Bid2Gid(c, failureIdx) && bid != failureIdx {
        assert (helpBlock + [bid])[..|helpBlock|] == helpBlock;
        helpBlock := helpBlock + [bid];
        if bid >= c.k + c.g {
          parity := parity + [bid];
        }
      }
    }
    assert part[..|part|] == part;
  }

  lemma NextPart(plan: Partition, i: nat, helpBlocks: seq<seq<nat>>, helpBlock: seq<nat>, mask: seq<bool>, locals: seq<bool>)
    requires i < |plan| && InRange(Concat(plan), |mask|) && |locals| == |mask| && InRange(Concat(plan[..i]), |mask|)
    requires Concat(helpBlocks) == Picked(Concat(plan[..i]), mask) && InRange(Concat(helpBlocks), |mask|)
    requires InRange(plan[i], |mask|) && helpBlock == Picked(plan[i], mask) && InRange(helpBlock, |mask|)
    ensures var after, next := if helpBlock == [] then helpBlocks else helpBlocks + [helpBlock], i + 1;
            && InRange(Concat(plan[..next]), |mask|) && Concat(after) == Picked(Concat(plan[..next]), mask)
            && InRange(Concat(after), |mask|)
            && Picked(Concat(after), locals) == Picked(Concat(helpBlocks), locals) + Picked(helpBlock, locals)
  {
    var next := i + 1;
    PartInRange(plan, i, |mask|);
    assert plan[..next] == plan[..i] + [plan[i]];
    ConcatSnoc(plan[..i], plan[i]);
    PickedConcat(Concat(plan[..i]), plan[i], mask);
    ConcatSnoc(helpBlocks, helpBlock);
    PickedConcat(Concat(helpBlocks), helpBlock, locals);
  }

  /** The helpers of a repair inside the group, and its parity equation. */
  method HelpInGroup(c: Lrc, plan: Partition, failureIdx: nat) returns (parity: seq<nat>, helpBlocks: seq<seq<nat>>)
    requires AzureOk(c) && IsPartition(plan, BlockNum(c)) && failureIdx < BlockNum(c) && Bid2Gid(c, failureIdx) < c.l
    ensures Concat(helpBlocks) == Picked(Concat(plan), GroupMask(c, failureIdx)) && InRange(Concat(helpBlocks), BlockNum(c))
    ensures GroupedByPart(plan, helpBlocks)
    ensures parity == [c.k + c.g + Bid2Gid(c, failureIdx)]
  {
    hide Bid2Gid, NoRepeats, Picked, GroupsFrom, GroupedByPart;
    ghost var mask, locals := GroupMask(c, failureIdx), ParityMask(c);
    helpBlocks := [];
    ghost var from: seq<nat> := [];
    parity := if failureIdx >= c.k + c.g then [failureIdx] else [];
    ghost var start := parity;
    PickedNothing(mask, locals);
    NothingCollected(plan, mask);
    for i := 0 to |plan|
      invariant InRange(Concat(plan[..i]), |mask|) && Concat(helpBlocks) == Picked(Concat(plan[..i]), mask)
      invariant InRange(Concat(helpBlocks), |mask|) && parity == start + Picked(Concat(helpBlocks), locals)
      invariant GroupsFrom(plan, helpBlocks, from) && forall x :: x in from ==> x < i
    {
      PartInRange(plan, i, |mask|);
      var helpBlock;
      parity, helpBlock := HelpFromPart(c, plan[i], failureIdx, parity);
      NextPart(plan, i, helpBlocks, helpBlock, mask, locals);
      if |helpBlock| > 0 {
        PickedInPart(plan, i, mask, helpBlocks, from);
        helpBlocks, from := helpBlocks + [helpBlock], from + [i];
      }
    }
    assert plan[..|plan|] == plan;
    GroupsByPart(plan, helpBlocks, from);
    OneLocalParity(c, plan, failureIdx, Concat(helpBlocks));
  }

  lemma PickedNothing(mask: seq<bool>, locals: seq<bool>)
    ensures Picked([], mask) == [] && Picked([], locals) == []
  {
  }

  lemma LocalParityMember(c: Lrc, plan: Partition, x: nat, helpers: seq<nat>, y: nat)
    requires AzureOk(c) && IsPartition(plan, BlockNum(c)) && x < BlockNum(c) && Bid2Gid(c, x) < c.l
    requires helpers == Picked(Concat(plan), GroupMask(c, x)) && InRange(helpers, BlockNum(c))
    ensures y in Picked(helpers, ParityMask(c)) <==> y == c.k + c.g + Bid2Gid(c, x) && y != x
  {
    hide Picked;
    var p := c.k + c.g + Bid2Gid(c, x);
    assert p < BlockNum(c) && p in Concat(plan);
    if y < BlockNum(c) {
      PickedMember(helpers, ParityMask(c), y);
      PickedMember(Concat(plan), GroupMask(c, x), y);
    } else {
      PickedInRange(helpers, ParityMask(c));
    }
  }

  lemma {:induction false} PickedInRange(s: seq<nat>, mask: seq<bool>)
    requires InRange(s, |mask|)
    ensures InRange(Picked(s, mask), |mask|) && forall y :: y in Picked(s, mask) ==> y < |mask|
  {
    if s != [] {
      PickedInRange(s[..|s| - 1], mask);
    }
  }

  /** The group's parity is either lost or found once among the helpers. */
  lemma OneLocalParity(c: Lrc, plan: Partition, x: nat, helpers: seq<nat>)
    requires AzureOk(c) && IsPartition(plan, BlockNum(c)) && x < BlockNum(c) && Bid2Gid(c, x) < c.l
    requires helpers == Picked(Concat(plan), GroupMask(c, x)) && InRange(helpers, BlockNum(c))
    ensures (if x >= c.k + c.g then [x] else []) + Picked(helpers, ParityMask(c)) == [c.k + c.g + Bid2Gid(c, x)]
  {
    hide Picked, NoRepeats;
    var p, locals := c.k + c.g + Bid2Gid(c, x), Picked(helpers, ParityMask(c));
    PickedNoRepeats(Concat(plan), GroupMask(c, x));
    PickedNoRepeats(helpers, ParityMask(c));
    forall y: nat
      ensures y in locals <==> y == p && y != x
    {
      LocalParityMember(c, plan, x, helpers, y);
    }
    if p == x {
      EmptyList(locals);
    } else {
      SingleList(locals, p);
    }
  }

  lemma EmptyList<X>(s: seq<X>)
    requires NoRepeats(s) && forall y :: y !in s
    ensures s == []
  {
    assert Elements(s) == {};
    SizeOfElements(s);
  }

  lemma SingleList<X>(s: seq<X>, x: X)
    requires NoRepeats(s) && forall y :: y in s <==> y == x
    ensures s == [x]
  {
    assert x in s && Elements(s) == {x};
    SizeOfElements(s);
  }
}

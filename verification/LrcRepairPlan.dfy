/** The repair plans of an Azure stripe: decodable failures, and only those, get plans that repair each of them once. */
module LrcRepairPlan {
  import opened Listing
  import opened Fields
  import opened Sums
  import opened Matrices
  import opened ErasureCode
  import opened BlockRepair
  import opened Partitions
  import opened RepairAlgebra
  import opened LrcShape
  import opened LrcMatrices
  import opened LrcFullMatrix
  import opened LrcCode
  import opened LrcDecodable
  import opened LrcHelpers
  import opened LrcMulti
  import opened LrcChoice
  import opened LrcSeveral
  import opened LrcPlanner

  /** The planner's state: what is left, its map and its count per group, and the plans so far. */
  ghost predicate Going(c: Lrc, failures: seq<nat>, left: seq<nat>, fmap: seq<bool>, cnt: seq<int>, plans: seq<RepairPlan>)
    requires AzureOk(c)
  {
    && FailuresOk(c, left) && MapOf(c, left, fmap) && Tracks(failures, Repaired(plans), left)
    && |cnt| == c.l && (forall i :: 0 <= i < c.l ==> cnt[i] == InGroupCount(c, left, i))
    && PlansOk(c, plans, failures)
  }

  /** What is repaired at once: no group has only one of the failures, and the equations are those of the given priority. */
  ghost predicate RestChosen(c: Lrc, failures: seq<nat>, parity: seq<nat>, globalPriority: bool)
    requires AzureOk(c)
  {
    && (forall i :: 0 <= i < c.l ==> InGroupCount(c, failures, i) != 1)
    && if GlobalFailures(c, failures) == |failures| then parity == failures
       else EquationsChosen(c, failures, parity, globalPriority)
  }

  /** The helpers are grouped by their parts, each has a part in an equation, and the equations are the right ones. */
  ghost predicate PlanSuits(c: Lrc, plan: Partition, p: RepairPlan, globalPriority: bool)
    requires AzureOk(c)
  {
    && GroupedByPart(plan, p.helpBlocks) && NoneIdle(c, p.parityIdxs, Concat(p.helpBlocks))
    && (!p.localOrColumn ==> RestChosen(c, p.failureIdxs, p.parityIdxs, globalPriority))
  }

  /** All plans are right; the one that is not inside a group, if there is one, comes last. */
  ghost predicate PlansSuit(c: Lrc, plan: Partition, plans: seq<RepairPlan>, globalPriority: bool)
    requires AzureOk(c)
  {
    forall i :: 0 <= i < |plans| ==>
      PlanSuits(c, plan, plans[i], globalPriority) && (i < |plans| - 1 ==> plans[i].localOrColumn)
  }

  ghost predicate AllLocal(plans: seq<RepairPlan>) { forall i :: 0 <= i < |plans| ==> plans[i].localOrColumn }

  lemma OneMoreSuits(c: Lrc, plan: Partition, plans: seq<RepairPlan>, p: RepairPlan, globalPriority: bool)
    requires AzureOk(c) && PlansSuit(c, plan, plans, globalPriority) && AllLocal(plans)
    requires PlanSuits(c, plan, p, globalPriority)
    ensures PlansSuit(c, plan, plans + [p], globalPriority) && (p.localOrColumn ==> AllLocal(plans + [p]))
  {
    hide PlanSuits;
  }

  /** A plan inside one group. */
  lemma GroupPlanOk(c: Lrc, plan: Partition, failures: seq<nat>, left: seq<nat>, repaired: seq<nat>, at: nat,
                    parity: seq<nat>, helpBlocks: seq<seq<nat>>)
    requires AzureOk(c) && IsPartition(plan, BlockNum(c)) && FailuresOk(c, left) && Tracks(failures, repaired, left)
    requires at < |left| && Member(c, left[at], Bid2Gid(c, left[at])) && InGroupCount(c, left, Bid2Gid(c, left[at])) == 1
    requires Concat(helpBlocks) == Picked(Concat(plan), GroupMask(c, left[at]))
    requires GroupedByPart(plan, helpBlocks)
    requires parity == [c.k + c.g + Bid2Gid(c, left[at])]
    ensures PlanOk(c, RepairPlan(true, [left[at]], parity, helpBlocks), failures, repaired)
    ensures forall globalPriority :: PlanSuits(c, plan, RepairPlan(true, [left[at]], parity, helpBlocks), globalPriority)
  {
    hide InGroupCount, Bid2Gid, Picked, SamePart, RestChosen;
    var x, mask := left[at], GroupMask(c, left[at]);
    var helpers := Concat(helpBlocks);
    HelpersArePicked(c, plan, mask, helpBlocks);
    forall i | 0 <= i < |helpers|
      ensures helpers[i] != x && Readable(helpers[i], failures, repaired)
    {
      LoneIsOnly(c, left, at, Bid2Gid(c, x), helpers[i]);
    }
    GroupCovered(c, x, helpers);
    OwnParityFed(c, x);
    GroupNotIdle(c, x, helpers);
  }

  lemma GroupNotIdle(c: Lrc, x: nat, helpers: seq<nat>)
    requires AzureOk(c) && x < BlockNum(c) && Bid2Gid(c, x) < c.l
    requires forall i :: 0 <= i < |helpers| ==> helpers[i] < BlockNum(c) && GroupMask(c, x)[helpers[i]]
    ensures NoneIdle(c, [c.k + c.g + Bid2Gid(c, x)], helpers)
  {
    var p := c.k + c.g + Bid2Gid(c, x);
    forall i | 0 <= i < |helpers|
      ensures Helps(c, helpers[i], [p])
    {
      OwnParityFed(c, helpers[i]);
      assert p in [p];
    }
  }

  lemma OwnParityFed(c: Lrc, x: nat)
    requires AzureOk(c) && x < BlockNum(c) && Bid2Gid(c, x) < c.l
    ensures c.k + c.g + Bid2Gid(c, x) < BlockNum(c) && Feeds(c, x, c.k + c.g + Bid2Gid(c, x))
  {
  }

  lemma GroupCovered(c: Lrc, x: nat, helpers: seq<nat>)
    requires AzureOk(c) && x < BlockNum(c) && Bid2Gid(c, x) < c.l
    requires forall y :: 0 <= y < BlockNum(c) && GroupMask(c, x)[y] ==> y in helpers
    ensures c.k <= c.k + c.g + Bid2Gid(c, x) < BlockNum(c) && Covers(c, [c.k + c.g + Bid2Gid(c, x)], [x], helpers)
  {
    var p := c.k + c.g + Bid2Gid(c, x);
    forall j | 0 <= j < BlockNum(c) && Feeds(c, j, p)
      ensures j == x || j in helpers
    {
      assert j != x ==> GroupMask(c, x)[j];
    }
  }

  /** Repairing the only failure of a group keeps the planner going and the load as it was. */
  lemma GroupRepaired(c: Lrc, failures: seq<nat>, left: seq<nat>, fmap: seq<bool>, cnt: seq<int>, plans: seq<RepairPlan>,
                      at: nat, gid: nat, p: RepairPlan)
    requires AzureOk(c) && Going(c, failures, left, fmap, cnt, plans) && at < |left|
    requires Member(c, left[at], gid) && cnt[gid] == 1
    requires p.failureIdxs == [left[at]] && PlanOk(c, p, failures, Repaired(plans))
    ensures Going(c, failures, Erased(left, at), fmap[left[at] := false], cnt[gid := 0], plans + [p])
    ensures Load(c, Erased(left, at)) == Load(c, left)
  {
    hide PlanOk, InGroupCount, PlansOk, Load, Repaired;
    ErasedList(left, at);
    LoneLoad(c, left, at, gid);
    forall i | 0 <= i < c.l
      ensures InGroupCount(c, Erased(left, at), i) == if i == gid then 0 else InGroupCount(c, left, i)
    {
      EraseCounts(c, left, at, gid, i);
    }
    PlansMore(c, plans, p, failures);
    TrackOne(failures, Repaired(plans), left, at);
    StillFailures(c, left, at);
  }

  lemma TrackOne(failures: seq<nat>, repaired: seq<nat>, left: seq<nat>, at: nat)
    requires Tracks(failures, repaired, left) && at < |left|
    ensures Tracks(failures, repaired + [left[at]], Erased(left, at))
  {
    hide Erased;
    ErasedList(left, at);
    NoRepeatsConcat(repaired, [left[at]]);
  }

  lemma StillFailures(c: Lrc, left: seq<nat>, at: nat)
    requires FailuresOk(c, left) && at < |left|
    ensures FailuresOk(c, Erased(left, at))
  {
    ErasedList(left, at);
    forall i | 0 <= i < |Erased(left, at)|
      ensures Erased(left, at)[i] < BlockNum(c)
    {
      assert Erased(left, at)[i] in Erased(left, at);
    }
  }

  /** The first failure of the group, in block order. */
  method FindFailure(c: Lrc, fmap: seq<bool>, gid: nat, ghost left: seq<nat>) returns (x: nat)
    requires AzureOk(c) && FailuresOk(c, left) && MapOf(c, left, fmap) && gid < c.l && InGroupCount(c, left, gid) > 0
    ensures x in left && Member(c, x, gid)
  {
    hide InGroupCount, Bid2Gid;
    ghost var at := SomeMember(c, left, gid);
    ghost var y := left[at];
    assert y in left;
    x := 0;
    while !(fmap[x] && Bid2Gid(c, x) == gid)
      invariant x <= y
      decreases y - x
    {
      x := x + 1;
    }
  }

  /** One pass over the groups: those with a single failure repair it. */
  method LocalPass(c: Lrc, plan: Partition, failures: seq<nat>, left0: seq<nat>, fmap0: seq<bool>, cnt0: seq<int>,
                   plans0: seq<RepairPlan>, ghost globalPriority: bool)
      returns (left: seq<nat>, fmap: seq<bool>, cnt: seq<int>, plans: seq<RepairPlan>)
    requires AzureOk(c) && IsPartition(plan, BlockNum(c)) && Going(c, failures, left0, fmap0, cnt0, plans0)
    requires PlansSuit(c, plan, plans0, globalPriority) && AllLocal(plans0)
    ensures Going(c, failures, left, fmap, cnt, plans) && Load(c, left) == Load(c, left0) && |left| <= |left0|
    ensures PlansSuit(c, plan, plans, globalPriority) && AllLocal(plans)
    ensures forall i :: 0 <= i < c.l ==> cnt[i] != 1
  {
    hide InGroupCount, Bid2Gid, PlanOk, PlansOk, Load, Repaired, Picked, PlanSuits, PlansSuit, AllLocal, GroupedByPart;
    left, fmap, cnt, plans := left0, fmap0, cnt0, plans0;
    for gid := 0 to c.l
      invariant Going(c, failures, left, fmap, cnt, plans) && Load(c, left) == Load(c, left0) && |left| <= |left0|
      invariant PlansSuit(c, plan, plans, globalPriority) && AllLocal(plans)
      invariant forall i :: 0 <= i < gid ==> cnt[i] != 1
    {
      if cnt[gid] == 1 {
        var x := FindFailure(c, fmap, gid, left);
        var parity, helpBlocks := HelpInGroup(c, plan, x);
        var rest;
        ghost var at;
        rest, at := Erase(left, x);
        var p := RepairPlan(true, [x], parity, helpBlocks);
        GroupPlanOk(c, plan, failures, left, Repaired(plans), at, parity, helpBlocks);
        GroupRepaired(c, failures, left, fmap, cnt, plans, at, gid, p);
        ErasedList(left, at);
        OneMoreSuits(c, plan, plans, p, globalPriority);
        left, fmap, cnt, plans := rest, fmap[x := false], cnt[gid := 0], plans + [p];
      }
    }
  }

  /** The failures that are left, in block order, and how many of them are global parities. */
  method ListLeft(c: Lrc, fmap: seq<bool>, ghost left: seq<nat>) returns (idxs: seq<nat>, fgCnt: nat)
    requires FailuresOk(c, left) && MapOf(c, left, fmap)
    ensures NoRepeats(idxs) && |idxs| == |left| && forall x :: x in idxs <==> x in left
    ensures fgCnt == GlobalFailures(c, idxs)
  {
    idxs, fgCnt := [], 0;
    for i := 0 to BlockNum(c)
      invariant NoRepeats(idxs) && (forall x :: x in idxs <==> x in left && x < i) && fgCnt == GlobalFailures(c, idxs)
    {
      if fmap[i] {
        NoRepeatsConcat(idxs, [i]);
        assert (idxs + [i])[..|idxs|] == idxs;
        idxs := idxs + [i];
        if i >= c.k && i < c.k + c.g {
          fgCnt := fgCnt + 1;
        }
      }
    }
    forall x | x in left
      ensures x < BlockNum(c)
    {
    }
    SameLength(idxs, left);
  }

  /** The same blocks are counted alike in any order. */
  lemma {:induction false} CountSameMembers(s: seq<nat>, t: seq<nat>, lo: nat, hi: nat)
    requires NoRepeats(s) && NoRepeats(t) && forall x :: x in s <==> x in t
    ensures CountIn(s, lo, hi) == CountIn(t, lo, hi)
    decreases hi - lo
  {
    if hi <= lo {
      CountWhole(s, lo, hi);
      CountWhole(t, lo, hi);
    } else {
      CountSameMembers(s, t, lo, hi - 1);
      CountSplit(s, lo, hi - 1, hi);
      CountSplit(t, lo, hi - 1, hi);
      CountOne(s, hi - 1);
      CountOne(t, hi - 1);
    }
  }

  lemma {:induction false} NeedSame(c: Lrc, s: seq<nat>, t: seq<nat>, n: nat)
    requires AzureOk(c) && NoRepeats(s) && NoRepeats(t) && (forall x :: x in s <==> x in t)
    ensures TotalNeed(c, s, n) == TotalNeed(c, t, n)
  {
    if n > 0 {
      NeedSame(c, s, t, n - 1);
      GroupSame(c, s, t, n - 1);
    }
  }

  lemma GroupSame(c: Lrc, s: seq<nat>, t: seq<nat>, i: nat)
    requires AzureOk(c) && NoRepeats(s) && NoRepeats(t) && forall x :: x in s <==> x in t
    ensures DataFailures(c, s, i) == DataFailures(c, t, i) && LocalFailures(c, s, i) == LocalFailures(c, t, i)
  {
    hide GroupLo;
    CountSameMembers(s, t, GroupLo(c, i), GroupLo(c, i + 1));
    CountSameMembers(s, t, c.k + c.g + i, c.k + c.g + i + 1);
  }

  /** The choice of equations depends only on which blocks have failed. */
  lemma ChosenSame(c: Lrc, s: seq<nat>, t: seq<nat>, parity: seq<nat>, globalPriority: bool)
    requires AzureOk(c) && NoRepeats(s) && NoRepeats(t) && forall x :: x in s <==> x in t
    requires EquationsChosen(c, s, parity, globalPriority)
    ensures EquationsChosen(c, t, parity, globalPriority)
  {
    hide DataFailures, TotalNeed;
    forall x: nat
      ensures OwnTaken(c, s, x) <==> OwnTaken(c, t, x)
    {
      if c.k + c.g <= x < BlockNum(c) {
        GroupSame(c, s, t, x - c.k - c.g);
      }
    }
    NeedSame(c, s, t, c.l);
    CountSameMembers(s, t, c.k, c.k + c.g);
  }

  lemma RestIsChosen(c: Lrc, left: seq<nat>, idxs: seq<nat>, parity: seq<nat>, globalPriority: bool)
    requires AzureOk(c) && NoRepeats(left) && NoRepeats(idxs) && |idxs| == |left| && forall x :: x in left <==> x in idxs
    requires forall i :: 0 <= i < c.l ==> InGroupCount(c, left, i) != 1
    requires if GlobalFailures(c, left) == |left| then parity == idxs else EquationsChosen(c, left, parity, globalPriority)
    ensures RestChosen(c, idxs, parity, globalPriority)
  {
    hide DataFailures, LocalFailures, EquationsChosen;
    CountSameMembers(left, idxs, c.k, c.k + c.g);
    forall i: nat | i < c.l
      ensures InGroupCount(c, idxs, i) != 1
    {
      assert InGroupCount(c, left, i) != 1;
      GroupSame(c, left, idxs, i);
    }
    if GlobalFailures(c, left) != |left| {
      ChosenSame(c, left, idxs, parity, globalPriority);
    }
  }

  /** When not all that is left is global parities, some group has two failures, so some data block is lost. */
  lemma SomeDataLost(c: Lrc, left: seq<nat>)
    requires AzureOk(c) && FailuresOk(c, left) && (forall i :: 0 <= i < c.l ==> InGroupCount(c, left, i) != 1)
    requires GlobalFailures(c, left) != |left|
    ensures CountIn(left, 0, c.k) > 0
  {
    hide GroupLo;
    CountWhole(left, c.k, c.k + c.g);
    var at :| 0 <= at < |left| && !(c.k <= left[at] < c.k + c.g);
    var x := left[at];
    if x < c.k {
      CountWhole(left, 0, c.k);
    } else {
      var i := x - c.k - c.g;
      CountOne(left, x);
      assert x in left;
      assert InGroupCount(c, left, i) != 1;
      GroupLoGrows(c, i);
      CountSplit(left, 0, GroupLo(c, i), c.k);
      CountSplit(left, GroupLo(c, i), GroupLo(c, i + 1), c.k);
    }
  }

  /** With only global parities lost the data blocks re-encode them. */
  lemma OnlyGlobals(c: Lrc, left: seq<nat>)
    requires AzureOk(c) && FailuresOk(c, left) && GlobalFailures(c, left) == |left|
    ensures Decodable(c, left) && forall i :: 0 <= i < |left| ==> c.k <= left[i] < c.k + c.g
  {
    CountWhole(left, 0, BlockNum(c));
    CountSplit(left, 0, c.k, BlockNum(c));
    CountSplit(left, c.k, c.k + c.g, BlockNum(c));
    GroupLoGrows(c, c.l);
    GroupsAbsorb(c, left, c.l);
    CountAtMost(left, c.k, c.k + c.g);
    GlobalsOnly(left, c.k, c.k + c.g);
  }

  lemma {:induction false} GlobalsOnly(s: seq<nat>, lo: nat, hi: nat)
    requires CountIn(s, lo, hi) == |s|
    ensures forall i :: 0 <= i < |s| ==> lo <= s[i] < hi
  {
    if s != [] {
      var n := |s| - 1;
      CountWhole(s[..n], lo, hi);
      GlobalsOnly(s[..n], lo, hi);
      assert forall i :: 0 <= i < n ==> s[..n][i] == s[i];
    }
  }

  /** The helpers are all the data blocks, part by part. */
  ghost predicate DataHelp(c: Lrc, plan: Partition, helpBlocks: seq<seq<nat>>) {
    && NoRepeats(Concat(helpBlocks)) && helpBlocks != [] && GroupedByPart(plan, helpBlocks)
    && (forall i :: 0 <= i < |Concat(helpBlocks)| ==> Concat(helpBlocks)[i] < c.k)
    && forall x :: 0 <= x < c.k ==> x in Concat(helpBlocks)
  }

  method HelpFromData(c: Lrc, plan: Partition) returns (helpBlocks: seq<seq<nat>>)
    requires AzureOk(c) && IsPartition(plan, BlockNum(c))
    ensures DataHelp(c, plan, helpBlocks)
  {
    hide NoRepeats, Picked, GroupedByPart;
    var mask := seq(BlockNum(c), x => x < c.k);
    helpBlocks := CollectHelpers(plan, mask, BlockNum(c));
    HelpersArePicked(c, plan, mask, helpBlocks);
    assert mask[0];
  }

  /** A plan for all that is left, from equations and helpers that fit it. */
  lemma RestPlanOk(c: Lrc, plan: Partition, failures: seq<nat>, repaired: seq<nat>, left: seq<nat>, p: RepairPlan)
    requires AzureOk(c) && FailuresOk(c, left) && left != [] && Tracks(failures, repaired, left)
    requires NoRepeats(p.failureIdxs) && |p.failureIdxs| == |left| && (forall x :: x in p.failureIdxs <==> x in left)
    requires MultiOk(c, plan, left, p.parityIdxs, p.helpBlocks) && !p.localOrColumn
    ensures PlanOk(c, p, failures, repaired)
    ensures GroupedByPart(plan, p.helpBlocks) && NoneIdle(c, p.parityIdxs, Concat(p.helpBlocks))
  {
    hide Feeds, SamePart, NoneIdle;
    forall i | 0 <= i < |p.failureIdxs|
      ensures p.failureIdxs[i] < BlockNum(c)
    {
      assert p.failureIdxs[i] in left;
    }
  }

  /** The lost global parities with the data blocks as helpers. */
  lemma GlobalsPlanOk(c: Lrc, plan: Partition, left: seq<nat>, idxs: seq<nat>, helpBlocks: seq<seq<nat>>)
    requires AzureOk(c) && FailuresOk(c, left) && left != [] && GlobalFailures(c, left) == |left|
    requires NoRepeats(idxs) && |idxs| == |left| && forall x :: x in idxs <==> x in left
    requires DataHelp(c, plan, helpBlocks)
    ensures Decodable(c, left) && MultiOk(c, plan, left, idxs, helpBlocks)
  {
    hide GroupedByPart, Helps, Feeds, GroupLo, NoRepeats, Concat;
    OnlyGlobals(c, left);
    forall i | 0 <= i < |idxs|
      ensures c.k <= idxs[i] < c.k + c.g
    {
      assert idxs[i] in left;
    }
    GlobalsUseData(c, idxs, left, Concat(helpBlocks));
  }

  /** The equations of global parities involve the data blocks, all of them, and the parities themselves. */
  lemma GlobalsUseData(c: Lrc, parity: seq<nat>, left: seq<nat>, helpers: seq<nat>)
    requires AzureOk(c) && parity != [] && forall i :: 0 <= i < |parity| ==> c.k <= parity[i] < c.k + c.g && parity[i] in left
    requires (forall i :: 0 <= i < |helpers| ==> helpers[i] < c.k) && forall x :: 0 <= x < c.k ==> x in helpers
    ensures (forall i :: 0 <= i < |parity| ==> c.k <= parity[i] < BlockNum(c)) && Covers(c, parity, left, helpers)
    ensures NoneIdle(c, parity, helpers)
  {
    forall i | 0 <= i < |helpers|
      ensures Helps(c, helpers[i], parity)
    {
      assert parity[0] in parity && Feeds(c, helpers[i], parity[0]);
    }
  }

  /** One plan for everything that is left; it has no helpers when there is no way to repair it. */
  method PlanRest(c: Lrc, plan: Partition, left: seq<nat>, fmap: seq<bool>, repairPriority: bool,
                  ghost failures: seq<nat>, ghost repaired: seq<nat>) returns (p: RepairPlan)
    requires AzureOk(c) && IsPartition(plan, BlockNum(c)) && FailuresOk(c, left) && MapOf(c, left, fmap) && left != []
    requires Tracks(failures, repaired, left) && forall i :: 0 <= i < c.l ==> InGroupCount(c, left, i) != 1
    ensures p.helpBlocks != [] <==> Decodable(c, left)
    ensures Decodable(c, left) ==> PlanOk(c, p, failures, repaired) && PlanSuits(c, plan, p, repairPriority)
    ensures NoRepeats(p.failureIdxs) && forall x :: x in p.failureIdxs <==> x in left
  {
    hide InGroupCount, Decodable, MultiOk, PlanOk, CountIn, GroupLo, NoRepeats, EquationsChosen, DataHelp, GroupedByPart, RestChosen,
         NoneIdle;
    var idxs, fgCnt := ListLeft(c, fmap, left);
    CountSameMembers(idxs, left, c.k, c.k + c.g);
    var parity: seq<nat>, helpBlocks: seq<seq<nat>>;
    if fgCnt == |left| {
      parity := idxs;
      helpBlocks := HelpFromData(c, plan);
      GlobalsPlanOk(c, plan, left, idxs, helpBlocks);
    } else {
      SomeDataLost(c, left);
      if repairPriority {
        parity, helpBlocks := WithGlobalPriority(c, plan, left);
      } else {
        parity, helpBlocks := WithLocalPriority(c, plan, left);
      }
    }
    p := RepairPlan(false, idxs, parity, helpBlocks);
    if Decodable(c, left) {
      MultiHasHelp(c, plan, left, parity, helpBlocks);
      RestPlanOk(c, plan, failures, repaired, left, p);
      RestIsChosen(c, left, idxs, parity, repairPriority);
    }
  }

  lemma MultiHasHelp(c: Lrc, plan: Partition, left: seq<nat>, parity: seq<nat>, helpBlocks: seq<seq<nat>>)
    requires LrcOk(c) && MultiOk(c, plan, left, parity, helpBlocks)
    ensures helpBlocks != []
  {
  }

  /** Counting the failures of each group, and mapping them. */
  method CountGroups(c: Lrc, failureIdxs: seq<nat>) returns (fmap: seq<bool>, cnt: seq<int>)
    requires AzureOk(c) && FailuresOk(c, failureIdxs)
    ensures Going(c, failureIdxs, failureIdxs, fmap, cnt, [])
  {
    hide DataFailures, LocalFailures, Bid2Gid;
    fmap, cnt := seq(BlockNum(c), _ => false), seq(c.l, _ => 0);
    NoneCounted(c);
    for n := 0 to |failureIdxs|
      invariant |fmap| == BlockNum(c) && forall x :: 0 <= x < BlockNum(c) ==> (fmap[x] <==> x in failureIdxs[..n])
      invariant |cnt| == c.l && forall i :: 0 <= i < c.l ==> cnt[i] == InGroupCount(c, failureIdxs[..n], i)
    {
      var idx := failureIdxs[n];
      assert failureIdxs[..n + 1] == failureIdxs[..n] + [idx];
      forall i | 0 <= i < c.l
        ensures InGroupCount(c, failureIdxs[..n + 1], i)
                == InGroupCount(c, failureIdxs[..n], i) + (if Bid2Gid(c, idx) == i then 1 else 0)
      {
        GroupCountsMore(c, failureIdxs[..n], idx, i);
      }
      fmap := fmap[idx := true];
      if Bid2Gid(c, idx) < c.l {
        cnt := cnt[Bid2Gid(c, idx) := cnt[Bid2Gid(c, idx)] + 1];
      }
    }
    assert failureIdxs[..|failureIdxs|] == failureIdxs;
  }

  lemma NoneCounted(c: Lrc)
    requires AzureOk(c)
    ensures forall i: nat :: InGroupCount(c, [], i) == 0
  {
  }

  lemma GroupCountsMore(c: Lrc, s: seq<nat>, x: nat, i: nat)
    requires AzureOk(c) && x < BlockNum(c) && i < c.l
    ensures InGroupCount(c, s + [x], i) == InGroupCount(c, s, i) + (if Bid2Gid(c, x) == i then 1 else 0)
  {
    hide DataFailures, LocalFailures;
    CountsMore(c, s, x, i);
    RBounds(c);
  }

  /** Every failure is repaired by exactly one of the plans, and each plan can be carried out in turn. */
  ghost predicate AllRepaired(c: Lrc, failures: seq<nat>, plans: seq<RepairPlan>)
    requires LrcOk(c)
  {
    PlansOk(c, plans, failures) && NoRepeats(Repaired(plans)) && forall x :: x in Repaired(plans) <==> x in failures
  }

  lemma NothingLeft(c: Lrc, failures: seq<nat>, left: seq<nat>, fmap: seq<bool>, cnt: seq<int>, plans: seq<RepairPlan>)
    requires AzureOk(c) && Going(c, failures, left, fmap, cnt, plans) && left == []
    ensures AllRepaired(c, failures, plans) && Decodable(c, left)
  {
    GroupsAbsorb(c, left, c.l);
  }

  lemma RestRepaired(c: Lrc, failures: seq<nat>, left: seq<nat>, fmap: seq<bool>, cnt: seq<int>, plans: seq<RepairPlan>,
                     p: RepairPlan)
    requires AzureOk(c) && Going(c, failures, left, fmap, cnt, plans) && PlanOk(c, p, failures, Repaired(plans))
    requires NoRepeats(p.failureIdxs) && forall x :: x in p.failureIdxs <==> x in left
    ensures AllRepaired(c, failures, plans + [p])
  {
    hide PlanOk, PlansOk, Repaired;
    PlansMore(c, plans, p, failures);
    NoRepeatsConcat(Repaired(plans), p.failureIdxs);
  }

  /**
   Plans for several failures. The planner succeeds exactly when the decodability test accepts, whichever
   priority it is given, and then its plans repair every failure exactly once. What is left after the repairs
   inside groups is repaired with the equations of the given priority.
   */
  method RepairMultiBlocks(c: Lrc, plan: Partition, failureIdxs: seq<nat>, repairPriority: bool)
      returns (ok: bool, plans: seq<RepairPlan>)
    requires AzureOk(c) && IsPartition(plan, BlockNum(c)) && FailuresOk(c, failureIdxs)
    ensures ok <==> Decodable(c, failureIdxs)
    ensures ok ==> AllRepaired(c, failureIdxs, plans) && PlansSuit(c, plan, plans, repairPriority)
  {
    hide InGroupCount, Load, PlansOk, PlanOk, Repaired, PlanSuits, PlansSuit, AllLocal;
    var fmap, cnt := CountGroups(c, failureIdxs);
    var left := failureIdxs;
    plans := [];
    NoPlansYet(c, plan, repairPriority);
    if left == [] {
      NothingLeft(c, failureIdxs, left, fmap, cnt, plans);
    }
    while |left| > 0
      invariant left != [] ==> Going(c, failureIdxs, left, fmap, cnt, plans) && Load(c, left) == Load(c, failureIdxs)
      invariant left == [] ==> AllRepaired(c, failureIdxs, plans) && Decodable(c, failureIdxs)
      invariant PlansSuit(c, plan, plans, repairPriority) && (left != [] ==> AllLocal(plans))
      decreases |left|
    {
      left, fmap, cnt, plans := LocalPass(c, plan, failureIdxs, left, fmap, cnt, plans, repairPriority);
      if |left| > 0 {
        var p := PlanRest(c, plan, left, fmap, repairPriority, failureIdxs, Repaired(plans));
        if |p.helpBlocks| == 0 {
          return false, plans;
        }
        RestRepaired(c, failureIdxs, left, fmap, cnt, plans, p);
        OneMoreSuits(c, plan, plans, p, repairPriority);
        plans := plans + [p];
        left := [];
      } else {
        NothingLeft(c, failureIdxs, left, fmap, cnt, plans);
      }
    }
    return true, plans;
  }

  lemma NoPlansYet(c: Lrc, plan: Partition, globalPriority: bool)
    requires AzureOk(c)
    ensures PlansSuit(c, plan, [], globalPriority) && AllLocal([])
  {
  }

  /** The planner as it is called: the test first, then a plan for one failure or for several. */
  method GenerateRepairPlan(c: Lrc, plan: Partition, failureIdxs: seq<nat>, repairPriority: bool)
      returns (ok: bool, plans: seq<RepairPlan>)
    requires AzureOk(c) && IsPartition(plan, BlockNum(c)) && FailuresOk(c, failureIdxs)
    ensures ok <==> Decodable(c, failureIdxs)
    ensures ok ==> AllRepaired(c, failureIdxs, plans) && PlansSuit(c, plan, plans, repairPriority)
  {
    hide InGroupCount, PlansOk, PlanOk, Picked, Decodable, PlansSuit, GroupedByPart, DataHelp;
    var decodable := CheckIfDecodable(c, failureIdxs);
    if !decodable {
      return false, [];
    }
    if |failureIdxs| == 1 {
      var x := failureIdxs[0];
      var parity, helpBlocks;
      var local := Bid2Gid(c, x) < c.l;
      if local {
        parity, helpBlocks := HelpInGroup(c, plan, x);
      } else {
        parity := [x];
        helpBlocks := HelpFromData(c, plan);
      }
      plans := [RepairPlan(local, [x], parity, helpBlocks)];
      SingleRepaired(c, plan, failureIdxs, plans[0], repairPriority);
      return true, plans;
    }
    ok, plans := RepairMultiBlocks(c, plan, failureIdxs, repairPriority);
  }

  lemma SingleRepaired(c: Lrc, plan: Partition, failures: seq<nat>, p: RepairPlan, globalPriority: bool)
    requires AzureOk(c) && IsPartition(plan, BlockNum(c)) && FailuresOk(c, failures) && |failures| == 1
    requires p.failureIdxs == failures
    requires Bid2Gid(c, failures[0]) < c.l ==>
               && p.localOrColumn && Concat(p.helpBlocks) == Picked(Concat(plan), GroupMask(c, failures[0]))
               && GroupedByPart(plan, p.helpBlocks) && p.parityIdxs == [c.k + c.g + Bid2Gid(c, failures[0])]
    requires Bid2Gid(c, failures[0]) >= c.l ==>
               !p.localOrColumn && p.parityIdxs == failures && DataHelp(c, plan, p.helpBlocks)
    ensures AllRepaired(c, failures, [p]) && PlansSuit(c, plan, [p], globalPriority)
  {
    hide PlanOk, InGroupCount, Picked, GroupedByPart, DataHelp, NoneIdle, RestChosen, AllRepaired, PlansSuit, Bid2Gid,
         IsPartition, NoRepeats;
    NothingDone(failures);
    if Bid2Gid(c, failures[0]) < c.l {
      OneInGroup(c, failures);
      GroupPlanOk(c, plan, failures, failures, [], 0, p.parityIdxs, p.helpBlocks);
    } else {
      OneGlobal(c, failures);
      GlobalsPlanOk(c, plan, failures, failures, p.helpBlocks);
      RestPlanOk(c, plan, failures, [], failures, p);
      RestIsChosen(c, failures, failures, failures, globalPriority);
    }
    OnlyPlan(c, plan, failures, p, globalPriority);
  }

  lemma NothingDone(failures: seq<nat>)
    requires NoRepeats(failures)
    ensures Tracks(failures, [], failures)
  {
  }

  lemma OnlyPlan(c: Lrc, plan: Partition, failures: seq<nat>, p: RepairPlan, globalPriority: bool)
    requires AzureOk(c) && NoRepeats(failures) && p.failureIdxs == failures && PlanOk(c, p, failures, [])
    requires PlanSuits(c, plan, p, globalPriority)
    ensures AllRepaired(c, failures, [p]) && PlansSuit(c, plan, [p], globalPriority)
  {
    hide PlanOk, PlanSuits;
    PlansMore(c, [], p, failures);
    assert [] + [p] == [p];
  }

  lemma OneInGroup(c: Lrc, s: seq<nat>)
    requires AzureOk(c) && FailuresOk(c, s) && |s| == 1 && Bid2Gid(c, s[0]) < c.l
    ensures InGroupCount(c, s, Bid2Gid(c, s[0])) == 1 && s == [s[0]]
  {
    assert s == [] + [s[0]];
    NoneCounted(c);
    GroupCountsMore(c, [], s[0], Bid2Gid(c, s[0]));
  }

  lemma OneGlobal(c: Lrc, s: seq<nat>)
    requires AzureOk(c) && FailuresOk(c, s) && |s| == 1 && Bid2Gid(c, s[0]) >= c.l
    ensures GlobalFailures(c, s) == |s| && forall i :: 0 <= i < c.l ==> InGroupCount(c, s, i) != 1
  {
    if s[0] < c.k {
      GroupRange(c, s[0], 0);
    }
    assert s == [] + [s[0]];
    NoneCounted(c);
    forall i | 0 <= i < c.l
      ensures InGroupCount(c, s, i) != 1
    {
      GroupCountsMore(c, [], s[0], i);
    }
    CountWhole(s, c.k, c.k + c.g);
  }

  /** A plan's helpers and failures hold every block its equations involve. */
  lemma PlanSplits<E>(f: Field<E>, c: Lrc, lib: seq<seq<E>>, p: RepairPlan, failures: seq<nat>, repaired: seq<nat>)
    requires AzureOk(c) && IsTable(lib, c.g + 1, c.k) && PlanOk(c, p, failures, repaired)
    ensures InRange(p.parityIdxs, BlockNum(c)) && InRange(Concat(p.helpBlocks), BlockNum(c))
    ensures SplitsSupport(f, CheckTable(f, c, lib), p.parityIdxs, p.failureIdxs, p.helpBlocks, BlockNum(c))
  {
    hide CheckRow, Feeds;
    var rows, h, helpers := p.parityIdxs, CheckTable(f, c, lib), Concat(p.helpBlocks);
    NoRepeatsConcat(p.failureIdxs, helpers);
    forall u, j | 0 <= u < |rows| && 0 <= j < BlockNum(c) && h[rows[u]][j] != f.zero
      ensures j in p.failureIdxs + helpers
    {
      if !Feeds(c, j, rows[u]) {
        OnlyFeedersCount(f, c, lib, j, rows[u]);
      }
    }
  }

  /** A plan whose equations give the lost blocks as they are: a local one, or global parities by their own equations. */
  ghost predicate StandsAlone(c: Lrc, p: RepairPlan) {
    p.localOrColumn || (p.parityIdxs == p.failureIdxs && forall i :: 0 <= i < |p.failureIdxs| ==> p.failureIdxs[i] < c.k + c.g)
  }

  lemma LocalIsUnit<E>(f: Field<E>, c: Lrc, lib: seq<seq<E>>, x: nat, q: nat)
    requires AzureOk(c) && IsTable(lib, c.g + 1, c.k) && c.k + c.g <= q < BlockNum(c) && x < BlockNum(c) && Feeds(c, x, q)
    ensures CheckTable(f, c, lib)[q][x] == f.one
  {
    hide LocalRow;
    assert CheckTable(f, c, lib)[q] == CheckRow(f, c, lib, q);
    if x < c.k + c.g {
      GroupIsBid2Gid(c, q - c.k - c.g, x);
      assert CheckRow(f, c, lib, q)[x] == LocalRow(f, c, lib, q - c.k - c.g)[x];
    } else {
      assert CheckRow(f, c, lib, q)[x] == UnitRow(f, c.l, q - c.k - c.g)[x - c.k - c.g];
    }
  }

  lemma GlobalIsUnit<E>(f: Field<E>, c: Lrc, lib: seq<seq<E>>, x: nat, q: nat)
    requires AzureOk(c) && IsTable(lib, c.g + 1, c.k) && c.k <= q < c.k + c.g && c.k <= x < c.k + c.g
    ensures CheckTable(f, c, lib)[q][x] == if x == q then f.one else f.zero
  {
    assert CheckTable(f, c, lib)[q] == CheckRow(f, c, lib, q);
  }

  /** In such a plan the lost blocks' columns are an identity. */
  lemma AloneIsIdentity<E(!new)>(f: Field<E>, c: Lrc, lib: seq<seq<E>>, p: RepairPlan, failures: seq<nat>, repaired: seq<nat>)
    requires Laws(f) && AzureOk(c) && IsTable(lib, c.g + 1, c.k) && PlanOk(c, p, failures, repaired) && StandsAlone(c, p)
    requires InRange(p.parityIdxs, BlockNum(c)) && InRange(p.failureIdxs, BlockNum(c))
    ensures var n := |p.failureIdxs|;
            IsLeftInverse(f, Identity(f, n), SubMatrix(CheckTable(f, c, lib), p.parityIdxs, p.failureIdxs, BlockNum(c)), n)
  {
    hide CheckTable, Covers, Readable, Feeds;
    var n, m := |p.failureIdxs|, SubMatrix(CheckTable(f, c, lib), p.parityIdxs, p.failureIdxs, BlockNum(c));
    forall u | 0 <= u < n
      ensures m[u] == UnitRow(f, n, u)
    {
      forall j | 0 <= j < n
        ensures m[u][j] == UnitRow(f, n, u)[j]
      {
        if p.localOrColumn {
          LocalIsUnit(f, c, lib, p.failureIdxs[0], p.parityIdxs[0]);
        } else {
          GlobalIsUnit(f, c, lib, p.failureIdxs[j], p.parityIdxs[u]);
        }
      }
    }
    assert m == Identity(f, n);
    IdentitySquared(f, n);
  }

  lemma IdentitySquared<E(!new)>(f: Field<E>, n: nat)
    requires Laws(f)
    ensures MatMul(f, Identity(f, n), Identity(f, n), n) == Identity(f, n)
  {
    hide Dot;
    var id := Identity(f, n);
    forall i | 0 <= i < n
      ensures MatMul(f, id, id, n)[i] == id[i]
    {
      forall j | 0 <= j < n
        ensures MatMul(f, id, id, n)[i][j] == id[i][j]
      {
        DotUnit(f, n, i, Column(id, j));
      }
    }
  }

  /** The inverse to decode with: none is needed when the equations give the lost blocks as they are. */
  ghost predicate DecodesPlan<E>(f: Field<E>, c: Lrc, lib: seq<seq<E>>, p: RepairPlan, inv: seq<seq<E>>)
    requires LrcOk(c) && IsTable(lib, c.g + 1, c.k) && InRange(p.parityIdxs, BlockNum(c)) && InRange(p.failureIdxs, BlockNum(c))
  {
    if StandsAlone(c, p) then inv == Identity(f, |p.failureIdxs|)
    else IsLeftInverse(f, inv, SubMatrix(CheckTable(f, c, lib), p.parityIdxs, p.failureIdxs, BlockNum(c)), |p.failureIdxs|)
  }

  /**
   What the plans are for: the helpers' partial blocks, added up and decoded, are exactly the plan's lost
   blocks. Plans of several equations have to determine them; local plans and plans for global parities do.
   */
  lemma PlanRestores<E(!new)>(f: Field<E>, c: Lrc, lib: seq<seq<E>>, data: seq<Block<E>>, size: nat, p: RepairPlan,
                              failures: seq<nat>, repaired: seq<nat>, flags: seq<seq<bool>>, arrived: seq<Message<E>>,
                              inv: seq<seq<E>>)
    requires Laws(f) && AzureOk(c) && IsTable(lib, c.g + 1, c.k) && IsTable(data, c.k, size)
    requires PlanOk(c, p, failures, repaired) && InRange(p.parityIdxs, BlockNum(c)) && InRange(p.failureIdxs, BlockNum(c))
    requires forall i :: 0 <= i < |p.helpBlocks| ==> InRange(p.helpBlocks[i], BlockNum(c))
    requires FlagsAsComputed(c, p.parityIdxs, p.helpBlocks, flags) && SizesOk(arrived, size)
    requires multiset(arrived)
             == multiset(AllMessages(f, CheckTable(f, c, lib), p.parityIdxs, p.helpBlocks, Stripe(f, c, lib, data, size), size,
                                     flags))
    requires DecodesPlan(f, c, lib, p, inv)
    ensures IsTable(inv, |inv|, |p.parityIdxs|)
    ensures EncodeBlocks(f, inv, AddedAll(f, arrived, p.parityIdxs, size), size)
            == Pick(Stripe(f, c, lib, data, size), p.failureIdxs)
  {
    hide CheckTable, Stripe, AllMessages, AddedAll, FlagsAsComputed, SplitsSupport, SizesOk, Covers, Readable, StandsAlone;
    PlanSplits(f, c, lib, p, failures, repaired);
    if StandsAlone(c, p) {
      AloneIsIdentity(f, c, lib, p, failures, repaired);
    }
    LostBlocksComeBack(f, c, lib, data, size, p.parityIdxs, p.failureIdxs, p.helpBlocks, flags, arrived, inv);
  }
}

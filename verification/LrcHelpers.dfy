/** Repair plans of Azure's code, and the helpers of a plan, listed partition by partition. */
module LrcHelpers {
  import opened Listing
  import opened Partitions
  import opened RepairAlgebra
  import opened LrcShape
  import opened LrcCode

  datatype RepairPlan = RepairPlan(localOrColumn: bool, failureIdxs: seq<nat>, parityIdxs: seq<nat>, helpBlocks: seq<seq<nat>>)

  /** The chosen parity equations involve only the plan's failures and its helpers. */
  ghost predicate Covers(c: Lrc, parities: seq<nat>, failures: seq<nat>, helpers: seq<nat>)
    requires LrcOk(c) && forall i :: 0 <= i < |parities| ==> c.k <= parities[i] < BlockNum(c)
  {
    forall i, j :: 0 <= i < |parities| && 0 <= j < BlockNum(c) && Feeds(c, j, parities[i]) ==> j in failures || j in helpers
  }

  /** The block has a part in one of the equations. */
  ghost predicate Helps(c: Lrc, x: nat, parities: seq<nat>)
    requires LrcOk(c)
  {
    x < BlockNum(c) && exists p :: p in parities && c.k <= p < BlockNum(c) && Feeds(c, x, p)
  }

  /** Every helper does. */
  ghost predicate NoneIdle(c: Lrc, parities: seq<nat>, helpers: seq<nat>)
    requires LrcOk(c)
  {
    forall i :: 0 <= i < |helpers| ==> Helps(c, helpers[i], parities)
  }

  /** The block can be read: it never failed, or an earlier plan repaired it. */
  ghost predicate Readable(x: nat, failures: seq<nat>, repaired: seq<nat>) {
    x !in failures || x in repaired
  }

  /** As many parity equations as failures, over the failures and distinct readable helpers; a local plan is for one failure. */
  ghost predicate PlanOk(c: Lrc, p: RepairPlan, failures: seq<nat>, repaired: seq<nat>)
    requires LrcOk(c)
  {
    && p.failureIdxs != [] && NoRepeats(p.failureIdxs) && InRange(p.failureIdxs, BlockNum(c))
    && |p.parityIdxs| == |p.failureIdxs| && NoRepeats(p.parityIdxs)
    && (forall i :: 0 <= i < |p.parityIdxs| ==> c.k <= p.parityIdxs[i] < BlockNum(c))
    && HelpersOk(c, p.helpBlocks, p.failureIdxs, failures, repaired)
    && Covers(c, p.parityIdxs, p.failureIdxs, Concat(p.helpBlocks))
    && (p.localOrColumn ==> |p.failureIdxs| == 1 && p.parityIdxs[0] >= c.k + c.g && Feeds(c, p.failureIdxs[0], p.parityIdxs[0]))
  }

  ghost predicate HelpersOk(c: Lrc, helpBlocks: seq<seq<nat>>, lost: seq<nat>, failures: seq<nat>, repaired: seq<nat>) {
    && NoRepeats(Concat(helpBlocks)) && (forall i :: 0 <= i < |helpBlocks| ==> helpBlocks[i] != [])
    && forall i :: 0 <= i < |Concat(helpBlocks)| ==>
         Concat(helpBlocks)[i] < BlockNum(c) && Concat(helpBlocks)[i] !in lost
         && Readable(Concat(helpBlocks)[i], failures, repaired)
  }

  function Repaired(plans: seq<RepairPlan>): seq<nat> {
    if plans == [] then [] else Repaired(plans[..|plans| - 1]) + plans[|plans| - 1].failureIdxs
  }

  /** Each plan can be carried out after the plans before it. */
  ghost predicate PlansOk(c: Lrc, plans: seq<RepairPlan>, failures: seq<nat>)
    requires LrcOk(c)
  {
    forall i :: 0 <= i < |plans| ==> PlanOk(c, plans[i], failures, Repaired(plans[..i]))
  }

  lemma PlansMore(c: Lrc, plans: seq<RepairPlan>, p: RepairPlan, failures: seq<nat>)
    requires LrcOk(c) && PlansOk(c, plans, failures) && PlanOk(c, p, failures, Repaired(plans))
    ensures PlansOk(c, plans + [p], failures) && Repaired(plans + [p]) == Repaired(plans) + p.failureIdxs
  {
    hide PlanOk;
    var all := plans + [p];
    forall i | 0 <= i < |all|
      ensures PlanOk(c, all[i], failures, Repaired(all[..i]))
    {
      assert all[..i] == plans[..i];
      assert i == |plans| ==> plans[..i] == plans;
    }
    assert all[..|all| - 1] == plans;
  }

  // Picking blocks by a mask.

  /** The entries of s that the mask marks. */
  function Picked(s: seq<nat>, mask: seq<bool>): seq<nat>
    requires forall i :: 0 <= i < |s| ==> s[i] < |mask|
  {
    if s == [] then [] else Picked(s[..|s| - 1], mask) + (if mask[s[|s| - 1]] then [s[|s| - 1]] else [])
  }

  lemma {:induction false} PickedMember(s: seq<nat>, mask: seq<bool>, x: nat)
    requires forall i :: 0 <= i < |s| ==> s[i] < |mask|
    ensures x in Picked(s, mask) <==> x in s && mask[x]
  {
    if s != [] {
      PickedMember(s[..|s| - 1], mask, x);
    }
  }

  lemma {:induction false} PickedNoRepeats(s: seq<nat>, mask: seq<bool>)
    requires NoRepeats(s) && forall i :: 0 <= i < |s| ==> s[i] < |mask|
    ensures NoRepeats(Picked(s, mask))
  {
    if s != [] {
      var n := |s| - 1;
      NoRepeatsBefore(s, n);
      PickedNoRepeats(s[..n], mask);
      PickedMember(s[..n], mask, s[n]);
      NoRepeatsConcat(Picked(s[..n], mask), if mask[s[n]] then [s[n]] else []);
    }
  }

  lemma {:induction false} PickedConcat(s: seq<nat>, t: seq<nat>, mask: seq<bool>)
    requires forall i :: 0 <= i < |s + t| ==> (s + t)[i] < |mask|
    ensures (forall i :: 0 <= i < |s| ==> s[i] < |mask|) && forall i :: 0 <= i < |t| ==> t[i] < |mask|
    ensures Picked(s + t, mask) == Picked(s, mask) + Picked(t, mask)
  {
    assert forall i :: 0 <= i < |s| ==> (s + t)[i] == s[i];
    assert forall i :: 0 <= i < |t| ==> (s + t)[|s| + i] == t[i];
    if t == [] {
      assert s + t == s;
    } else {
      var n := |t| - 1;
      assert (s + t)[..|s + t| - 1] == s + t[..n];
      PickedConcat(s, t[..n], mask);
    }
  }

  /** The marked blocks of each partition that has any. */
  method CollectHelpers(plan: Partition, mask: seq<bool>, ghost n: nat) returns (helpBlocks: seq<seq<nat>>)
    requires IsPartition(plan, n) && n == |mask|
    ensures Concat(helpBlocks) == Picked(Concat(plan), mask) && GroupedByPart(plan, helpBlocks)
  {
    hide GroupsFrom, GroupedByPart, IsPartition, Picked;
    helpBlocks := [];
    ghost var from: seq<nat> := [];
    NothingCollected(plan, mask);
    for i := 0 to |plan|
      invariant InRange(Concat(plan[..i]), |mask|)
      invariant Concat(helpBlocks) == Picked(Concat(plan[..i]), mask)
      invariant GroupsFrom(plan, helpBlocks, from) && forall x :: x in from ==> x < i
    {
      PartInRange(plan, i, |mask|);
      assert plan[..i + 1][..i] == plan[..i];
      PickedConcat(Concat(plan[..i]), plan[i], mask);
      var helpBlock: seq<nat> := [];
      PickedFirst(plan[i], mask);
      for j := 0 to |plan[i]|
        invariant helpBlock == Picked(plan[i][..j], mask)
      {
        PickedNext(plan[i], mask, j);
        if mask[plan[i][j]] {
          helpBlock := helpBlock + [plan[i][j]];
        }
      }
      assert plan[i][..|plan[i]|] == plan[i];
      ConcatSnoc(helpBlocks, helpBlock);
      if |helpBlock| > 0 {
        PickedInPart(plan, i, mask, helpBlocks, from);
        helpBlocks, from := helpBlocks + [helpBlock], from + [i];
      } else {
        assert Concat(helpBlocks) + helpBlock == Concat(helpBlocks);
      }
    }
    assert plan[..|plan|] == plan;
    GroupsByPart(plan, helpBlocks, from);
  }

  lemma NothingCollected(plan: Partition, mask: seq<bool>)
    requires IsPartition(plan, |mask|)
    ensures InRange(Concat(plan), |mask|) && NoRepeats(Concat(plan)) && Concat(plan[..0]) == []
    ensures Picked([], mask) == [] && Concat([]) == [] && GroupsFrom(plan, [], [])
  {
  }

  lemma PickedFirst(s: seq<nat>, mask: seq<bool>)
    ensures Picked(s[..0], mask) == []
  {
  }

  lemma PickedNext(s: seq<nat>, mask: seq<bool>, j: nat)
    requires j < |s| && InRange(s, |mask|)
    ensures var next := j + 1; Picked(s[..next], mask) == Picked(s[..j], mask) + (if mask[s[j]] then [s[j]] else [])
  {
    var next := j + 1;
    assert s[..next][..j] == s[..j];
  }

  lemma PickedInPart(plan: Partition, i: nat, mask: seq<bool>, groups: seq<seq<nat>>, from: seq<nat>)
    requires i < |plan| && InRange(plan[i], |mask|) && Picked(plan[i], mask) != []
    requires GroupsFrom(plan, groups, from) && forall x :: x in from ==> x < i
    ensures GroupsFrom(plan, groups + [Picked(plan[i], mask)], from + [i])
  {
    forall x | x in Picked(plan[i], mask)
      ensures x in plan[i]
    {
      PickedMember(plan[i], mask, x);
    }
    OneMoreGroup(plan, groups, from, Picked(plan[i], mask), i);
  }

  lemma PartInRange(plan: Partition, i: nat, n: nat)
    requires i < |plan| && InRange(Concat(plan), n)
    ensures InRange(plan[i], n) && var next := i + 1; InRange(Concat(plan[..next]), n)
  {
    hide Concat, InRange;
    var next := i + 1;
    ConcatTwo(plan[..next], plan[next..]);
    assert plan[..next] + plan[next..] == plan;
    SplitRange(Concat(plan[..next]), Concat(plan[next..]), n);
    ConcatLast(plan[..next]);
    SplitRange(Concat(plan[..next][..i]), plan[i], n);
  }

  lemma SplitRange(a: seq<nat>, b: seq<nat>, n: nat)
    requires InRange(a + b, n)
    ensures InRange(a, n) && InRange(b, n)
  {
    assert forall i :: 0 <= i < |a| ==> (a + b)[i] == a[i];
    assert forall i :: 0 <= i < |b| ==> (a + b)[|a| + i] == b[i];
  }

  /** Collected helpers are the marked blocks, each once. */
  lemma HelpersArePicked(c: Lrc, plan: Partition, mask: seq<bool>, helpBlocks: seq<seq<nat>>)
    requires IsPartition(plan, BlockNum(c)) && |mask| == BlockNum(c)
    requires Concat(helpBlocks) == Picked(Concat(plan), mask)
    ensures NoRepeats(Concat(helpBlocks))
    ensures forall i :: 0 <= i < |Concat(helpBlocks)| ==> Concat(helpBlocks)[i] < BlockNum(c) && mask[Concat(helpBlocks)[i]]
    ensures forall x :: 0 <= x < BlockNum(c) && mask[x] ==> x in Concat(helpBlocks)
  {
    var all := Concat(plan);
    PickedNoRepeats(all, mask);
    forall i | 0 <= i < |Concat(helpBlocks)|
      ensures Concat(helpBlocks)[i] < BlockNum(c) && mask[Concat(helpBlocks)[i]]
    {
      PickedMember(all, mask, Concat(helpBlocks)[i]);
    }
    forall x: nat | x < BlockNum(c) && mask[x]
      ensures x in Concat(helpBlocks)
    {
      PickedMember(all, mask, x);
    }
  }
}

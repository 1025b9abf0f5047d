/** Finishing a plan for several failures: swapping local for global parities, and listing the helpers. */
module LrcSeveral {
  import opened Listing
  import opened Partitions
  import opened LrcShape
  import opened LrcCode
  import opened LrcDecodable
  import opened LrcPartition
  import opened LrcHelpers
  import opened LrcMulti
  import opened LrcPriority
  import opened LrcChoice

  /** Provides for the data failures of one group. */
  method ServeGroup(c: Lrc, fmap: seq<bool>, group: seq<nat>, s0: Picks, i: nat, fdCnt: nat, pushLocal: bool,
                    ghost f: seq<nat>, ghost used0: nat) returns (s: Picks, fd: nat, ghost used: nat)
    requires AzureOk(c) && FailuresOk(c, f) && MapOf(c, f, fmap) && i < c.l && Stage(c, f, s0, pushLocal, i, used0)
    requires fdCnt == DataFailures(c, f, i) > 0 && group == LocalGroup(c, i) && Tidy(c, f, s0, pushLocal, i)
    ensures var next := i + 1; fd == 0 ==> Stage(c, f, s, pushLocal, next, used) && Tidy(c, f, s, pushLocal, next)
    ensures fd > 0 ==> !Decodable(c, f)
  {
    hide Stage, ScanCounts, NoHelpIn, HelpLive, AllHelped, NoRepeats, GroupServed, GlobalsAdded, Need, DataFailures, Decodable,
         TotalNeed, LocalGroup, Tidy, Scanned;
    StageFacts(c, f, s0, pushLocal, i, used0);
    NeedAfterLocal(c, f, i);
    GroupInRange(c, i);
    s, fd := s0, fdCnt;
    var local := c.k + c.g + i;
    if !fmap[local] && !s.help[local] {
      LocalTaken(c, f, s0, pushLocal, i, used0);
      s := s.(help := s.help[local := true]);
      fd := fd - 1;
      if pushLocal {
        s := s.(parity := s.parity + [local]);
      }
    }
    ghost var s1 := s;
    assert s1 == WithLocal(c, s0, i, local !in f, pushLocal);
    s, fd, used := TakeGlobals(c, fmap, s, fd, f, used0);
    if fd > 0 {
      StuckMeansTooMany(c, f, i, used0, used);
      return;
    }
    ghost var s2 := s;
    HelpAfter(c, s1, s2, Need(c, f, i));
    if pushLocal && s.help[local] {
      var help := MarkGroup(fmap, group, s.help);
      s := s.(help := help);
    }
    ServedBy(c, f, s0, s1, s2, s.help, pushLocal, i, used0, used);
    StageMoves(c, f, s0, s, pushLocal, i, used0, used);
    TidyMoves(c, f, s0, s1, s2, s.help, pushLocal, i);
  }

  /** Provides for the data failures of all groups. */
  method ServeData(c: Lrc, fmap: seq<bool>, groups: seq<seq<nat>>, fdCnt: seq<nat>, pushLocal: bool, ghost f: seq<nat>)
      returns (ok: bool, s: Picks, ghost used: nat)
    requires AzureOk(c) && FailuresOk(c, f) && MapOf(c, f, fmap) && |groups| >= c.l && GroupsAre(c, groups[..c.l])
    requires |fdCnt| == c.l && forall i :: 0 <= i < c.l ==> fdCnt[i] == DataFailures(c, f, i)
    ensures ok <==> Decodable(c, f)
    ensures ok ==> Stage(c, f, s, pushLocal, c.l, used) && Tidy(c, f, s, pushLocal, c.l)
  {
    hide Stage, ScanCounts, DataFailures, Load, LocalGroup, Tidy;
    s, used := Picks(seq(BlockNum(c), _ => false), [], c.k, false), 0;
    StageStarts(c, f, pushLocal);
    TidyStarts(c, f, pushLocal);
    for i := 0 to c.l
      invariant Stage(c, f, s, pushLocal, i, used) && Tidy(c, f, s, pushLocal, i)
    {
      if fdCnt[i] > 0 {
        assert groups[i] == groups[..c.l][i];
        var fd;
        s, fd, used := ServeGroup(c, fmap, groups[i], s, i, fdCnt[i], pushLocal, f, used);
        if fd > 0 {
          ok := false;
          return;
        }
      } else {
        StageSkips(c, f, s, pushLocal, i, used);
        TidySkips(c, f, s, pushLocal, i);
      }
    }
    StageEnds(c, f, s, pushLocal, used);
    ok := true;
  }

  /** Adds the equations of the failed parities. */
  method AddFailedParities(c: Lrc, fmap: seq<bool>, groups: seq<seq<nat>>, s0: Picks, ghost f: seq<nat>) returns (s: Picks)
    requires AzureOk(c) && FailuresOk(c, f) && MapOf(c, f, fmap) && |groups| >= c.l && GroupsAre(c, groups[..c.l])
    requires |s0.help| == BlockNum(c) && HelpLive(f, s0.help) && AllHelped(s0.help, s0.parity)
    requires AllJustified(c, f, s0.help, s0.useGlobal, s0.parity)
    requires (s0.useGlobal ==> SomeGlobal(c, s0.parity)) && DataNeeded(c, s0.help, s0.parity)
    ensures WithFailed(c, f, s0, s, BlockNum(c)) && FailedIn(c, f, s0, s, BlockNum(c))
  {
    hide AllJustified, WithFailed, LocalGroup, GroupLo, FailedIn, DataNeeded;
    s := s0;
    FailedStarts(c, f, s0);
    FailedInStarts(c, f, s0);
    for i := c.k to BlockNum(c)
      invariant |s.help| == BlockNum(c) && WithFailed(c, f, s0, s, i) && FailedIn(c, f, s0, s, i)
    {
      if fmap[i] {
        ghost var before := s;
        s := s.(parity := s.parity + [i]);
        if i < c.k + c.g {
          s := s.(useGlobal := true);
        } else {
          var gid := i - c.k - c.g;
          assert groups[gid] == groups[..c.l][gid];
          GroupInRange(c, gid);
          var help := MarkGroup(fmap, groups[gid], s.help);
          s := s.(help := help);
        }
        FailedMore(c, f, s0, before, i, s.help);
        FailedInMore(c, f, s0, before, i, s.help);
      } else {
        FailedSkips(c, f, s0, s, i);
        FailedInSkips(c, f, s0, s, i);
      }
    }
  }
  /** Up to group i every local parity taken as a helper has an equation, its own or that of a global parity taken instead. */
  ghost predicate Replacing(c: Lrc, f: seq<nat>, s0: Picks, s: Picks, i: nat)
    requires AzureOk(c) && |s0.help| == BlockNum(c) && i <= c.l
  {
    && |s.help| == BlockNum(c) && HelpLive(f, s.help) && AllJustified(c, f, s.help, s.useGlobal, s.parity)
    && |s.parity| == |s0.parity| + HelpedIn(s0.help, c.k + c.g, c.k + c.g + i)
    && forall x :: c.k + c.g + i <= x < BlockNum(c) ==> s.help[x] == s0.help[x] && (s.help[x] ==> x !in s.parity)
  }

  lemma NotListed(c: Lrc, f: seq<nat>, help: seq<bool>, g: bool, parity: seq<nat>, x: nat)
    requires AzureOk(c) && |help| == BlockNum(c) && AllJustified(c, f, help, g, parity) && x < BlockNum(c) && !help[x] && x !in f
    ensures x !in parity
  {
    forall j | 0 <= j < |parity|
      ensures parity[j] != x
    {
      assert Justified(c, f, help, g, parity[j]);
    }
  }

  /** A live global parity takes the place of the local one. */
  lemma ReplaceOne(c: Lrc, f: seq<nat>, s0: Picks, s: Picks, i: nat, x: nat)
    requires AzureOk(c) && |s0.help| == BlockNum(c) && i < c.l && Replacing(c, f, s0, s, i) && s.help[c.k + c.g + i]
    requires c.k <= x < c.k + c.g && x !in f && !s.help[x]
    ensures var s' := Picks(s.help[x := true][c.k + c.g + i := false], s.parity + [x], s.globalIdx, true); var next := i + 1;
            Replacing(c, f, s0, s', next)
  {
    hide Justified;
    var help' := s.help[x := true][c.k + c.g + i := false];
    NotListed(c, f, s.help, s.useGlobal, s.parity, x);
    JustifiedKept(c, f, s.help, help', s.useGlobal, true, s.parity);
    GlobalJustified(c, f, help', x);
    JustifiedMore(c, f, help', true, s.parity, x);
  }

  lemma GlobalJustified(c: Lrc, f: seq<nat>, help: seq<bool>, x: nat)
    requires AzureOk(c) && |help| == BlockNum(c) && c.k <= x < c.k + c.g && help[x]
    ensures Justified(c, f, help, true, x)
  {
  }

  /** No global parity is left, so the local equation is used, with its group as helpers. */
  lemma KeepLocal(c: Lrc, f: seq<nat>, s0: Picks, s: Picks, i: nat, help: seq<bool>)
    requires AzureOk(c) && |s0.help| == BlockNum(c) && i < c.l && Replacing(c, f, s0, s, i) && s.help[c.k + c.g + i]
    requires |help| == BlockNum(c)
    requires forall x :: 0 <= x < |help| ==> (help[x] <==> s.help[x] || (x in LocalGroup(c, i) && x !in f))
    ensures var s' := Picks(help, s.parity + [c.k + c.g + i], s.globalIdx, s.useGlobal); var next := i + 1;
            Replacing(c, f, s0, s', next)
  {
    hide Justified, GroupLo, LocalGroup;
    InLocalGroup(c, i);
    JustifiedKept(c, f, s.help, help, s.useGlobal, s.useGlobal, s.parity);
    LocalJustified(c, f, help, s.useGlobal, i);
    JustifiedMore(c, f, help, s.useGlobal, s.parity, c.k + c.g + i);
  }

  lemma LocalJustified(c: Lrc, f: seq<nat>, help: seq<bool>, g: bool, i: nat)
    requires AzureOk(c) && i < c.l && |help| == BlockNum(c) && help[c.k + c.g + i]
    requires forall x :: x in LocalGroup(c, i) && x < |help| && x !in f ==> help[x]
    ensures Justified(c, f, help, g, c.k + c.g + i)
  {
    hide GroupLo, LocalGroup;
    InLocalGroup(c, i);
  }

  /** Replaces taken local parities by live global ones, as long as there are any. */
  method ReplaceLocals(c: Lrc, fmap: seq<bool>, groups: seq<seq<nat>>, s0: Picks, ghost f: seq<nat>)
      returns (s: Picks, ghost reached: nat)
    requires AzureOk(c) && FailuresOk(c, f) && MapOf(c, f, fmap) && |groups| >= c.l && GroupsAre(c, groups[..c.l])
    requires |s0.help| == BlockNum(c) && Replacing(c, f, s0, s0, 0) && Swapped(c, f, s0, s0, 0, c.k)
    ensures Replacing(c, f, s0, s, c.l) && Swapped(c, f, s0, s, c.l, reached)
  {
    hide AllJustified, HelpLive, LocalGroup, GroupLo, Replacing, Swapped;
    s := s0;
    var globalIdx := c.k;
    for i := 0 to c.l
      invariant c.k <= globalIdx <= c.k + c.g && Replacing(c, f, s0, s, i) && Swapped(c, f, s0, s, i, globalIdx)
    {
      ReplacingSize(c, f, s0, s, i);
      var local := c.k + c.g + i;
      if s.help[local] {
        while globalIdx < c.k + c.g && (fmap[globalIdx] || s.help[globalIdx])
          invariant c.k <= globalIdx <= c.k + c.g && Swapped(c, f, s0, s, i, globalIdx)
        {
          SwapPasses(c, f, s0, s, i, globalIdx);
          globalIdx := globalIdx + 1;
        }
        if globalIdx < c.k + c.g {
          ReplaceOne(c, f, s0, s, i, globalIdx);
          SwapTakes(c, f, s0, s, i, globalIdx);
          s := Picks(s.help[globalIdx := true][local := false], s.parity + [globalIdx], s.globalIdx, true);
        }
        else {
          assert groups[i] == groups[..c.l][i];
          GroupInRange(c, i);
          var help := MarkGroup(fmap, groups[i], s.help);
          KeepLocal(c, f, s0, s, i, help);
          SwapKeeps(c, f, s0, s, i, help);
          s := Picks(help, s.parity + [local], s.globalIdx, s.useGlobal);
        }
      } else {
        ReplacingSkips(c, f, s0, s, i);
        SwapSkips(c, f, s0, s, i, globalIdx);
      }
    }
    reached := globalIdx;
  }

  lemma ReplacingSize(c: Lrc, f: seq<nat>, s0: Picks, s: Picks, i: nat)
    requires AzureOk(c) && |s0.help| == BlockNum(c) && i <= c.l && Replacing(c, f, s0, s, i)
    ensures |s.help| == BlockNum(c)
  {
  }

  lemma ReplacingSkips(c: Lrc, f: seq<nat>, s0: Picks, s: Picks, i: nat)
    requires AzureOk(c) && |s0.help| == BlockNum(c) && i < c.l && Replacing(c, f, s0, s, i) && !s.help[c.k + c.g + i]
    ensures var next := i + 1; Replacing(c, f, s0, s, next)
  {
  }

  /** The helpers of a finished plan: every equation's parity and data are at hand or lost. */
  ghost predicate Complete(c: Lrc, f: seq<nat>, help: seq<bool>, g: bool, parity: seq<nat>)
    requires AzureOk(c)
  {
    && |help| == BlockNum(c) && HelpLive(f, help) && AllJustified(c, f, help, g, parity) && |parity| == |f|
    && (g ==> forall x :: 0 <= x < c.k ==> x in f || help[x])
  }

  /** When a global equation is used all the live data helps. */
  method MarkData(c: Lrc, fmap: seq<bool>, s0: Picks, ghost f: seq<nat>) returns (help: seq<bool>)
    requires AzureOk(c) && MapOf(c, f, fmap) && |s0.help| == BlockNum(c) && HelpLive(f, s0.help)
    requires AllJustified(c, f, s0.help, s0.useGlobal, s0.parity) && |s0.parity| == |f|
    requires DataNeeded(c, s0.help, s0.parity) && (s0.useGlobal ==> SomeGlobal(c, s0.parity))
    requires forall x :: c.k <= x < BlockNum(c) && s0.help[x] ==> x in s0.parity
    ensures Complete(c, f, help, s0.useGlobal, s0.parity) && HelpersNeeded(c, help, s0.parity)
  {
    hide AllJustified, DataNeeded, HelpersNeeded;
    help := s0.help;
    if s0.useGlobal {
      for i := 0 to c.k
        invariant |help| == BlockNum(c)
        invariant forall x :: 0 <= x < BlockNum(c) ==> (help[x] <==> s0.help[x] || (x < i && !fmap[x]))
      {
        if !fmap[i] && !help[i] {
          help := help[i := true];
        }
      }
    }
    JustifiedKept(c, f, s0.help, help, s0.useGlobal, s0.useGlobal, s0.parity);
    AllNeeded(c, s0.help, help, s0.parity, s0.useGlobal);
  }

  /**
   As many distinct parity equations as failures, over them and distinct live helpers. Every helper has a part
   in some equation, and the helpers are grouped as they are placed.
   */
  ghost predicate MultiOk(c: Lrc, plan: Partition, f: seq<nat>, parity: seq<nat>, helpBlocks: seq<seq<nat>>)
    requires LrcOk(c)
  {
    && |parity| == |f| && NoRepeats(parity) && (forall i :: 0 <= i < |parity| ==> c.k <= parity[i] < BlockNum(c))
    && NoRepeats(Concat(helpBlocks)) && GroupedByPart(plan, helpBlocks)
    && (forall i :: 0 <= i < |Concat(helpBlocks)| ==> Concat(helpBlocks)[i] < BlockNum(c) && Concat(helpBlocks)[i] !in f)
    && Covers(c, parity, f, Concat(helpBlocks)) && NoneIdle(c, parity, Concat(helpBlocks)) && helpBlocks != []
  }

  /** The helpers marked for a complete plan cover its equations. */
  lemma CompleteCovers(c: Lrc, f: seq<nat>, help: seq<bool>, g: bool, parity: seq<nat>, helpers: seq<nat>)
    requires AzureOk(c) && Complete(c, f, help, g, parity) && forall x :: 0 <= x < BlockNum(c) && help[x] ==> x in helpers
    ensures (forall i :: 0 <= i < |parity| ==> c.k <= parity[i] < BlockNum(c)) && Covers(c, parity, f, helpers)
  {
    hide GroupLo;
    forall i | 0 <= i < |parity|
      ensures c.k <= parity[i] < BlockNum(c)
    {
      assert Justified(c, f, help, g, parity[i]);
    }
    forall i, j | 0 <= i < |parity| && 0 <= j < BlockNum(c) && Feeds(c, j, parity[i])
      ensures j in f || j in helpers
    {
      assert Justified(c, f, help, g, parity[i]);
      EquationCovered(c, f, help, g, parity[i], j);
    }
  }

  lemma EquationCovered(c: Lrc, f: seq<nat>, help: seq<bool>, g: bool, p: nat, j: nat)
    requires AzureOk(c) && |help| == BlockNum(c) && Justified(c, f, help, g, p) && j < BlockNum(c) && Feeds(c, j, p)
    requires g ==> forall x :: 0 <= x < c.k ==> x in f || help[x]
    ensures j in f || help[j]
  {
    if p >= c.k + c.g && j < c.k {
      GroupRange(c, j, p - c.k - c.g);
    }
  }

  /** Some failed data block means some live parity helps, so the plan has helpers. */
  lemma SomeHelper(c: Lrc, f: seq<nat>, help: seq<bool>, g: bool, parity: seq<nat>) returns (x: nat)
    requires AzureOk(c) && FailuresOk(c, f) && Complete(c, f, help, g, parity) && CountIn(f, 0, c.k) > 0
    ensures x < BlockNum(c) && help[x]
  {
    hide GroupLo;
    CountWhole(f, 0, c.k);
    var d :| 0 <= d < |f| && f[d] < c.k;
    assert forall i :: 0 <= i < |parity| ==> Justified(c, f, help, g, parity[i]);
    assert f[d] in f && f[d] !in parity;
    assert exists i :: 0 <= i < |parity| && parity[i] !in f by {
      if forall i :: 0 <= i < |parity| ==> parity[i] in f {
        FillsUp(parity, f);
      }
    }
    var i :| 0 <= i < |parity| && parity[i] !in f;
    x := parity[i];
  }

  /** Lists the helpers of a complete plan, partition by partition. */
  method ListHelpers(c: Lrc, plan: Partition, help: seq<bool>, parity: seq<nat>, ghost f: seq<nat>, ghost g: bool)
      returns (helpBlocks: seq<seq<nat>>)
    requires AzureOk(c) && FailuresOk(c, f) && IsPartition(plan, BlockNum(c)) && CountIn(f, 0, c.k) > 0
    requires Complete(c, f, help, g, parity) && HelpersNeeded(c, help, parity)
    ensures MultiOk(c, plan, f, parity, helpBlocks)
  {
    hide AllJustified, Covers, NoneIdle, HelpersNeeded, GroupedByPart;
    helpBlocks := CollectHelpers(plan, help, BlockNum(c));
    HelpersArePicked(c, plan, help, helpBlocks);
    CompleteCovers(c, f, help, g, parity, Concat(helpBlocks));
    ghost var x := SomeHelper(c, f, help, g, parity);
    JustifiedDistinct(c, f, help, g, parity);
    NeededServe(c, help, parity, Concat(helpBlocks));
  }

  lemma NeededServe(c: Lrc, help: seq<bool>, parity: seq<nat>, helpers: seq<nat>)
    requires LrcOk(c) && HelpersNeeded(c, help, parity)
    requires forall i :: 0 <= i < |helpers| ==> helpers[i] < BlockNum(c) && help[helpers[i]]
    ensures NoneIdle(c, parity, helpers)
  {
    hide Feeds;
    forall i | 0 <= i < |helpers|
      ensures Helps(c, helpers[i], parity)
    {
      assert Helps(c, helpers[i], parity);
    }
  }

  lemma JustifiedDistinct(c: Lrc, f: seq<nat>, help: seq<bool>, g: bool, parity: seq<nat>)
    requires AzureOk(c) && |help| == BlockNum(c) && AllJustified(c, f, help, g, parity)
    ensures NoRepeats(parity)
  {
  }

  // The two planners.

  /** The failure map and the data failures of each group. */
  method CountFailures(c: Lrc, failureIdxs: seq<nat>) returns (fmap: seq<bool>, fdCnt: seq<nat>)
    requires AzureOk(c) && FailuresOk(c, failureIdxs)
    ensures MapOf(c, failureIdxs, fmap)
    ensures |fdCnt| == c.l && forall i :: 0 <= i < c.l ==> fdCnt[i] == DataFailures(c, failureIdxs, i)
  {
    hide DataFailures;
    fmap, fdCnt := seq(BlockNum(c), _ => false), seq(c.l, _ => 0);
    NothingFailed(c);
    for n := 0 to |failureIdxs|
      invariant |fmap| == BlockNum(c) && forall x :: 0 <= x < BlockNum(c) ==> (fmap[x] <==> x in failureIdxs[..n])
      invariant |fdCnt| == c.l && forall i :: 0 <= i < c.l ==> fdCnt[i] == DataFailures(c, failureIdxs[..n], i)
    {
      var idx := failureIdxs[n];
      assert failureIdxs[..n + 1] == failureIdxs[..n] + [idx];
      forall i | 0 <= i < c.l
        ensures DataFailures(c, failureIdxs[..n + 1], i)
                == DataFailures(c, failureIdxs[..n], i) + (if idx < c.k && i == idx / R(c) then 1 else 0)
      {
        CountsMore(c, failureIdxs[..n], idx, i);
      }
      fmap := fmap[idx := true];
      if idx < c.k {
        GroupRange(c, idx, 0);
        fdCnt := fdCnt[Bid2Gid(c, idx) := fdCnt[Bid2Gid(c, idx)] + 1];
      }
    }
    assert failureIdxs[..|failureIdxs|] == failureIdxs;
  }

  lemma NothingFailed(c: Lrc)
    requires AzureOk(c)
    ensures R(c) >= 1 && forall i: nat :: DataFailures(c, [], i) == 0
  {
    RBounds(c);
  }

  /** Counting equations: one per data failure, one per failed parity. */
  lemma EquationsCounted(c: Lrc, f: seq<nat>, s1: Picks, s2: Picks, pushLocal: bool, used: nat)
    requires AzureOk(c) && FailuresOk(c, f) && Stage(c, f, s1, pushLocal, c.l, used) && WithFailed(c, f, s1, s2, BlockNum(c))
    ensures |s2.parity| + (if pushLocal then 0 else HelpedIn(s1.help, c.k + c.g, BlockNum(c))) == |f|
  {
    GroupLoGrows(c, c.l);
    CountWhole(f, 0, BlockNum(c));
    CountSplit(f, 0, c.k, BlockNum(c));
  }

  lemma FailedLists(c: Lrc, f: seq<nat>, s1: Picks, s2: Picks, used: nat)
    requires AzureOk(c) && FailuresOk(c, f) && Stage(c, f, s1, false, c.l, used) && WithFailed(c, f, s1, s2, BlockNum(c))
    ensures |s2.help| == BlockNum(c) && Replacing(c, f, s2, s2, 0)
    ensures HelpedIn(s2.help, c.k + c.g, BlockNum(c)) == HelpedIn(s1.help, c.k + c.g, BlockNum(c))
  {
    HelpedSame(s1.help, s2.help, c.k + c.g, BlockNum(c));
    forall x | c.k + c.g <= x < BlockNum(c) && s2.help[x]
      ensures x !in s2.parity
    {
    }
  }

  lemma WithFailedLists(c: Lrc, f: seq<nat>, s1: Picks, s2: Picks)
    requires AzureOk(c) && |s1.help| == BlockNum(c) && WithFailed(c, f, s1, s2, BlockNum(c))
    ensures |s2.help| == BlockNum(c) && HelpLive(f, s2.help) && AllJustified(c, f, s2.help, s2.useGlobal, s2.parity)
  {
  }

  lemma ReplacedLists(c: Lrc, f: seq<nat>, s2: Picks, s3: Picks)
    requires AzureOk(c) && |s2.help| == BlockNum(c) && Replacing(c, f, s2, s3, c.l)
    ensures |s3.help| == BlockNum(c) && HelpLive(f, s3.help) && AllJustified(c, f, s3.help, s3.useGlobal, s3.parity)
    ensures |s3.parity| == |s2.parity| + HelpedIn(s2.help, c.k + c.g, BlockNum(c))
  {
  }

  /** Local parities first, then global ones; no helpers are returned when there are not enough of them. */
  method WithLocalPriority(c: Lrc, plan: Partition, failureIdxs: seq<nat>)
      returns (parity: seq<nat>, helpBlocks: seq<seq<nat>>)
    requires AzureOk(c) && FailuresOk(c, failureIdxs) && IsPartition(plan, BlockNum(c)) && CountIn(failureIdxs, 0, c.k) > 0
    ensures Decodable(c, failureIdxs) ==>
              MultiOk(c, plan, failureIdxs, parity, helpBlocks) && EquationsChosen(c, failureIdxs, parity, false)
    ensures !Decodable(c, failureIdxs) ==> helpBlocks == []
  {
    hide Stage, WithFailed, AllJustified, Decodable, HelpLive, AllHelped, DataFailures, Tidy, FailedIn, DataNeeded, EquationsChosen;
    ghost var f := failureIdxs;
    var fmap, fdCnt := CountFailures(c, failureIdxs);
    var groups := GroupingInformation(c);
    var ok, s;
    ghost var used;
    ok, s, used := ServeData(c, fmap, groups, fdCnt, true, f);
    if !ok {
      return s.parity, [];
    }
    ghost var s1 := s;
    StageLists(c, f, s, true, used);
    TidyLists(c, f, s, true);
    s := AddFailedParities(c, fmap, groups, s, f);
    EquationsCounted(c, f, s1, s, true, used);
    WithFailedLists(c, f, s1, s);
    FailedInLists(c, f, s1, s);
    LocalChosen(c, f, s1, s, used);
    var help := MarkData(c, fmap, s, f);
    parity := s.parity;
    helpBlocks := ListHelpers(c, plan, help, parity, f, s.useGlobal);
  }

  lemma TidyLists(c: Lrc, f: seq<nat>, s: Picks, pushLocal: bool)
    requires AzureOk(c) && Tidy(c, f, s, pushLocal, c.l)
    ensures |s.help| == BlockNum(c) && (s.useGlobal ==> SomeGlobal(c, s.parity)) && DataNeeded(c, s.help, s.parity)
  {
  }

  lemma FailedInLists(c: Lrc, f: seq<nat>, s1: Picks, s2: Picks)
    requires AzureOk(c) && FailedIn(c, f, s1, s2, BlockNum(c))
    ensures |s2.help| == BlockNum(c) && (s2.useGlobal ==> SomeGlobal(c, s2.parity)) && DataNeeded(c, s2.help, s2.parity)
  {
  }

  /** The same, but live global parities then take the place of local ones. */
  method WithGlobalPriority(c: Lrc, plan: Partition, failureIdxs: seq<nat>)
      returns (parity: seq<nat>, helpBlocks: seq<seq<nat>>)
    requires AzureOk(c) && FailuresOk(c, failureIdxs) && IsPartition(plan, BlockNum(c)) && CountIn(failureIdxs, 0, c.k) > 0
    ensures Decodable(c, failureIdxs) ==>
              MultiOk(c, plan, failureIdxs, parity, helpBlocks) && EquationsChosen(c, failureIdxs, parity, true)
    ensures !Decodable(c, failureIdxs) ==> helpBlocks == []
  {
    hide Stage, WithFailed, AllJustified, Decodable, HelpLive, AllHelped, Replacing, DataFailures, Tidy, FailedIn, DataNeeded,
         Swapped, EquationsChosen;
    ghost var f := failureIdxs;
    var fmap, fdCnt := CountFailures(c, failureIdxs);
    var groups := GroupingInformation(c);
    var ok, s;
    ghost var used, reached;
    ok, s, used := ServeData(c, fmap, groups, fdCnt, false, f);
    if !ok {
      return s.parity, [];
    }
    ghost var s1 := s;
    StageLists(c, f, s, false, used);
    TidyLists(c, f, s, false);
    s := AddFailedParities(c, fmap, groups, s, f);
    EquationsCounted(c, f, s1, s, false, used);
    FailedLists(c, f, s1, s, used);
    ghost var s2 := s;
    SwapStarts(c, f, s1, s, used);
    s, reached := ReplaceLocals(c, fmap, groups, s, f);
    ReplacedLists(c, f, s2, s);
    SwapNeeds(c, f, s2, s, reached);
    GlobalChosen(c, f, s1, s2, s, used, reached);
    var help := MarkData(c, fmap, s, f);
    parity := s.parity;
    helpBlocks := ListHelpers(c, plan, help, parity, f, s.useGlobal);
  }

  lemma SwapNeeds(c: Lrc, f: seq<nat>, s2: Picks, s: Picks, globalIdx: nat)
    requires AzureOk(c) && Swapped(c, f, s2, s, c.l, globalIdx)
    ensures |s.help| == BlockNum(c) && (s.useGlobal ==> SomeGlobal(c, s.parity)) && DataNeeded(c, s.help, s.parity)
  {
  }
}

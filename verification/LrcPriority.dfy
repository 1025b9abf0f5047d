/**
 The two planners for several failures: one prefers local parities, the other swaps them for global
 parities where it can. Both provide for every failure exactly when the decodability test accepts.
 */
module LrcPriority {
  import opened Listing
  import opened LrcShape
  import opened LrcDecodable
  import opened LrcPartition
  import opened LrcMulti

  /** What the picks look like after the group has been served. */
  lemma ServedBy(c: Lrc, f: seq<nat>, s0: Picks, s1: Picks, s2: Picks, help: seq<bool>, pushLocal: bool, i: nat,
                 used0: nat, used: nat)
    requires AzureOk(c) && FailuresOk(c, f) && i < c.l && Stage(c, f, s0, pushLocal, i, used0) && DataFailures(c, f, i) > 0
    requires var take := c.k + c.g + i !in f; s1 == WithLocal(c, s0, i, take, pushLocal)
    requires GlobalsAdded(c, s1, s2, Need(c, f, i)) && used == used0 + Need(c, f, i)
    requires c.k <= s2.globalIdx <= c.k + c.g && NoHelpIn(s2.help, s2.globalIdx, c.k + c.g)
    requires HelpLive(f, s2.help) && AllHelped(s2.help, s2.parity) && NoRepeats(s2.parity)
    requires ScanCounts(c, f, s2.globalIdx, used)
    requires (s1.useGlobal ==> s2.useGlobal) && (Need(c, f, i) > 0 ==> s2.useGlobal)
    requires |help| == BlockNum(c)
    requires if pushLocal && c.k + c.g + i !in f
             then forall x :: 0 <= x < |help| ==> (help[x] <==> s2.help[x] || (x in LocalGroup(c, i) && x !in f))
             else help == s2.help
    ensures GroupServed(c, f, s0, s2.(help := help), pushLocal, i, used0, used)
  {
    hide GroupLo, AllJustified, Counts, TotalNeed, Need, LocalGroup, ScanCounts, NoRepeats;
    InLocalGroup(c, i);
  }

  lemma InLocalGroup(c: Lrc, i: nat)
    requires AzureOk(c)
    ensures forall x :: x in LocalGroup(c, i) <==> GroupLo(c, i) <= x < GroupLo(c, i + 1) || x == c.k + c.g + i
    ensures GroupLo(c, i) <= GroupLo(c, i + 1) <= c.k
  {
    GroupLoGrows(c, i);
    var lo, hi, all := GroupLo(c, i), GroupLo(c, i + 1), LocalGroup(c, i);
    forall x
      ensures x in all <==> lo <= x < hi || x == c.k + c.g + i
    {
      if lo <= x < hi {
        assert all[x - lo] == x;
      } else if x == c.k + c.g + i {
        assert all[hi - lo] == x;
      }
    }
  }

  lemma StageFacts(c: Lrc, f: seq<nat>, s: Picks, pushLocal: bool, i: nat, used: nat)
    requires AzureOk(c) && Stage(c, f, s, pushLocal, i, used) && i < c.l
    ensures LrcOk(c) && BlockNum(c) == c.k + c.g + c.l && |s.help| == BlockNum(c) && !s.help[c.k + c.g + i]
    ensures c.k <= s.globalIdx <= c.k + c.g && NoHelpIn(s.help, s.globalIdx, c.k + c.g) && NoRepeats(s.parity)
    ensures HelpLive(f, s.help) && AllHelped(s.help, s.parity) && ScanCounts(c, f, s.globalIdx, used)
    ensures used == TotalNeed(c, f, i)
  {
  }

  /** The scan has ended and a failure is left over: the test would not have accepted. */
  lemma StuckMeansTooMany(c: Lrc, f: seq<nat>, i: nat, used0: nat, used: nat)
    requires AzureOk(c) && i < c.l && used0 == TotalNeed(c, f, i) && used0 <= used < used0 + Need(c, f, i)
    requires ScanCounts(c, f, c.k + c.g, used)
    ensures !Decodable(c, f)
  {
    ScanEnd(c, f, used);
    NeedGrows(c, f, i + 1, c.l);
  }

  lemma GroupInRange(c: Lrc, i: nat)
    requires AzureOk(c) && i < c.l
    ensures forall j :: 0 <= j < |LocalGroup(c, i)| ==> LocalGroup(c, i)[j] < BlockNum(c)
  {
    GroupLoGrows(c, i);
  }

  lemma HelpAfter(c: Lrc, s1: Picks, s2: Picks, n: nat)
    requires GlobalsAdded(c, s1, s2, n)
    ensures |s2.help| == |s1.help| == BlockNum(c)
    ensures forall x :: c.k + c.g <= x < BlockNum(c) ==> s2.help[x] == s1.help[x]
  {
  }

  lemma StageStarts(c: Lrc, f: seq<nat>, pushLocal: bool)
    requires AzureOk(c)
    ensures Stage(c, f, Picks(seq(BlockNum(c), _ => false), [], c.k, false), pushLocal, 0, 0)
  {
    GroupLoGrows(c, 0);
    CountWhole(f, 0, 0);
  }

  lemma StageEnds(c: Lrc, f: seq<nat>, s: Picks, pushLocal: bool, used: nat)
    requires AzureOk(c) && FailuresOk(c, f) && Stage(c, f, s, pushLocal, c.l, used)
    ensures Decodable(c, f)
  {
    ScanWithin(c, f, s.globalIdx, used);
  }

  lemma StageLists(c: Lrc, f: seq<nat>, s: Picks, pushLocal: bool, used: nat)
    requires AzureOk(c) && Stage(c, f, s, pushLocal, c.l, used)
    ensures |s.help| == BlockNum(c) && HelpLive(f, s.help) && AllHelped(s.help, s.parity)
    ensures AllJustified(c, f, s.help, s.useGlobal, s.parity)
  {
  }

  // Failed parities.

  /** The failed parities up to block i have brought their own equations. */
  ghost predicate WithFailed(c: Lrc, f: seq<nat>, s0: Picks, s: Picks, i: nat)
    requires AzureOk(c) && |s0.help| == BlockNum(c)
  {
    && |s.help| == BlockNum(c) && c.k <= i <= BlockNum(c) && HelpLive(f, s.help)
    && (forall x :: 0 <= x < BlockNum(c) && s0.help[x] ==> s.help[x])
    && (forall x :: c.k <= x < BlockNum(c) ==> s.help[x] == s0.help[x])
    && AllJustified(c, f, s.help, s.useGlobal, s.parity) && |s.parity| == |s0.parity| + CountIn(f, c.k, i)
    && (s0.useGlobal ==> s.useGlobal)
    && forall p :: p in s.parity ==> p in s0.parity || (p in f && p < i)
  }

  lemma FailedStarts(c: Lrc, f: seq<nat>, s: Picks)
    requires AzureOk(c) && |s.help| == BlockNum(c) && HelpLive(f, s.help)
    requires AllJustified(c, f, s.help, s.useGlobal, s.parity)
    ensures WithFailed(c, f, s, s, c.k)
  {
    hide AllJustified;
    CountWhole(f, c.k, c.k);
  }

  /** One more parity that has failed. */
  lemma FailedMore(c: Lrc, f: seq<nat>, s0: Picks, s: Picks, i: nat, help: seq<bool>)
    requires AzureOk(c) && FailuresOk(c, f) && |s0.help| == BlockNum(c) && AllHelped(s0.help, s0.parity) && HelpLive(f, s0.help)
    requires WithFailed(c, f, s0, s, i) && i < BlockNum(c) && i in f
    requires |help| == BlockNum(c)
    requires if i < c.k + c.g then help == s.help
             else forall x :: 0 <= x < |help| ==> (help[x] <==> s.help[x] || (x in LocalGroup(c, i - c.k - c.g) && x !in f))
    ensures var s' := Picks(help, s.parity + [i], s.globalIdx, s.useGlobal || i < c.k + c.g); var next := i + 1;
            WithFailed(c, f, s0, s', next)
  {
    hide GroupLo, LocalGroup, Justified;
    var g := s.useGlobal || i < c.k + c.g;
    if i >= c.k + c.g {
      InLocalGroup(c, i - c.k - c.g);
    }
    JustifiedKept(c, f, s.help, help, s.useGlobal, g, s.parity);
    OwnEquation(c, f, help, g, i);
    assert !s0.help[i] && i !in s0.parity;
    JustifiedMore(c, f, help, g, s.parity, i);
    CountSplit(f, c.k, i, i + 1);
    CountOne(f, i);
  }

  lemma OwnEquation(c: Lrc, f: seq<nat>, help: seq<bool>, g: bool, i: nat)
    requires AzureOk(c) && |help| == BlockNum(c) && c.k <= i < BlockNum(c) && i in f && (i < c.k + c.g ==> g)
    requires i >= c.k + c.g ==>
               forall x :: x in LocalGroup(c, i - c.k - c.g) && x < |help| && x !in f ==> help[x]
    ensures Justified(c, f, help, g, i)
  {
    hide GroupLo, LocalGroup;
    if i >= c.k + c.g {
      InLocalGroup(c, i - c.k - c.g);
    }
  }

  lemma FailedSkips(c: Lrc, f: seq<nat>, s0: Picks, s: Picks, i: nat)
    requires AzureOk(c) && FailuresOk(c, f) && |s0.help| == BlockNum(c) && WithFailed(c, f, s0, s, i) && i < BlockNum(c) && i !in f
    ensures var next := i + 1; WithFailed(c, f, s0, s, next)
  {
    hide AllJustified;
    CountSplit(f, c.k, i, i + 1);
    CountOne(f, i);
  }

}

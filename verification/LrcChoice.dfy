/**
 Which equations the two planners choose. They take the same parities at first: the live parity of each group
 with data failures, and global parities in order for what is left over. One keeps the groups' parities, the
 other puts global parities in their place as long as there are any.
 */
module LrcChoice {
  import opened Listing
  import opened LrcShape
  import opened LrcCode
  import opened LrcHelpers
  import opened LrcDecodable
  import opened LrcPartition
  import opened LrcMulti
  import opened LrcPriority

  /** Block x is the live parity of a group that has data failures. */
  ghost predicate OwnTaken(c: Lrc, f: seq<nat>, x: nat)
    requires LrcOk(c)
  {
    c.k + c.g <= x < BlockNum(c) && x !in f && DataFailures(c, f, x - c.k - c.g) > 0
  }

  ghost predicate DataNeeded(c: Lrc, help: seq<bool>, parity: seq<nat>)
    requires LrcOk(c) && |help| == BlockNum(c)
  {
    forall x :: 0 <= x < c.k && help[x] ==> Helps(c, x, parity)
  }

  /** Of the global parities the live ones come in order. */
  ghost predicate GlobalsInOrder(c: Lrc, f: seq<nat>, parity: seq<nat>) {
    forall q, q' :: c.k <= q < q' < c.k + c.g && q !in f && q' !in f && q' in parity ==> q in parity
  }

  ghost predicate LiveGlobalsIn(c: Lrc, f: seq<nat>, parity: seq<nat>) {
    forall q :: c.k <= q < c.k + c.g && q !in f ==> q in parity
  }

  /**
   The equations chosen for the failures: those of all failed parities, of live global parities in order, and
   of groups with data failures whose own parity is live. With local priority every such group uses its own
   parity, and the global parities are as many as the groups leave over. With global priority a group keeps its
   own parity only when every live global parity is used, and those groups come last.
   */
  ghost predicate EquationsChosen(c: Lrc, f: seq<nat>, parity: seq<nat>, globalPriority: bool)
    requires LrcOk(c)
  {
    && (forall p :: p in f && p >= c.k ==> p in parity)
    && (forall p :: p in parity ==> p in f || c.k <= p < c.k + c.g || OwnTaken(c, f, p))
    && GlobalsInOrder(c, f, parity)
    && if globalPriority
       then forall x :: OwnTaken(c, f, x) && x in parity ==> KeptLate(c, f, parity, x)
       else (forall x :: OwnTaken(c, f, x) ==> x in parity)
            && CountIn(parity, c.k, c.k + c.g) == TotalNeed(c, f, c.l) + GlobalFailures(c, f)
  }

  ghost predicate KeptLate(c: Lrc, f: seq<nat>, parity: seq<nat>, x: nat)
    requires LrcOk(c)
  {
    LiveGlobalsIn(c, f, parity) && forall y :: x < y && OwnTaken(c, f, y) ==> y in parity
  }

  // Serving the data failures.

  /** The picks after i groups. */
  ghost predicate Tidy(c: Lrc, f: seq<nat>, s: Picks, pushLocal: bool, i: nat)
    requires LrcOk(c)
  {
    && |s.help| == BlockNum(c) && c.k <= s.globalIdx <= c.k + c.g
    && (forall q :: c.k <= q < c.k + c.g ==> (s.help[q] <==> q !in f && q < s.globalIdx))
    && (forall q :: c.k <= q < c.k + c.g && s.help[q] ==> q in s.parity)
    && (forall x :: c.k + c.g <= x < BlockNum(c) ==> (s.help[x] <==> x < c.k + c.g + i && OwnTaken(c, f, x)))
    && (forall x :: c.k + c.g <= x < BlockNum(c) && s.help[x] && pushLocal ==> x in s.parity)
    && (s.useGlobal ==> SomeGlobal(c, s.parity)) && DataNeeded(c, s.help, s.parity)
  }

  lemma TidyStarts(c: Lrc, f: seq<nat>, pushLocal: bool)
    requires AzureOk(c)
    ensures Tidy(c, f, Picks(seq(BlockNum(c), _ => false), [], c.k, false), pushLocal, 0)
  {
  }

  lemma TidySkips(c: Lrc, f: seq<nat>, s: Picks, pushLocal: bool, i: nat)
    requires AzureOk(c) && Tidy(c, f, s, pushLocal, i) && i < c.l && DataFailures(c, f, i) == 0
    ensures var next := i + 1; Tidy(c, f, s, pushLocal, next)
  {
    hide DataFailures, Helps;
  }

  lemma ServesMore(c: Lrc, x: nat, parity: seq<nat>, parity': seq<nat>)
    requires LrcOk(c) && x < BlockNum(c) && Helps(c, x, parity) && forall p :: p in parity ==> p in parity'
    ensures Helps(c, x, parity')
  {
    hide Feeds;
  }

  /** The data of group i serves its parity. */
  lemma GroupServes(c: Lrc, i: nat, x: nat, parity: seq<nat>)
    requires AzureOk(c) && i < c.l && x in LocalGroup(c, i) && c.k + c.g + i in parity
    ensures x < BlockNum(c) && Helps(c, x, parity)
  {
    hide LocalGroup, GroupLo;
    InLocalGroup(c, i);
    if x < c.k {
      GroupRange(c, x, i);
    }
    assert Feeds(c, x, c.k + c.g + i);
  }

  /** A group has been served: its own parity has been considered, global parities scanned, its data marked. */
  lemma TidyMoves(c: Lrc, f: seq<nat>, s0: Picks, s1: Picks, s2: Picks, help: seq<bool>, pushLocal: bool, i: nat)
    requires AzureOk(c) && i < c.l && Tidy(c, f, s0, pushLocal, i) && DataFailures(c, f, i) > 0
    requires s1 == WithLocal(c, s0, i, c.k + c.g + i !in f, pushLocal) && Scanned(c, f, s1, s2)
    requires |help| == BlockNum(c)
    requires if pushLocal && c.k + c.g + i !in f
             then forall x :: 0 <= x < |help| ==> (help[x] <==> s2.help[x] || (x in LocalGroup(c, i) && x !in f))
             else help == s2.help
    ensures var next := i + 1; Tidy(c, f, s2.(help := help), pushLocal, next)
  {
    hide LocalGroup, Scanned, DataFailures, DataNeeded;
    ParityGrows(c, s0, s1, i, c.k + c.g + i !in f, pushLocal);
    TidyData(c, f, s0, s1, s2, help, pushLocal, i);
    SameAbove(c, f, s0, s1, s2, help, pushLocal, i);
    TidyAbove(c, f, s0, s1, s2, help, pushLocal, i);
  }

  /** Marking the group's data changes nothing among the parities. */
  lemma SameAbove(c: Lrc, f: seq<nat>, s0: Picks, s1: Picks, s2: Picks, help: seq<bool>, pushLocal: bool, i: nat)
    requires AzureOk(c) && i < c.l && Tidy(c, f, s0, pushLocal, i)
    requires s1 == WithLocal(c, s0, i, c.k + c.g + i !in f, pushLocal) && Scanned(c, f, s1, s2)
    requires |help| == BlockNum(c)
    requires if pushLocal && c.k + c.g + i !in f
             then forall x :: 0 <= x < |help| ==> (help[x] <==> s2.help[x] || (x in LocalGroup(c, i) && x !in f))
             else help == s2.help
    ensures forall x :: c.k <= x < BlockNum(c) ==> help[x] == s2.help[x]
  {
    hide LocalGroup, GroupLo, DataFailures, DataNeeded;
    InLocalGroup(c, i);
  }

  lemma TidyAbove(c: Lrc, f: seq<nat>, s0: Picks, s1: Picks, s2: Picks, help: seq<bool>, pushLocal: bool, i: nat)
    requires AzureOk(c) && i < c.l && Tidy(c, f, s0, pushLocal, i) && DataFailures(c, f, i) > 0
    requires s1 == WithLocal(c, s0, i, c.k + c.g + i !in f, pushLocal) && Scanned(c, f, s1, s2)
    requires forall p :: p in s0.parity ==> p in s1.parity
    requires c.k + c.g + i !in f && pushLocal ==> c.k + c.g + i in s1.parity
    requires |help| == BlockNum(c) && (forall x :: c.k <= x < BlockNum(c) ==> help[x] == s2.help[x]) && DataNeeded(c, help, s2.parity)
    ensures var next := i + 1; Tidy(c, f, s2.(help := help), pushLocal, next)
  {
    hide OwnTaken, DataNeeded, Tidy, Scanned, WithLocal;
    TidyGlobals(c, f, s0, s1, s2, pushLocal, i);
    TidyLocals(c, f, s0, s1, s2, pushLocal, i);
    TidyFrom(c, f, s2, help, pushLocal, i + 1);
  }

  /** The same facts about s2, whose helpers among the parities are those of `help`. */
  lemma TidyFrom(c: Lrc, f: seq<nat>, s2: Picks, help: seq<bool>, pushLocal: bool, next: nat)
    requires LrcOk(c) && |help| == |s2.help| == BlockNum(c) && c.k <= s2.globalIdx <= c.k + c.g
    requires (forall x :: c.k <= x < BlockNum(c) ==> help[x] == s2.help[x]) && DataNeeded(c, help, s2.parity)
    requires forall q :: c.k <= q < c.k + c.g ==> (s2.help[q] <==> q !in f && q < s2.globalIdx)
    requires forall q :: c.k <= q < c.k + c.g && s2.help[q] ==> q in s2.parity
    requires forall x :: c.k + c.g <= x < BlockNum(c) ==> (s2.help[x] <==> x < c.k + c.g + next && OwnTaken(c, f, x))
    requires forall x :: c.k + c.g <= x < BlockNum(c) && s2.help[x] && pushLocal ==> x in s2.parity
    requires s2.useGlobal ==> SomeGlobal(c, s2.parity)
    ensures Tidy(c, f, s2.(help := help), pushLocal, next)
  {
    hide OwnTaken, DataNeeded;
  }

  lemma TidyGlobals(c: Lrc, f: seq<nat>, s0: Picks, s1: Picks, s2: Picks, pushLocal: bool, i: nat)
    requires AzureOk(c) && i < c.l && Tidy(c, f, s0, pushLocal, i) && Scanned(c, f, s1, s2)
    requires s1 == WithLocal(c, s0, i, c.k + c.g + i !in f, pushLocal) && forall p :: p in s0.parity ==> p in s1.parity
    ensures c.k <= s2.globalIdx <= c.k + c.g && |s2.help| == BlockNum(c)
    ensures forall q :: c.k <= q < c.k + c.g ==> (s2.help[q] <==> q !in f && q < s2.globalIdx)
    ensures forall q :: c.k <= q < c.k + c.g && s2.help[q] ==> q in s2.parity
    ensures s2.useGlobal ==> SomeGlobal(c, s2.parity)
  {
    hide OwnTaken, DataNeeded;
    if s0.useGlobal {
      var q :| q in s0.parity && c.k <= q < c.k + c.g;
      assert q in s2.parity;
    }
  }

  lemma TidyLocals(c: Lrc, f: seq<nat>, s0: Picks, s1: Picks, s2: Picks, pushLocal: bool, i: nat)
    requires AzureOk(c) && i < c.l && Tidy(c, f, s0, pushLocal, i) && Scanned(c, f, s1, s2) && DataFailures(c, f, i) > 0
    requires s1 == WithLocal(c, s0, i, c.k + c.g + i !in f, pushLocal) && forall p :: p in s0.parity ==> p in s1.parity
    requires c.k + c.g + i !in f && pushLocal ==> c.k + c.g + i in s1.parity
    ensures |s2.help| == BlockNum(c)
    ensures var next := i + 1;
            forall x :: c.k + c.g <= x < BlockNum(c) ==> (s2.help[x] <==> x < c.k + c.g + next && OwnTaken(c, f, x))
    ensures forall x :: c.k + c.g <= x < BlockNum(c) && s2.help[x] && pushLocal ==> x in s2.parity
  {
    hide DataFailures, DataNeeded;
  }

  lemma ParityGrows(c: Lrc, s0: Picks, s1: Picks, i: nat, take: bool, pushLocal: bool)
    requires c.k + c.g + i < |s0.help| && s1 == WithLocal(c, s0, i, take, pushLocal)
    ensures (forall p :: p in s0.parity ==> p in s1.parity) && (take && pushLocal ==> c.k + c.g + i in s1.parity)
  {
  }

  lemma TidyData(c: Lrc, f: seq<nat>, s0: Picks, s1: Picks, s2: Picks, help: seq<bool>, pushLocal: bool, i: nat)
    requires AzureOk(c) && i < c.l && Tidy(c, f, s0, pushLocal, i)
    requires s1 == WithLocal(c, s0, i, c.k + c.g + i !in f, pushLocal) && Scanned(c, f, s1, s2)
    requires |help| == BlockNum(c)
    requires if pushLocal && c.k + c.g + i !in f
             then forall x :: 0 <= x < |help| ==> (help[x] <==> s2.help[x] || (x in LocalGroup(c, i) && x !in f))
             else help == s2.help
    ensures DataNeeded(c, help, s2.parity)
  {
    hide LocalGroup, GroupLo, DataFailures, Helps;
    ParityGrows(c, s0, s1, i, c.k + c.g + i !in f, pushLocal);
    forall x: nat | x < c.k && help[x]
      ensures Helps(c, x, s2.parity)
    {
      if s0.help[x] {
        ServesMore(c, x, s0.parity, s2.parity);
      } else {
        GroupServes(c, i, x, s2.parity);
      }
    }
  }

  // Failed parities.

  /** All equations so far are kept, and every failed parity up to block i has brought its own. */
  ghost predicate FailedIn(c: Lrc, f: seq<nat>, s0: Picks, s: Picks, i: nat)
    requires LrcOk(c)
  {
    && |s.help| == BlockNum(c) && s.globalIdx == s0.globalIdx
    && (forall p :: p in s0.parity ==> p in s.parity) && (forall p :: p in f && c.k <= p < i ==> p in s.parity)
    && (s.useGlobal ==> SomeGlobal(c, s.parity)) && DataNeeded(c, s.help, s.parity)
  }

  lemma FailedInStarts(c: Lrc, f: seq<nat>, s: Picks)
    requires LrcOk(c) && |s.help| == BlockNum(c) && (s.useGlobal ==> SomeGlobal(c, s.parity)) && DataNeeded(c, s.help, s.parity)
    ensures FailedIn(c, f, s, s, c.k)
  {
  }

  lemma FailedInSkips(c: Lrc, f: seq<nat>, s0: Picks, s: Picks, i: nat)
    requires LrcOk(c) && FailedIn(c, f, s0, s, i) && i !in f
    ensures var next := i + 1; FailedIn(c, f, s0, s, next)
  {
    hide DataNeeded;
  }

  lemma FailedInMore(c: Lrc, f: seq<nat>, s0: Picks, s: Picks, i: nat, help: seq<bool>)
    requires AzureOk(c) && FailedIn(c, f, s0, s, i) && c.k <= i < BlockNum(c) && |help| == BlockNum(c)
    requires if i < c.k + c.g then help == s.help
             else forall x :: 0 <= x < |help| ==> (help[x] <==> s.help[x] || (x in LocalGroup(c, i - c.k - c.g) && x !in f))
    ensures var s' := Picks(help, s.parity + [i], s.globalIdx, s.useGlobal || i < c.k + c.g); var next := i + 1;
            FailedIn(c, f, s0, s', next)
  {
    hide LocalGroup, Helps;
    var parity' := s.parity + [i];
    assert i in parity' && forall p :: p in s.parity ==> p in parity';
    forall x: nat | x < c.k && help[x]
      ensures Helps(c, x, parity')
    {
      if s.help[x] {
        ServesMore(c, x, s.parity, parity');
      } else {
        GroupServes(c, i - c.k - c.g, x, parity');
      }
    }
    assert s.useGlobal || i < c.k + c.g ==> SomeGlobal(c, parity');
  }

  // Counting.

  /** A list without repetition has as many entries in a range as there are helpers, if it lists them. */
  lemma {:induction false} CountIsHelped(s: seq<nat>, help: seq<bool>, lo: nat, hi: nat)
    requires NoRepeats(s) && hi <= |help| && forall x :: lo <= x < hi ==> (x in s <==> help[x])
    ensures CountIn(s, lo, hi) == HelpedIn(help, lo, hi)
  {
    if hi <= lo {
      CountWhole(s, lo, hi);
    } else {
      CountIsHelped(s, help, lo, hi - 1);
      CountSplit(s, lo, hi - 1, hi);
      CountOne(s, hi - 1);
    }
  }

  lemma {:induction false} CountUnion(u: seq<nat>, a: seq<nat>, b: seq<nat>, lo: nat, hi: nat)
    requires NoRepeats(u) && NoRepeats(a) && NoRepeats(b)
    requires forall x :: lo <= x < hi ==> (x in u <==> x in a || x in b) && !(x in a && x in b)
    ensures CountIn(u, lo, hi) == CountIn(a, lo, hi) + CountIn(b, lo, hi)
    decreases hi
  {
    if hi <= lo {
      CountWhole(u, lo, hi);
      CountWhole(a, lo, hi);
      CountWhole(b, lo, hi);
    } else {
      CountUnion(u, a, b, lo, hi - 1);
      CountSplit(u, lo, hi - 1, hi);
      CountSplit(a, lo, hi - 1, hi);
      CountSplit(b, lo, hi - 1, hi);
      CountOne(u, hi - 1);
      CountOne(a, hi - 1);
      CountOne(b, hi - 1);
    }
  }

  /** With local priority the global equations are what the groups leave over. */
  lemma GlobalsTaken(c: Lrc, f: seq<nat>, s: Picks, used: nat)
    requires AzureOk(c) && Stage(c, f, s, true, c.l, used) && Tidy(c, f, s, true, c.l)
    ensures CountIn(s.parity, c.k, c.k + c.g) == TotalNeed(c, f, c.l)
  {
    hide DataNeeded, DataFailures, TotalNeed, ScanCounts, GroupLo, GroupLive, OwnTaken;
    ParityMembers(c, f, s, true, used);
    CountIsHelped(s.parity, s.help, c.k + c.g, BlockNum(c));
    CountWhole(s.parity, c.k, BlockNum(c));
    CountSplit(s.parity, c.k, c.k + c.g, BlockNum(c));
  }

  lemma ParityMembers(c: Lrc, f: seq<nat>, s: Picks, pushLocal: bool, used: nat)
    requires AzureOk(c) && Stage(c, f, s, pushLocal, c.l, used) && Tidy(c, f, s, pushLocal, c.l)
    ensures forall p :: p in s.parity ==> c.k <= p < BlockNum(c) && s.help[p] && p !in f
    ensures forall p :: p in s.parity && p >= c.k + c.g ==> OwnTaken(c, f, p)
  {
    hide DataNeeded, DataFailures, Counts, ScanCounts, GroupLive;
    forall p | p in s.parity
      ensures c.k <= p < BlockNum(c) && s.help[p] && p !in f
      ensures p >= c.k + c.g ==> OwnTaken(c, f, p)
    {
      var i :| 0 <= i < |s.parity| && s.parity[i] == p;
      assert Justified(c, f, s.help, s.useGlobal, s.parity[i]);
    }
  }

  /** The choice with local priority. */
  lemma LocalChosen(c: Lrc, f: seq<nat>, s1: Picks, s: Picks, used: nat)
    requires AzureOk(c) && FailuresOk(c, f) && Stage(c, f, s1, true, c.l, used) && Tidy(c, f, s1, true, c.l)
    requires WithFailed(c, f, s1, s, BlockNum(c)) && FailedIn(c, f, s1, s, BlockNum(c))
    ensures EquationsChosen(c, f, s.parity, false)
    ensures forall x :: c.k <= x < BlockNum(c) && s.help[x] ==> x in s.parity
  {
    hide Stage, DataNeeded, DataFailures, AllJustified, TotalNeed, HelpLive, AllHelped, CountIn;
    ParityMembers(c, f, s1, true, used);
    GlobalsTaken(c, f, s1, used);
    StageLists(c, f, s1, true, used);
    NoRepeatsOf(c, f, s);
    CountUnion(s.parity, s1.parity, f, c.k, c.k + c.g);
  }

  lemma NoRepeatsOf(c: Lrc, f: seq<nat>, s: Picks)
    requires AzureOk(c) && |s.help| == BlockNum(c) && AllJustified(c, f, s.help, s.useGlobal, s.parity)
    ensures NoRepeats(s.parity)
  {
  }

  // Putting global parities in the place of local ones.

  /** The global parities taken: all live ones the scan has passed, and those come first. */
  ghost predicate GlobalsSwapped(c: Lrc, f: seq<nat>, s0: Picks, s: Picks, globalIdx: nat)
    requires |s0.help| == |s.help| == BlockNum(c)
  {
    && c.k <= globalIdx <= c.k + c.g
    && (forall q, q' :: c.k <= q < q' < c.k + c.g && s.help[q'] && q !in f ==> s.help[q])
    && (forall q :: c.k <= q < c.k + c.g && s.help[q] ==> q in s.parity && q !in f)
    && (forall q :: c.k <= q < globalIdx ==> q in f || s.help[q])
    && (forall q :: c.k <= q < c.k + c.g && s0.help[q] ==> s.help[q])
  }

  /** The local parities kept up to group i: only once there is no global parity any more. */
  ghost predicate LocalsSwapped(c: Lrc, s0: Picks, s: Picks, i: nat, globalIdx: nat)
    requires |s0.help| == |s.help| == BlockNum(c) && i <= c.l
  {
    && (forall x :: c.k + c.g <= x < BlockNum(c) && s.help[x] ==> s0.help[x])
    && (forall x :: c.k + c.g + i <= x < BlockNum(c) ==> s.help[x] == s0.help[x])
    && (forall x :: c.k + c.g <= x < c.k + c.g + i && s.help[x] ==> globalIdx == c.k + c.g && x in s.parity)
    && (forall x, y :: c.k + c.g <= x < y < c.k + c.g + i && s.help[x] && s0.help[y] ==> s.help[y])
  }

  /** Every equation is an old one, or that of a parity that helps. */
  ghost predicate ParitySwapped(c: Lrc, s0: Picks, s: Picks, i: nat) {
    && (forall p :: p in s0.parity ==> p in s.parity)
    && (forall p :: p in s.parity ==> p in s0.parity || (c.k <= p < c.k + c.g + i && p < |s.help| && s.help[p]))
  }

  /** Up to group i: as long as there are live global parities they take the places, in order. */
  ghost predicate Swapped(c: Lrc, f: seq<nat>, s0: Picks, s: Picks, i: nat, globalIdx: nat)
    requires LrcOk(c)
  {
    && |s0.help| == |s.help| == BlockNum(c) && i <= c.l
    && GlobalsSwapped(c, f, s0, s, globalIdx) && LocalsSwapped(c, s0, s, i, globalIdx) && ParitySwapped(c, s0, s, i)
    && (s.useGlobal ==> SomeGlobal(c, s.parity)) && DataNeeded(c, s.help, s.parity)
  }

  lemma SwapStarts(c: Lrc, f: seq<nat>, s1: Picks, s: Picks, used: nat)
    requires AzureOk(c) && Stage(c, f, s1, false, c.l, used) && Tidy(c, f, s1, false, c.l)
    requires WithFailed(c, f, s1, s, BlockNum(c)) && FailedIn(c, f, s1, s, BlockNum(c))
    ensures Swapped(c, f, s, s, 0, c.k)
  {
    hide Stage, DataFailures, AllJustified, Helps, HelpLive;
  }

  /** The scan has passed a global parity that is lost or taken. */
  lemma SwapPasses(c: Lrc, f: seq<nat>, s0: Picks, s: Picks, i: nat, globalIdx: nat)
    requires LrcOk(c) && Swapped(c, f, s0, s, i, globalIdx) && globalIdx < c.k + c.g && (globalIdx in f || s.help[globalIdx])
    ensures Swapped(c, f, s0, s, i, globalIdx + 1)
  {
    hide DataNeeded;
  }

  lemma SwapTakes(c: Lrc, f: seq<nat>, s0: Picks, s: Picks, i: nat, x: nat)
    requires AzureOk(c) && Swapped(c, f, s0, s, i, x) && i < c.l && s.help[c.k + c.g + i]
    requires c.k <= x < c.k + c.g && x !in f && !s.help[x]
    ensures var s' := Picks(s.help[x := true][c.k + c.g + i := false], s.parity + [x], s.globalIdx, true); var next := i + 1;
            Swapped(c, f, s0, s', next, x)
  {
    hide Helps, GlobalsSwapped, LocalsSwapped, ParitySwapped;
    var s' := Picks(s.help[x := true][c.k + c.g + i := false], s.parity + [x], s.globalIdx, true);
    assert x in s'.parity && forall p :: p in s'.parity <==> p in s.parity || p == x;
    forall y: nat | y < c.k && s'.help[y]
      ensures Helps(c, y, s'.parity)
    {
      ServesMore(c, y, s.parity, s'.parity);
    }
    TakeGlobalIn(c, f, s0, s, s', i, x);
    DropLocal(c, s0, s, s', i, x);
    ParityPut(c, s0, s, s', i, x);
    assert SomeGlobal(c, s'.parity);
  }

  lemma TakeGlobalIn(c: Lrc, f: seq<nat>, s0: Picks, s: Picks, s': Picks, i: nat, x: nat)
    requires |s0.help| == |s.help| == BlockNum(c) && GlobalsSwapped(c, f, s0, s, x) && i < c.l
    requires c.k <= x < c.k + c.g && x !in f && !s.help[x] && s'.help == s.help[x := true][c.k + c.g + i := false]
    requires forall p :: p in s'.parity <==> p in s.parity || p == x
    ensures GlobalsSwapped(c, f, s0, s', x)
  {
  }

  lemma DropLocal(c: Lrc, s0: Picks, s: Picks, s': Picks, i: nat, x: nat)
    requires |s0.help| == |s.help| == BlockNum(c) && i < c.l && LocalsSwapped(c, s0, s, i, x) && s.help[c.k + c.g + i]
    requires c.k <= x < c.k + c.g && s'.help == s.help[x := true][c.k + c.g + i := false]
    requires forall p :: p in s'.parity <==> p in s.parity || p == x
    ensures var next := i + 1; LocalsSwapped(c, s0, s', next, x)
  {
  }

  lemma ParityPut(c: Lrc, s0: Picks, s: Picks, s': Picks, i: nat, x: nat)
    requires |s.help| == BlockNum(c) && i < c.l && ParitySwapped(c, s0, s, i)
    requires c.k <= x < c.k + c.g && s'.help == s.help[x := true][c.k + c.g + i := false]
    requires forall p :: p in s'.parity <==> p in s.parity || p == x
    ensures var next := i + 1; ParitySwapped(c, s0, s', next)
  {
  }

  lemma SwapKeeps(c: Lrc, f: seq<nat>, s0: Picks, s: Picks, i: nat, help: seq<bool>)
    requires AzureOk(c) && Swapped(c, f, s0, s, i, c.k + c.g) && i < c.l && s.help[c.k + c.g + i]
    requires |help| == BlockNum(c)
    requires forall x :: 0 <= x < |help| ==> (help[x] <==> s.help[x] || (x in LocalGroup(c, i) && x !in f))
    ensures var s' := Picks(help, s.parity + [c.k + c.g + i], s.globalIdx, s.useGlobal); var next := i + 1;
            Swapped(c, f, s0, s', next, c.k + c.g)
  {
    hide LocalGroup, Helps, GroupLo, GlobalsSwapped, LocalsSwapped, ParitySwapped;
    var s' := Picks(help, s.parity + [c.k + c.g + i], s.globalIdx, s.useGlobal);
    assert forall p :: p in s'.parity <==> p in s.parity || p == c.k + c.g + i;
    forall x: nat | x < c.k && help[x]
      ensures Helps(c, x, s'.parity)
    {
      if s.help[x] {
        ServesMore(c, x, s.parity, s'.parity);
      } else {
        GroupServes(c, i, x, s'.parity);
      }
    }
    InLocalGroup(c, i);
    KeepLocalIn(c, f, s0, s, s', i);
    if s.useGlobal {
      var q :| q in s.parity && c.k <= q < c.k + c.g;
      assert q in s'.parity;
    }
  }

  lemma KeepLocalIn(c: Lrc, f: seq<nat>, s0: Picks, s: Picks, s': Picks, i: nat)
    requires |s0.help| == |s.help| == |s'.help| == BlockNum(c) && i < c.l && s.help[c.k + c.g + i]
    requires GlobalsSwapped(c, f, s0, s, c.k + c.g) && LocalsSwapped(c, s0, s, i, c.k + c.g) && ParitySwapped(c, s0, s, i)
    requires forall x :: c.k <= x < BlockNum(c) ==> s'.help[x] == s.help[x]
    requires forall p :: p in s'.parity <==> p in s.parity || p == c.k + c.g + i
    ensures GlobalsSwapped(c, f, s0, s', c.k + c.g)
    ensures var next := i + 1; LocalsSwapped(c, s0, s', next, c.k + c.g) && ParitySwapped(c, s0, s', next)
  {
  }

  lemma SwapSkips(c: Lrc, f: seq<nat>, s0: Picks, s: Picks, i: nat, globalIdx: nat)
    requires LrcOk(c) && Swapped(c, f, s0, s, i, globalIdx) && i < c.l && !s.help[c.k + c.g + i]
    ensures var next := i + 1; Swapped(c, f, s0, s, next, globalIdx)
  {
    hide DataNeeded;
  }

  /** The choice with global priority. */
  lemma GlobalChosen(c: Lrc, f: seq<nat>, s1: Picks, s2: Picks, s: Picks, used: nat, globalIdx: nat)
    requires AzureOk(c) && FailuresOk(c, f) && Stage(c, f, s1, false, c.l, used) && Tidy(c, f, s1, false, c.l)
    requires WithFailed(c, f, s1, s2, BlockNum(c)) && FailedIn(c, f, s1, s2, BlockNum(c))
    requires Swapped(c, f, s2, s, c.l, globalIdx)
    ensures EquationsChosen(c, f, s.parity, true)
    ensures forall x :: c.k <= x < BlockNum(c) && s.help[x] ==> x in s.parity
  {
    hide Stage, DataNeeded, DataFailures, AllJustified, TotalNeed, HelpLive, EquationsChosen;
    ParityMembers(c, f, s1, false, used);
    BelowOnly(c, f, s1, used);
    AfterFailed(c, f, s1, s2);
    SwapEnds(c, f, s2, s, globalIdx);
  }

  /** Before the swap the taken local parities help, and have no equation. */
  ghost predicate ReadyToSwap(c: Lrc, f: seq<nat>, s: Picks)
    requires LrcOk(c)
  {
    && |s.help| == BlockNum(c) && (forall x :: c.k + c.g <= x < BlockNum(c) ==> (s.help[x] <==> OwnTaken(c, f, x)))
    && (forall p :: p in f && p >= c.k ==> p in s.parity) && (forall p :: p in s.parity ==> p in f || c.k <= p < c.k + c.g)
    && (forall q :: c.k <= q < c.k + c.g && q in s.parity && q !in f ==> s.help[q])
  }

  lemma AfterFailed(c: Lrc, f: seq<nat>, s1: Picks, s2: Picks)
    requires AzureOk(c) && FailuresOk(c, f) && Tidy(c, f, s1, false, c.l)
    requires WithFailed(c, f, s1, s2, BlockNum(c)) && FailedIn(c, f, s1, s2, BlockNum(c))
    requires forall p :: p in s1.parity ==> c.k <= p < c.k + c.g && p < |s1.help| && s1.help[p]
    ensures ReadyToSwap(c, f, s2)
  {
    hide DataNeeded, DataFailures, AllJustified, HelpLive;
    forall p | p in f
      ensures p < BlockNum(c)
    {
    }
  }

  lemma SwapEnds(c: Lrc, f: seq<nat>, s2: Picks, s: Picks, globalIdx: nat)
    requires AzureOk(c) && FailuresOk(c, f) && ReadyToSwap(c, f, s2) && Swapped(c, f, s2, s, c.l, globalIdx)
    ensures EquationsChosen(c, f, s.parity, true)
    ensures forall x :: c.k <= x < BlockNum(c) && s.help[x] ==> x in s.parity
  {
    hide DataNeeded, DataFailures;
    forall x: nat, y: nat | OwnTaken(c, f, x) && x in s.parity && x < y && OwnTaken(c, f, y)
      ensures y in s.parity
    {
      assert x !in s2.parity && s.help[x] && s2.help[y];
    }
    SwapGlobals(c, f, s2, s, globalIdx);
    forall x: nat | OwnTaken(c, f, x) && x in s.parity
      ensures LiveGlobalsIn(c, f, s.parity)
    {
      assert x !in s2.parity && s.help[x];
    }
  }

  lemma SwapGlobals(c: Lrc, f: seq<nat>, s2: Picks, s: Picks, globalIdx: nat)
    requires AzureOk(c) && ReadyToSwap(c, f, s2) && Swapped(c, f, s2, s, c.l, globalIdx)
    ensures GlobalsInOrder(c, f, s.parity)
  {
    hide DataNeeded, DataFailures, OwnTaken;
  }

  lemma BelowOnly(c: Lrc, f: seq<nat>, s: Picks, used: nat)
    requires AzureOk(c) && Stage(c, f, s, false, c.l, used)
    ensures forall p :: p in s.parity ==> p < c.k + c.g
  {
  }

  // The helpers.

  ghost predicate HelpersNeeded(c: Lrc, help: seq<bool>, parity: seq<nat>)
    requires LrcOk(c)
  {
    |help| == BlockNum(c) && forall x :: 0 <= x < BlockNum(c) && help[x] ==> Helps(c, x, parity)
  }

  /** All helpers are needed, also when all live data helps because some equation is global. */
  lemma AllNeeded(c: Lrc, help0: seq<bool>, help: seq<bool>, parity: seq<nat>, useGlobal: bool)
    requires AzureOk(c) && |help0| == |help| == BlockNum(c) && DataNeeded(c, help0, parity)
    requires (useGlobal ==> SomeGlobal(c, parity)) && forall x :: c.k <= x < BlockNum(c) && help0[x] ==> x in parity
    requires forall x :: 0 <= x < BlockNum(c) && help[x] ==> help0[x] || (x < c.k && useGlobal)
    ensures HelpersNeeded(c, help, parity)
  {
    forall x: nat | x < BlockNum(c) && help[x]
      ensures Helps(c, x, parity)
    {
      if x >= c.k {
        assert Feeds(c, x, x);
      } else if !help0[x] {
        var q :| q in parity && c.k <= q < c.k + c.g;
        assert Feeds(c, x, q);
      }
    }
  }
}

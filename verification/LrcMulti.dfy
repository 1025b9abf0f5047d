/**
 Choosing parity equations for several failures of Azure's code at once. Data failures take the local
 parity of their group and then global parities, in order; failed parities bring their own equation.
 */
module LrcMulti {
  import opened Listing
  import opened LrcShape
  import opened LrcDecodable

  /** The helpers and parity equations picked so far; the scan over the global parities has reached globalIdx. */
  datatype Picks = Picks(help: seq<bool>, parity: seq<nat>, globalIdx: nat, useGlobal: bool)

  /** fmap marks exactly the failures. */
  ghost predicate MapOf(c: Lrc, f: seq<nat>, fmap: seq<bool>) {
    |fmap| == BlockNum(c) && forall x :: 0 <= x < BlockNum(c) ==> (fmap[x] <==> x in f)
  }

  /** Helpers are live. */
  ghost predicate HelpLive(f: seq<nat>, help: seq<bool>) {
    forall x :: 0 <= x < |help| && help[x] ==> x !in f
  }

  /** Every data block of group i is lost or a helper. */
  ghost predicate GroupLive(c: Lrc, f: seq<nat>, help: seq<bool>, i: nat)
    requires AzureOk(c) && |help| == BlockNum(c)
  {
    forall x :: GroupLo(c, i) <= x < GroupLo(c, i + 1) && x < c.k ==> x in f || help[x]
  }

  /** What an equation needs: its own parity, and a place for the data blocks it involves. */
  ghost predicate Justified(c: Lrc, f: seq<nat>, help: seq<bool>, useGlobal: bool, p: nat)
    requires AzureOk(c) && |help| == BlockNum(c)
  {
    && c.k <= p < BlockNum(c) && (help[p] || p in f) && (p < c.k + c.g ==> useGlobal)
    && (p >= c.k + c.g ==> GroupLive(c, f, help, p - c.k - c.g))
  }

  ghost predicate AllJustified(c: Lrc, f: seq<nat>, help: seq<bool>, useGlobal: bool, parity: seq<nat>)
    requires AzureOk(c) && |help| == BlockNum(c)
  {
    NoRepeats(parity) && forall i :: 0 <= i < |parity| ==> Justified(c, f, help, useGlobal, parity[i])
  }

  ghost predicate AllHelped(help: seq<bool>, parity: seq<nat>) {
    forall i :: 0 <= i < |parity| ==> parity[i] < |help| && help[parity[i]]
  }

  ghost predicate AllBelow(parity: seq<nat>, n: nat) { forall i :: 0 <= i < |parity| ==> parity[i] < n }

  ghost predicate NoHelpIn(help: seq<bool>, lo: nat, hi: nat) {
    hi <= |help| && forall x :: lo <= x < hi ==> !help[x]
  }

  /** How many helpers there are with ids from lo to hi. */
  function HelpedIn(help: seq<bool>, lo: nat, hi: nat): nat
    requires hi <= |help|
  {
    if hi <= lo then 0 else HelpedIn(help, lo, hi - 1) + (if help[hi - 1] then 1 else 0)
  }

  lemma {:induction false} HelpedSame(help: seq<bool>, help': seq<bool>, lo: nat, hi: nat)
    requires hi <= |help| == |help'| && forall x :: lo <= x < hi ==> help[x] == help'[x]
    ensures HelpedIn(help, lo, hi) == HelpedIn(help', lo, hi)
  {
    if lo < hi {
      HelpedSame(help, help', lo, hi - 1);
    }
  }

  /** More helpers among the data, and no fewer elsewhere, keep an equation justified. */
  lemma JustifiedKept(c: Lrc, f: seq<nat>, help: seq<bool>, help': seq<bool>, g: bool, g': bool, parity: seq<nat>)
    requires AzureOk(c) && |help| == |help'| == BlockNum(c) && AllJustified(c, f, help, g, parity) && (g ==> g')
    requires forall x :: 0 <= x < c.k && help[x] ==> help'[x]
    requires forall x :: c.k <= x < BlockNum(c) && help[x] && x in parity ==> help'[x]
    ensures AllJustified(c, f, help', g', parity)
  {
    hide GroupLo;
    forall i | 0 <= i < |parity|
      ensures Justified(c, f, help', g', parity[i])
    {
      assert Justified(c, f, help, g, parity[i]) && parity[i] in parity;
    }
  }

  lemma JustifiedMore(c: Lrc, f: seq<nat>, help: seq<bool>, g: bool, parity: seq<nat>, p: nat)
    requires AzureOk(c) && |help| == BlockNum(c) && AllJustified(c, f, help, g, parity)
    requires p !in parity && Justified(c, f, help, g, p)
    ensures AllJustified(c, f, help, g, parity + [p])
  {
    hide Justified;
    NoRepeatsConcat(parity, [p]);
  }

  // Data failures.

  /**
   After i groups: `used` global parities have been taken, exactly what the groups could not absorb, and
   the scan has left all the live global parities that were not taken.
   */
  ghost predicate Stage(c: Lrc, f: seq<nat>, s: Picks, pushLocal: bool, i: nat, used: nat)
    requires AzureOk(c)
  {
    && |s.help| == BlockNum(c) && c.k <= s.globalIdx <= c.k + c.g && i <= c.l
    && HelpLive(f, s.help) && AllJustified(c, f, s.help, s.useGlobal, s.parity) && AllHelped(s.help, s.parity)
    && NoHelpIn(s.help, s.globalIdx, c.k + c.g) && NoHelpIn(s.help, c.k + c.g + i, BlockNum(c))
    && (!pushLocal ==> AllBelow(s.parity, c.k + c.g))
    && Counts(c, f, s, pushLocal, i, used) && ScanCounts(c, f, s.globalIdx, used)
    && used == TotalNeed(c, f, i)
  }

  /** Each data failure so far has taken a local or a global parity. */
  ghost predicate Counts(c: Lrc, f: seq<nat>, s: Picks, pushLocal: bool, i: nat, used: nat)
    requires AzureOk(c) && |s.help| == BlockNum(c) && i <= c.l
  {
    var locals := HelpedIn(s.help, c.k + c.g, c.k + c.g + i);
    |s.parity| == used + (if pushLocal then locals else 0) && used + locals == CountIn(f, 0, GroupLo(c, i))
  }

  ghost predicate ScanCounts(c: Lrc, f: seq<nat>, globalIdx: nat, used: nat)
    requires AzureOk(c)
  {
    used + (c.k + c.g - globalIdx) - CountIn(f, globalIdx, c.k + c.g) == c.g - GlobalFailures(c, f)
  }

  /** One global parity looked at. */
  lemma ScanStep(c: Lrc, f: seq<nat>, x: nat, used: nat)
    requires AzureOk(c) && NoRepeats(f) && c.k <= x < c.k + c.g && ScanCounts(c, f, x, used)
    ensures var next := x + 1; x in f ==> ScanCounts(c, f, next, used)
    ensures var next := x + 1; x !in f ==> ScanCounts(c, f, next, used + 1)
  {
    CountSplit(f, x, x + 1, c.k + c.g);
    CountOne(f, x);
  }

  /** At the end of the scan every live global parity has been taken. */
  lemma ScanEnd(c: Lrc, f: seq<nat>, used: nat)
    requires AzureOk(c) && ScanCounts(c, f, c.k + c.g, used)
    ensures used == c.g - GlobalFailures(c, f)
  {
    CountWhole(f, c.k + c.g, c.k + c.g);
  }

  lemma ScanWithin(c: Lrc, f: seq<nat>, x: nat, used: nat)
    requires AzureOk(c) && NoRepeats(f) && c.k <= x <= c.k + c.g && ScanCounts(c, f, x, used)
    ensures used <= c.g - GlobalFailures(c, f)
  {
    CountAtMost(f, x, c.k + c.g);
  }

  /** Only global parities have been added since. */
  ghost predicate GlobalsAdded(c: Lrc, s0: Picks, s: Picks, n: nat) {
    && |s0.help| == |s.help| == BlockNum(c) && |s.parity| == |s0.parity| + n
    && (forall x :: 0 <= x < BlockNum(c) && !(c.k <= x < c.k + c.g) ==> s.help[x] == s0.help[x])
    && (forall x :: 0 <= x < BlockNum(c) && s0.help[x] ==> s.help[x])
    && s.parity[..|s0.parity|] == s0.parity && forall i :: |s0.parity| <= i < |s.parity| ==> c.k <= s.parity[i] < c.k + c.g
  }

  /** One live global parity becomes a helper with its equation. */
  lemma TakeGlobal(c: Lrc, f: seq<nat>, s0: Picks, s: Picks, n: nat, x: nat)
    requires AzureOk(c) && c.k <= x < c.k + c.g && x !in f && GlobalsAdded(c, s0, s, n) && !s.help[x]
    requires HelpLive(f, s.help) && AllHelped(s.help, s.parity) && NoRepeats(s.parity)
    ensures var s' := s.(help := s.help[x := true], parity := s.parity + [x], useGlobal := true); var next := n + 1;
            && GlobalsAdded(c, s0, s', next) && HelpLive(f, s'.help) && AllHelped(s'.help, s'.parity) && NoRepeats(s'.parity)
  {
    assert x !in s.parity;
    NoRepeatsConcat(s.parity, [x]);
    assert (s.parity + [x])[..|s0.parity|] == s.parity[..|s0.parity|];
  }

  /** Some equation is a global one. */
  ghost predicate SomeGlobal(c: Lrc, parity: seq<nat>) { exists q :: q in parity && c.k <= q < c.k + c.g }

  /** A scan has taken every live global parity it has passed, each with its equation, and nothing else. */
  ghost predicate Scanned(c: Lrc, f: seq<nat>, s0: Picks, s: Picks) {
    && |s0.help| == |s.help| == BlockNum(c) && c.k <= s0.globalIdx <= s.globalIdx <= c.k + c.g
    && (forall x :: 0 <= x < BlockNum(c) && !(s0.globalIdx <= x < s.globalIdx) ==> s.help[x] == s0.help[x])
    && (forall q :: s0.globalIdx <= q < s.globalIdx ==> (s.help[q] <==> q !in f))
    && (forall q :: s0.globalIdx <= q < s.globalIdx && s.help[q] ==> q in s.parity)
    && (forall p :: p in s0.parity ==> p in s.parity) && (forall p :: p in s.parity ==> p in s0.parity || c.k <= p < c.k + c.g)
    && (s.useGlobal ==> s0.useGlobal || SomeGlobal(c, s.parity))
  }

  lemma ScanBegins(c: Lrc, f: seq<nat>, s: Picks)
    requires |s.help| == BlockNum(c) && c.k <= s.globalIdx <= c.k + c.g
    ensures Scanned(c, f, s, s)
  {
  }

  lemma ScanTakes(c: Lrc, f: seq<nat>, s0: Picks, s: Picks)
    requires Scanned(c, f, s0, s) && s.globalIdx < c.k + c.g && s.globalIdx !in f
    ensures var x := s.globalIdx;
            x < |s.help| && Scanned(c, f, s0, s.(help := s.help[x := true], parity := s.parity + [x], useGlobal := true, globalIdx := x + 1))
  {
    var x := s.globalIdx;
    var parity' := s.parity + [x];
    assert forall p :: p in parity' <==> p in s.parity || p == x;
    assert x in parity';
    assert SomeGlobal(c, parity');
  }

  lemma ScanPasses(c: Lrc, f: seq<nat>, s0: Picks, s: Picks)
    requires Scanned(c, f, s0, s) && s.globalIdx < c.k + c.g && s.globalIdx in f && NoHelpIn(s.help, s.globalIdx, c.k + c.g)
    ensures Scanned(c, f, s0, s.(globalIdx := s.globalIdx + 1))
  {
  }

  /** Takes live global parities, in order, until the failures are provided for or the scan ends. */
  method TakeGlobals(c: Lrc, fmap: seq<bool>, s0: Picks, fd0: nat, ghost f: seq<nat>, ghost used0: nat)
      returns (s: Picks, fd: nat, ghost used: nat)
    requires AzureOk(c) && FailuresOk(c, f) && MapOf(c, f, fmap) && |s0.help| == BlockNum(c)
    requires c.k <= s0.globalIdx <= c.k + c.g && NoHelpIn(s0.help, s0.globalIdx, c.k + c.g)
    requires HelpLive(f, s0.help) && AllHelped(s0.help, s0.parity) && NoRepeats(s0.parity)
    requires ScanCounts(c, f, s0.globalIdx, used0)
    ensures fd <= fd0 && used == used0 + (fd0 - fd) && GlobalsAdded(c, s0, s, fd0 - fd)
    ensures c.k <= s.globalIdx <= c.k + c.g && NoHelpIn(s.help, s.globalIdx, c.k + c.g)
    ensures HelpLive(f, s.help) && AllHelped(s.help, s.parity) && NoRepeats(s.parity)
    ensures ScanCounts(c, f, s.globalIdx, used) && (fd > 0 ==> s.globalIdx == c.k + c.g)
    ensures (s0.useGlobal ==> s.useGlobal) && (fd < fd0 ==> s.useGlobal) && Scanned(c, f, s0, s)
  {
    hide AzureOk, ScanCounts, NoRepeats, AllHelped, HelpLive, GlobalsAdded, Scanned;
    s, fd, used := s0, fd0, used0;
    NothingAdded(c, s0);
    ScanBegins(c, f, s0);
    while fd > 0 && s.globalIdx < c.k + c.g
      invariant fd <= fd0 && used == used0 + (fd0 - fd) && GlobalsAdded(c, s0, s, fd0 - fd)
      invariant c.k <= s.globalIdx <= c.k + c.g && |s.help| == BlockNum(c) && NoHelpIn(s.help, s.globalIdx, c.k + c.g)
      invariant HelpLive(f, s.help) && AllHelped(s.help, s.parity) && NoRepeats(s.parity)
      invariant ScanCounts(c, f, s.globalIdx, used)
      invariant (s0.useGlobal ==> s.useGlobal) && (fd < fd0 ==> s.useGlobal) && Scanned(c, f, s0, s)
      decreases c.k + c.g - s.globalIdx
    {
      ScanStep(c, f, s.globalIdx, used);
      if !fmap[s.globalIdx] && !s.help[s.globalIdx] {
        TakeGlobal(c, f, s0, s, fd0 - fd, s.globalIdx);
        ScanTakes(c, f, s0, s);
        s := s.(help := s.help[s.globalIdx := true], parity := s.parity + [s.globalIdx], useGlobal := true);
        fd := fd - 1;
        used := used + 1;
      } else {
        ScanPasses(c, f, s0, s);
      }
      s := Advanced(c, s0, s, fd0 - fd);
    }
  }

  /** The scan moves on; nothing else changes. */
  function Advanced(c: Lrc, ghost s0: Picks, s: Picks, ghost n: nat): (s': Picks)
    requires GlobalsAdded(c, s0, s, n)
    ensures s' == s.(globalIdx := s.globalIdx + 1) && GlobalsAdded(c, s0, s', n)
  {
    s.(globalIdx := s.globalIdx + 1)
  }

  lemma NothingAdded(c: Lrc, s: Picks)
    requires |s.help| == BlockNum(c)
    ensures GlobalsAdded(c, s, s, 0)
  {
  }

  /** Makes the live members of a group helpers. */
  method MarkGroup(fmap: seq<bool>, group: seq<nat>, help0: seq<bool>) returns (help: seq<bool>)
    requires |fmap| == |help0| && forall j :: 0 <= j < |group| ==> group[j] < |help0|
    ensures |help| == |help0|
    ensures forall x :: 0 <= x < |help| ==> (help[x] <==> help0[x] || (x in group && !fmap[x]))
  {
    help := help0;
    for j := 0 to |group|
      invariant |help| == |help0|
      invariant forall x :: 0 <= x < |help| ==> (help[x] <==> help0[x] || (x in group[..j] && !fmap[x]))
    {
      assert group[..j + 1] == group[..j] + [group[j]];
      if !fmap[group[j]] && !help[group[j]] {
        help := help[group[j] := true];
      }
    }
    assert group[..|group|] == group;
  }

  /** The group's own parity, when it is live and there is a data failure for it. */
  ghost predicate TakesLocal(c: Lrc, f: seq<nat>, i: nat)
    requires AzureOk(c)
  {
    LocalFailures(c, f, i) == 0
  }

  /** What one data failure less, if the local parity takes it, leaves for the global parities. */
  lemma NeedAfterLocal(c: Lrc, f: seq<nat>, i: nat)
    requires AzureOk(c) && NoRepeats(f) && DataFailures(c, f, i) > 0
    ensures LocalFailures(c, f, i) == (if c.k + c.g + i in f then 1 else 0)
    ensures Need(c, f, i) == DataFailures(c, f, i) - (if TakesLocal(c, f, i) then 1 else 0)
  {
    CountOne(f, c.k + c.g + i);
  }

  /** The picks once the local parity has been considered. */
  function WithLocal(c: Lrc, s: Picks, i: nat, take: bool, pushLocal: bool): (s': Picks)
    requires c.k + c.g + i < |s.help|
    ensures |s'.help| == |s.help| && s'.globalIdx == s.globalIdx && s'.useGlobal == s.useGlobal
  {
    if !take then s
    else s.(help := s.help[c.k + c.g + i := true], parity := if pushLocal then s.parity + [c.k + c.g + i] else s.parity)
  }

  lemma LocalTaken(c: Lrc, f: seq<nat>, s: Picks, pushLocal: bool, i: nat, used: nat)
    requires AzureOk(c) && Stage(c, f, s, pushLocal, i, used) && i < c.l && c.k + c.g + i !in f
    ensures var s' := WithLocal(c, s, i, true, pushLocal);
            && NoHelpIn(s'.help, s'.globalIdx, c.k + c.g) && HelpLive(f, s'.help)
            && AllHelped(s'.help, s'.parity) && NoRepeats(s'.parity)
  {
    if pushLocal {
      assert c.k + c.g + i !in s.parity;
      NoRepeatsConcat(s.parity, [c.k + c.g + i]);
    }
  }

  /** After the group's failures are provided for: what group i may have changed. */
  ghost predicate GroupServed(c: Lrc, f: seq<nat>, s0: Picks, s: Picks, pushLocal: bool, i: nat, used0: nat, used: nat)
    requires AzureOk(c) && i < c.l && |s0.help| == BlockNum(c)
  {
    var take, x := c.k + c.g + i !in f, c.k + c.g + i;
    && |s.help| == BlockNum(c) && c.k <= s.globalIdx <= c.k + c.g && used == used0 + Need(c, f, i)
    && (s0.useGlobal ==> s.useGlobal) && (Need(c, f, i) > 0 ==> s.useGlobal)
    && HelpLive(f, s.help) && AllHelped(s.help, s.parity) && NoRepeats(s.parity)
    && NoHelpIn(s.help, s.globalIdx, c.k + c.g) && ScanCounts(c, f, s.globalIdx, used)
    && (forall y :: 0 <= y < BlockNum(c) && s0.help[y] ==> s.help[y])
    && (forall y :: c.k + c.g <= y < BlockNum(c) && y != x ==> s.help[y] == s0.help[y]) && s.help[x] == take
    && (pushLocal && take ==> GroupLive(c, f, s.help, i))
    && AddedFor(c, s0.parity, s.parity, pushLocal && take, i, Need(c, f, i))
  }

  /** The equations added for group i: its local one, if it is pushed, and n global ones. */
  ghost predicate AddedFor(c: Lrc, before: seq<nat>, after: seq<nat>, local: bool, i: nat, n: nat) {
    var own := if local then [c.k + c.g + i] else [];
    && |after| == |before| + |own| + n && after[..|before| + |own|] == before + own
    && forall j :: |before| + |own| <= j < |after| ==> c.k <= after[j] < c.k + c.g
  }

  lemma ServedJustified(c: Lrc, f: seq<nat>, s0: Picks, s: Picks, pushLocal: bool, i: nat, used0: nat, used: nat)
    requires AzureOk(c) && i < c.l && Stage(c, f, s0, pushLocal, i, used0)
    requires GroupServed(c, f, s0, s, pushLocal, i, used0, used)
    ensures AllJustified(c, f, s.help, s.useGlobal, s.parity)
  {
    hide GroupLive, HelpLive, NoHelpIn, ScanCounts, Counts, TotalNeed, Need;
    var n0 := |s0.parity|;
    var own := if pushLocal && c.k + c.g + i !in f then [c.k + c.g + i] else [];
    assert forall j :: 0 <= j < n0 + |own| ==> s.parity[j] == s.parity[..n0 + |own|][j];
    forall j | 0 <= j < |s.parity|
      ensures Justified(c, f, s.help, s.useGlobal, s.parity[j])
    {
      if j < n0 {
        assert s.parity[j] == s0.parity[j];
        assert Justified(c, f, s0.help, s0.useGlobal, s0.parity[j]);
        GroupLiveGrows(c, f, s0.help, s.help, s.parity[j]);
      }
    }
  }

  lemma GroupLiveGrows(c: Lrc, f: seq<nat>, help: seq<bool>, help': seq<bool>, p: nat)
    requires AzureOk(c) && |help| == |help'| == BlockNum(c) && forall y :: 0 <= y < BlockNum(c) && help[y] ==> help'[y]
    ensures p >= c.k + c.g && GroupLive(c, f, help, p - c.k - c.g) ==> GroupLive(c, f, help', p - c.k - c.g)
  {
    hide GroupLo;
  }

  lemma ServedCounts(c: Lrc, f: seq<nat>, s0: Picks, s: Picks, pushLocal: bool, i: nat, used0: nat, used: nat)
    requires AzureOk(c) && FailuresOk(c, f) && i < c.l && Stage(c, f, s0, pushLocal, i, used0) && DataFailures(c, f, i) > 0
    requires GroupServed(c, f, s0, s, pushLocal, i, used0, used)
    ensures var next := i + 1; Counts(c, f, s, pushLocal, next, used) && used == TotalNeed(c, f, next)
  {
    hide GroupLo, GroupLive, HelpLive, NoHelpIn, ScanCounts, AllJustified, AllHelped, Need;
    NeedAfterLocal(c, f, i);
    GroupLoGrows(c, i);
    CountSplit(f, 0, GroupLo(c, i), GroupLo(c, i + 1));
    HelpedSame(s0.help, s.help, c.k + c.g, c.k + c.g + i);
  }

  lemma ServedRest(c: Lrc, f: seq<nat>, s0: Picks, s: Picks, pushLocal: bool, i: nat, used0: nat, used: nat)
    requires AzureOk(c) && i < c.l && Stage(c, f, s0, pushLocal, i, used0)
    requires GroupServed(c, f, s0, s, pushLocal, i, used0, used)
    ensures NoHelpIn(s.help, c.k + c.g + (i + 1), BlockNum(c)) && (!pushLocal ==> AllBelow(s.parity, c.k + c.g))
  {
    hide GroupLo, GroupLive, HelpLive, ScanCounts, AllJustified, AllHelped, Need, Counts;
    if !pushLocal {
      assert forall j :: 0 <= j < |s0.parity| ==> s.parity[j] == s.parity[..|s0.parity|][j] == s0.parity[j];
    }
  }

  /** The stage moves on to the next group. */
  lemma StageMoves(c: Lrc, f: seq<nat>, s0: Picks, s: Picks, pushLocal: bool, i: nat, used0: nat, used: nat)
    requires AzureOk(c) && FailuresOk(c, f) && i < c.l && Stage(c, f, s0, pushLocal, i, used0) && DataFailures(c, f, i) > 0
    requires GroupServed(c, f, s0, s, pushLocal, i, used0, used)
    ensures var next := i + 1; Stage(c, f, s, pushLocal, next, used)
  {
    hide AllJustified, Counts, NoHelpIn, HelpLive, AllHelped, ScanCounts, TotalNeed, Need, GroupLive, AddedFor, AllBelow;
    ServedJustified(c, f, s0, s, pushLocal, i, used0, used);
    ServedCounts(c, f, s0, s, pushLocal, i, used0, used);
    ServedRest(c, f, s0, s, pushLocal, i, used0, used);
  }

  /** A group without data failures changes nothing. */
  lemma StageSkips(c: Lrc, f: seq<nat>, s: Picks, pushLocal: bool, i: nat, used: nat)
    requires AzureOk(c) && i < c.l && Stage(c, f, s, pushLocal, i, used) && DataFailures(c, f, i) == 0
    ensures var next := i + 1; Stage(c, f, s, pushLocal, next, used)
  {
    hide GroupLo, AllJustified, HelpLive, AllHelped, ScanCounts, AllBelow;
    GroupLoGrows(c, i);
    CountSplit(f, 0, GroupLo(c, i), GroupLo(c, i + 1));
  }
}

/**
 The decodability test of Azure's code. Each local group can absorb one data failure while its parity is
 alive; every other data failure takes a global parity of its own.
 */
module LrcDecodable {
  import opened Listing
  import opened LrcShape

  // Counting failures by ranges of block ids.

  function CountIn(s: seq<nat>, lo: int, hi: int): nat {
    if s == [] then 0 else CountIn(s[..|s| - 1], lo, hi) + (if lo <= s[|s| - 1] < hi then 1 else 0)
  }

  lemma {:induction false} CountSplit(s: seq<nat>, a: int, b: int, d: int)
    requires a <= b <= d
    ensures CountIn(s, a, d) == CountIn(s, a, b) + CountIn(s, b, d)
  {
    if s != [] {
      CountSplit(s[..|s| - 1], a, b, d);
    }
  }

  lemma {:induction false} CountConcat(s: seq<nat>, t: seq<nat>, lo: int, hi: int)
    ensures CountIn(s + t, lo, hi) == CountIn(s, lo, hi) + CountIn(t, lo, hi)
  {
    if t == [] {
      assert s + t == s;
    } else {
      CountConcat(s, t[..|t| - 1], lo, hi);
      assert (s + t)[..|s + t| - 1] == s + t[..|t| - 1];
    }
  }

  lemma {:induction false} CountWhole(s: seq<nat>, lo: int, hi: int)
    ensures (forall i :: 0 <= i < |s| ==> lo <= s[i] < hi) ==> CountIn(s, lo, hi) == |s|
    ensures (forall i :: 0 <= i < |s| ==> !(lo <= s[i] < hi)) <==> CountIn(s, lo, hi) == 0
    ensures CountIn(s, lo, hi) <= |s|
  {
    if s != [] {
      CountWhole(s[..|s| - 1], lo, hi);
    }
  }

  lemma {:induction false} CountOne(s: seq<nat>, x: nat)
    requires NoRepeats(s)
    ensures CountIn(s, x, x + 1) == if x in s then 1 else 0
  {
    if s != [] {
      NoRepeatsBefore(s, |s| - 1);
      CountOne(s[..|s| - 1], x);
    }
  }

  /** A range of ids holds no more failures than ids. */
  lemma {:induction false} CountAtMost(s: seq<nat>, lo: nat, hi: nat)
    requires NoRepeats(s) && lo <= hi
    ensures CountIn(s, lo, hi) <= hi - lo
  {
    if lo == hi {
      CountWhole(s, lo, hi);
    } else {
      CountAtMost(s, lo, hi - 1);
      CountOne(s, hi - 1);
      CountSplit(s, lo, hi - 1, hi);
    }
  }

  // Failures of Azure's code.

  predicate AzureOk(c: Lrc) { LrcOk(c) && c.kind.Azure? }

  lemma AzureFacts(c: Lrc)
    requires AzureOk(c)
    ensures LrcOk(c) && c.l >= 1 && BlockNum(c) == c.k + c.g + c.l
  {
  }

  ghost predicate FailuresOk(c: Lrc, s: seq<nat>) {
    NoRepeats(s) && forall i :: 0 <= i < |s| ==> s[i] < BlockNum(c)
  }

  /** The data blocks of group i are the ids from GroupLo(c, i) to GroupLo(c, i + 1). */
  function GroupLo(c: Lrc, i: nat): nat
    requires LrcOk(c)
  {
    Min(i * R(c), c.k)
  }

  lemma GroupLoGrows(c: Lrc, i: nat)
    requires AzureOk(c)
    ensures var next := i + 1; GroupLo(c, i) <= GroupLo(c, next) <= c.k
    ensures GroupLo(c, 0) == 0 && GroupLo(c, c.l) == c.k
  {
    assert (i + 1) * R(c) == i * R(c) + R(c);
    RBounds(c);
  }

  function DataFailures(c: Lrc, s: seq<nat>, i: nat): nat
    requires LrcOk(c)
  {
    CountIn(s, GroupLo(c, i), GroupLo(c, i + 1))
  }

  function LocalFailures(c: Lrc, s: seq<nat>, i: nat): nat {
    CountIn(s, c.k + c.g + i, c.k + c.g + i + 1)
  }

  function GlobalFailures(c: Lrc, s: seq<nat>): nat { CountIn(s, c.k, c.k + c.g) }

  /** The data failures of group i that its own parity cannot take care of. */
  function Need(c: Lrc, s: seq<nat>, i: nat): nat
    requires LrcOk(c)
  {
    var fd, alive := DataFailures(c, s, i), 1 - LocalFailures(c, s, i);
    if alive > 0 && alive <= fd then fd - alive else fd
  }

  function TotalNeed(c: Lrc, s: seq<nat>, n: nat): nat
    requires LrcOk(c)
  {
    if n == 0 then 0 else TotalNeed(c, s, n - 1) + Need(c, s, n - 1)
  }

  /** What is asked of the g global parities: the failed ones, and the data failures left over by the groups. */
  function Load(c: Lrc, s: seq<nat>): nat
    requires LrcOk(c)
  {
    TotalNeed(c, s, c.l) + GlobalFailures(c, s)
  }

  ghost predicate Decodable(c: Lrc, s: seq<nat>)
    requires LrcOk(c)
  {
    Load(c, s) <= c.g
  }

  lemma {:induction false} NeedGrows(c: Lrc, s: seq<nat>, i: nat, n: nat)
    requires LrcOk(c) && i <= n
    ensures TotalNeed(c, s, i) <= TotalNeed(c, s, n)
  {
    if i < n {
      NeedGrows(c, s, i, n - 1);
    }
  }

  /** A data block is counted in the group that division names, and in no other. */
  lemma GroupRange(c: Lrc, b: nat, i: nat)
    requires AzureOk(c) && b < c.k
    ensures b / R(c) < c.l
    ensures GroupLo(c, i) <= b < GroupLo(c, i + 1) <==> i == b / R(c)
  {
    GroupByDivision(c, b);
    assert (i + 1) * R(c) == i * R(c) + R(c);
  }

  /** The table from blocks to groups, filled group by group. */
  method GroupTable(c: Lrc) returns (b2g: map<nat, nat>)
    requires AzureOk(c)
    ensures forall b :: 0 <= b < c.k ==> b in b2g && b2g[b] == b / R(c) && b / R(c) < c.l
  {
    b2g := map[];
    var idx := 0;
    ghost var lo := 0;
    for i := 0 to c.l
      invariant lo == i * R(c) && idx == GroupLo(c, i)
      invariant forall b :: 0 <= b < idx ==> b in b2g && b2g[b] == b / R(c) && b / R(c) < c.l
      invariant forall b :: b in b2g ==> b < idx || c.k + c.g <= b
    {
      var groupSize := Min(R(c), c.k - i * R(c));
      var j := 0;
      while j < groupSize
        invariant 0 <= j <= (if groupSize >= 0 then groupSize else 0) && idx == GroupLo(c, i) + j
        invariant forall b :: 0 <= b < idx ==> b in b2g && b2g[b] == b / R(c) && b / R(c) < c.l
        invariant forall b :: b in b2g ==> b < idx || c.k + c.g <= b
      {
        GroupByDivision(c, idx);
        b2g := b2g[idx := i];
        idx := idx + 1;
        j := j + 1;
      }
      b2g := b2g[c.k + c.g + i := i];
      assert (i + 1) * R(c) == i * R(c) + R(c);
      lo := lo + R(c);
    }
    RBounds(c);
  }

  /** The counters after looking at the first n failures. */
  ghost predicate Tallied(c: Lrc, s: seq<nat>, fd: seq<int>, slp: seq<int>, sgp: int)
    requires LrcOk(c)
  {
    && |fd| == |slp| == c.l && sgp == c.g - GlobalFailures(c, s)
    && (forall i :: 0 <= i < c.l ==> fd[i] == DataFailures(c, s, i))
    && (forall i :: 0 <= i < c.l ==> slp[i] == 1 - LocalFailures(c, s, i))
  }

  /** One more failure adds one to the count of its kind and group, and to no other. */
  lemma CountsMore(c: Lrc, s: seq<nat>, x: nat, i: nat)
    requires AzureOk(c) && x < BlockNum(c)
    ensures DataFailures(c, s + [x], i) == DataFailures(c, s, i) + (if x < c.k && i == x / R(c) then 1 else 0)
    ensures LocalFailures(c, s + [x], i) == LocalFailures(c, s, i) + (if x == c.k + c.g + i then 1 else 0)
    ensures GlobalFailures(c, s + [x]) == GlobalFailures(c, s) + (if c.k <= x < c.k + c.g then 1 else 0)
  {
    assert (s + [x])[..|s|] == s;
    GroupLoGrows(c, i);
    if x < c.k {
      GroupRange(c, x, i);
    }
  }

  /** The counters follow. */
  lemma TallyStep(c: Lrc, s: seq<nat>, x: nat, fd: seq<int>, slp: seq<int>, sgp: int)
    requires AzureOk(c) && x < BlockNum(c) && Tallied(c, s, fd, slp, sgp)
    ensures x < c.k ==> x / R(c) < c.l && Tallied(c, s + [x], fd[x / R(c) := fd[x / R(c)] + 1], slp, sgp)
    ensures c.k <= x < c.k + c.g ==> Tallied(c, s + [x], fd, slp, sgp - 1)
    ensures c.k + c.g <= x ==>
              Tallied(c, s + [x], fd, slp[x - c.k - c.g := slp[x - c.k - c.g] - 1], sgp)
  {
    hide Tallied, R;
    if x < c.k {
      RBounds(c);
      GroupRange(c, x, 0);
      TallyData(c, s, x, fd, slp, sgp, x / R(c));
    } else {
      TallyParity(c, s, x, fd, slp, sgp);
    }
  }

  lemma TallyData(c: Lrc, s: seq<nat>, x: nat, fd: seq<int>, slp: seq<int>, sgp: int, q: nat)
    requires AzureOk(c) && x < c.k && R(c) >= 1 && q == x / R(c) < c.l && Tallied(c, s, fd, slp, sgp)
    ensures Tallied(c, s + [x], fd[q := fd[q] + 1], slp, sgp)
  {
    hide GroupLo, DataFailures, LocalFailures, GlobalFailures, R;
    CountsMore(c, s, x, 0);
    forall i | 0 <= i < c.l
      ensures DataFailures(c, s + [x], i) == DataFailures(c, s, i) + (if i == q then 1 else 0)
      ensures LocalFailures(c, s + [x], i) == LocalFailures(c, s, i)
    {
      CountsMore(c, s, x, i);
    }
  }

  lemma TallyParity(c: Lrc, s: seq<nat>, x: nat, fd: seq<int>, slp: seq<int>, sgp: int)
    requires AzureOk(c) && c.k <= x < BlockNum(c) && Tallied(c, s, fd, slp, sgp)
    ensures x < c.k + c.g ==> Tallied(c, s + [x], fd, slp, sgp - 1)
    ensures c.k + c.g <= x ==> Tallied(c, s + [x], fd, slp[x - c.k - c.g := slp[x - c.k - c.g] - 1], sgp)
  {
    hide GroupLo, DataFailures, LocalFailures, GlobalFailures, R;
    CountsMore(c, s, x, 0);
    forall i | 0 <= i < c.l
      ensures DataFailures(c, s + [x], i) == DataFailures(c, s, i)
      ensures LocalFailures(c, s + [x], i) == LocalFailures(c, s, i) + (if x == c.k + c.g + i then 1 else 0)
    {
      CountsMore(c, s, x, i);
    }
  }

  /** Whether the groups and the global parities can make up for the failures. */
  method CheckIfDecodable(c: Lrc, failureIdxs: seq<nat>) returns (ok: bool)
    requires AzureOk(c) && FailuresOk(c, failureIdxs)
    ensures ok <==> Decodable(c, failureIdxs)
  {
    hide GroupLo;
    var b2g := GroupTable(c);
    var groupFdCnt: seq<int>, groupSlpCnt: seq<int> := seq(c.l, _ => 0), seq(c.l, _ => 1);
    var sgpCnt: int := c.g;
    for i := 0 to |failureIdxs|
      invariant Tallied(c, failureIdxs[..i], groupFdCnt, groupSlpCnt, sgpCnt)
    {
      var blockId := failureIdxs[i];
      TallyStep(c, failureIdxs[..i], blockId, groupFdCnt, groupSlpCnt, sgpCnt);
      assert failureIdxs[..i + 1] == failureIdxs[..i] + [blockId];
      if blockId < c.k {
        groupFdCnt := groupFdCnt[b2g[blockId] := groupFdCnt[b2g[blockId]] + 1];
      } else if blockId < c.k + c.g && blockId >= c.k {
        sgpCnt := sgpCnt - 1;
      } else {
        groupSlpCnt := groupSlpCnt[blockId - c.k - c.g := groupSlpCnt[blockId - c.k - c.g] - 1];
      }
    }
    assert failureIdxs[..|failureIdxs|] == failureIdxs;
    ghost var s := failureIdxs;
    forall i | 0 <= i < c.l
      ensures LocalFailures(c, s, i) <= 1
    {
      CountOne(s, c.k + c.g + i);
    }
    for i := 0 to c.l
      invariant |groupFdCnt| == |groupSlpCnt| == c.l
      invariant forall a :: 0 <= a < c.l ==> groupFdCnt[a] == if a < i then Need(c, s, a) else DataFailures(c, s, a)
      invariant forall a :: i <= a < c.l ==> groupSlpCnt[a] == 1 - LocalFailures(c, s, a)
    {
      if groupSlpCnt[i] != 0 && groupSlpCnt[i] <= groupFdCnt[i] {
        groupFdCnt := groupFdCnt[i := groupFdCnt[i] - groupSlpCnt[i]];
        groupSlpCnt := groupSlpCnt[i := 0];
      }
    }
    CountAtMost(s, c.k, c.k + c.g);
    for i := 0 to c.l
      invariant |groupFdCnt| == c.l && forall a :: i <= a < c.l ==> groupFdCnt[a] == Need(c, s, a)
      invariant 0 <= sgpCnt == c.g - GlobalFailures(c, s) - TotalNeed(c, s, i)
    {
      if sgpCnt >= groupFdCnt[i] {
        sgpCnt := sgpCnt - groupFdCnt[i];
        groupFdCnt := groupFdCnt[i := 0];
      } else {
        NeedGrows(c, s, i + 1, c.l);
        return false;
      }
    }
    return true;
  }

  /** With at least one data failure among them, the first n groups leave over one less than they have lost. */
  lemma {:induction false} GroupsAbsorb(c: Lrc, s: seq<nat>, n: nat)
    requires AzureOk(c) && NoRepeats(s) && n <= c.l
    ensures CountIn(s, 0, GroupLo(c, n)) == 0 ==> TotalNeed(c, s, n) == 0
    ensures CountIn(s, 0, GroupLo(c, n)) > 0 ==>
              TotalNeed(c, s, n) + 1 <= CountIn(s, 0, GroupLo(c, n)) + CountIn(s, c.k + c.g, c.k + c.g + n)
  {
    if n > 0 {
      var i := n - 1;
      GroupsAbsorb(c, s, i);
      GroupLoGrows(c, i);
      hide GroupLo;
      CountSplit(s, 0, GroupLo(c, i), GroupLo(c, n));
      CountSplit(s, c.k + c.g, c.k + c.g + i, c.k + c.g + n);
      CountOne(s, c.k + c.g + i);
    }
  }

  /** Any g + 1 failures can be repaired. */
  lemma SmallFailuresDecodable(c: Lrc, s: seq<nat>)
    requires AzureOk(c) && FailuresOk(c, s) && |s| <= c.g + 1
    ensures Decodable(c, s)
  {
    GroupsAbsorb(c, s, c.l);
    GroupLoGrows(c, c.l);
    CountWhole(s, 0, BlockNum(c));
    CountSplit(s, 0, c.k, BlockNum(c));
    CountSplit(s, c.k, c.k + c.g, BlockNum(c));
    CountAtMost(s, c.k, c.k + c.g);
  }
}

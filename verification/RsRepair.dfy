/** How a Reed-Solomon code spreads its blocks over partitions and picks the helpers of a repair. */
module RsRepair {
  import opened Listing
  import opened Partitions

  /** Consecutive runs of m blocks, the last perhaps of fewer, so that any one of them can be lost. */
  method PartitionOptimal(k: nat, m: nat) returns (plan: Partition)
    requires m >= 1
    ensures IsPartition(plan, k + m)
    ensures Concat(plan) == UpTo(k + m) && forall i :: 0 <= i < |plan| - 1 ==> |plan[i]| == m
    ensures forall i :: 0 <= i < |plan| ==> |plan[i]| <= m && CheckIfDecodable(m, plan[i])
  {
    plan := [];
    var n, cnt := k + m, 0;
    while cnt < n
      invariant 0 <= cnt <= n
      invariant Concat(plan) == UpTo(cnt)
      invariant forall i :: 0 <= i < |plan| ==> plan[i] != [] && |plan[i]| <= m
      invariant forall i :: 0 <= i < |plan| && (i < |plan| - 1 || cnt < n) ==> |plan[i]| == m
    {
      var size := if m < n - cnt then m else n - cnt;
      var part: seq<nat> := [];
      ghost var start := cnt;
      for i := 0 to size
        invariant cnt == start + i && |part| == i
        invariant forall j :: 0 <= j < i ==> part[j] == start + j
      {
        part := part + [cnt];
        cnt := cnt + 1;
      }
      assert UpTo(start) + part == UpTo(cnt);
      assert (plan + [part])[..|plan|] == plan;
      plan := plan + [part];
    }
    AllInOrder(plan, n);
  }

  predicate CheckIfDecodable(m: nat, failureIdxs: seq<nat>) { m >= |failureIdxs| }

  // Helper selection.

  /** The parts listed in `order`, in that order. */
  function Arranged(p: Partition, order: seq<nat>): (r: Partition)
    requires forall i :: 0 <= i < |order| ==> order[i] < |p|
    ensures |r| == |order| && forall i :: 0 <= i < |r| ==> r[i] == p[order[i]]
  {
    seq(|order|, i requires 0 <= i < |order| => p[order[i]])
  }

  /** The parities among the blocks, in order. */
  function ParitiesOf(s: seq<nat>, firstParity: nat): seq<nat> {
    if s == [] then []
    else ParitiesOf(s[..|s| - 1], firstParity) + (if s[|s| - 1] >= firstParity then [s[|s| - 1]] else [])
  }

  lemma ParitiesSnoc(s: seq<nat>, x: nat, firstParity: nat)
    ensures ParitiesOf(s + [x], firstParity) == ParitiesOf(s, firstParity) + (if x >= firstParity then [x] else [])
  {
    assert (s + [x])[..|s|] == s;
  }

  lemma {:induction false} ParitiesBoth(a: seq<nat>, b: seq<nat>, firstParity: nat)
    ensures ParitiesOf(a + b, firstParity) == ParitiesOf(a, firstParity) + ParitiesOf(b, firstParity)
  {
    if b == [] {
      assert a + b == a;
    } else {
      var n := |b| - 1;
      ParitiesBoth(a, b[..n], firstParity);
      assert (a + b)[..|a + b| - 1] == a + b[..n];
    }
  }

  function Min(a: nat, b: nat): nat { if a < b then a else b }

  /** The parts in the listed order, or what is left of them. */
  ghost predicate PartsOf(plan: Partition, parts: Partition, order: seq<nat>) {
    |parts| == |order| && forall i :: 0 <= i < |order| ==> order[i] < |plan| && forall x :: x in parts[i] ==> x in plan[order[i]]
  }

  /**
   The non-empty groups obtained by taking blocks part after part until k have been taken; the parities among
   them are listed after those in `start`.
   */
  method TakeHelpers(parts: Partition, k: nat, firstParity: nat, groups0: Partition, parity0: seq<nat>, ghost start: seq<nat>,
                     ghost plan: Partition, ghost order: seq<nat>, ghost from0: seq<nat>)
    returns (groups: Partition, parityIdxs: seq<nat>, ghost from: seq<nat>)
    requires |Concat(groups0)| <= k && PartsOf(plan, parts, order) && GroupsFrom(plan, groups0, from0)
    requires NoRepeats(order) && forall x :: x in from0 ==> x !in order
    requires parity0 == start + ParitiesOf(Concat(groups0), firstParity)
    ensures Concat(groups) == Concat(groups0) + Concat(parts)[..Min(k - |Concat(groups0)|, |Concat(parts)|)]
    ensures GroupsFrom(plan, groups, from) && forall x :: x in from ==> x in from0 || x in order
    ensures parityIdxs == start + ParitiesOf(Concat(groups), firstParity)
  {
    hide ParitiesOf, Concat, GroupsFrom, PartsOf, NoRepeats;
    groups, parityIdxs, from := groups0, parity0, from0;
    var cnt := |Concat(groups0)|;
    ghost var need := k - cnt;
    NothingTakenYet(parts, Concat(groups0), need);
    SizesAgree(plan, parts, order);
    for i := 0 to |parts|
      invariant cnt == |Concat(groups)| <= k
      invariant Concat(groups) == Concat(groups0) + Concat(parts[..i])[..Min(need, |Concat(parts[..i])|)]
      invariant GroupsFrom(plan, groups, from) && forall x :: x in from ==> x in from0 || x in order[..i]
      invariant parityIdxs == start + ParitiesOf(Concat(groups), firstParity)
    {
      var group;
      ghost var cnt0, before := cnt, groups;
      group, cnt, parityIdxs := TakeGroup(parts[i], k, firstParity, cnt, parityIdxs);
      TakeStep(Concat(groups0), parts, i, need);
      ParitiesBoth(Concat(groups), group, firstParity);
      ConcatSnoc(groups, group);
      if cnt > 0 && cnt <= k && |group| > 0 {
        TakenFromPart(plan, parts, order, groups, from, from0, group, i);
        groups, from := groups + [group], from + [order[i]];
      } else {
        assert Concat(groups) + group == Concat(groups);
      }
      assert order[..i + 1] == order[..i] + [order[i]];
      if cnt == k {
        TakenAll(parts, i + 1, need);
        return;
      }
    }
    assert parts[..|parts|] == parts;
  }

  lemma NothingTakenYet(parts: Partition, start: seq<nat>, need: nat)
    ensures start == start + Concat(parts[..0])[..Min(need, |Concat(parts[..0])|)]
  {
  }

  lemma SizesAgree(plan: Partition, parts: Partition, order: seq<nat>)
    requires PartsOf(plan, parts, order)
    ensures |parts| == |order|
  {
  }

  lemma TakenFromPart(plan: Partition, parts: Partition, order: seq<nat>, groups: Partition, from: seq<nat>, from0: seq<nat>,
                      group: seq<nat>, i: nat)
    requires PartsOf(plan, parts, order) && NoRepeats(order) && i < |parts| && group <= parts[i] && group != []
    requires GroupsFrom(plan, groups, from) && (forall x :: x in from0 ==> x !in order)
    requires i <= |order| && forall x :: x in from ==> x in from0 || x in order[..i]
    ensures i < |order| && GroupsFrom(plan, groups + [group], from + [order[i]])
  {
    NoRepeatsBefore(order, i);
    OneMoreGroup(plan, groups, from, group, order[i]);
  }

  /** Takes blocks from one part until there are k. */
  method TakeGroup(part: seq<nat>, k: nat, firstParity: nat, cnt0: nat, parity0: seq<nat>)
    returns (group: seq<nat>, cnt: nat, parityIdxs: seq<nat>)
    requires cnt0 <= k
    ensures group == part[..Min(k - cnt0, |part|)] && cnt == cnt0 + |group|
    ensures parityIdxs == parity0 + ParitiesOf(group, firstParity)
  {
    group, cnt, parityIdxs := [], cnt0, parity0;
    for j := 0 to |part|
      invariant group == part[..Min(k - cnt0, j)] && cnt == cnt0 + |group|
      invariant parityIdxs == parity0 + ParitiesOf(group, firstParity)
    {
      if cnt < k {
        ParitiesSnoc(group, part[j], firstParity);
        group := group + [part[j]];
        cnt := cnt + 1;
        if part[j] >= firstParity {
          parityIdxs := parityIdxs + [part[j]];
        }
      } else {
        break;
      }
    }
  }

  lemma TakeStep(start: seq<nat>, parts: Partition, i: nat, need: nat)
    requires i < |parts|
    ensures var before := Concat(parts[..i]);
            var taken := before[..Min(need, |before|)];
            var all := Concat(parts[..i + 1]);
            start + all[..Min(need, |all|)] == start + taken + parts[i][..Min(need - |taken|, |parts[i]|)]
  {
    assert parts[..i + 1][..i] == parts[..i];
  }

  lemma {:induction false} TakenAll(parts: Partition, i: nat, need: nat)
    requires i <= |parts| && |Concat(parts[..i])| >= need
    ensures |Concat(parts)| >= need && Concat(parts[..i])[..need] == Concat(parts)[..need]
  {
    if i < |parts| {
      assert parts[..|parts| - 1][..i] == parts[..i];
      TakenAll(parts[..|parts| - 1], i, need);
    } else {
      assert parts[..i] == parts;
    }
  }

  // Sorting partitions by size, largest first.

  ghost predicate Descending(s: seq<(nat, nat)>) {
    forall i, j :: 0 <= i < j < |s| ==> s[i].1 >= s[j].1
  }

  lemma InsertKeepsOrder(s: seq<(nat, nat)>, x: (nat, nat), at: nat)
    requires Descending(s) && at <= |s|
    requires forall j :: 0 <= j < at ==> s[j].1 >= x.1
    requires at < |s| ==> s[at].1 < x.1
    ensures Descending(s[..at] + [x] + s[at..])
  {
  }

  method PlaceFor(sorted: seq<(nat, nat)>, x: (nat, nat)) returns (at: nat)
    ensures at <= |sorted| && (forall j :: 0 <= j < at ==> sorted[j].1 >= x.1)
    ensures at < |sorted| ==> sorted[at].1 < x.1
  {
    at := 0;
    while at < |sorted| && sorted[at].1 >= x.1
      invariant 0 <= at <= |sorted| && forall j :: 0 <= j < at ==> sorted[j].1 >= x.1
    {
      at := at + 1;
    }
  }

  method SortDescending(pairs: seq<(nat, nat)>) returns (sorted: seq<(nat, nat)>)
    ensures multiset(sorted) == multiset(pairs) && Descending(sorted)
  {
    sorted := [];
    for i := 0 to |pairs|
      invariant multiset(sorted) == multiset(pairs[..i]) && Descending(sorted)
    {
      var at := PlaceFor(sorted, pairs[i]);
      InsertKeepsOrder(sorted, pairs[i], at);
      MultisetSnoc(pairs, i);
      MultisetInsert(sorted, pairs[i], at);
      sorted := sorted[..at] + [pairs[i]] + sorted[at..];
    }
    assert pairs[..|pairs|] == pairs;
  }

  function Firsts(pairs: seq<(nat, nat)>): (r: seq<nat>)
    ensures |r| == |pairs| && forall i :: 0 <= i < |r| ==> r[i] == pairs[i].0
  {
    seq(|pairs|, i requires 0 <= i < |pairs| => pairs[i].0)
  }

  /** Sorting keeps which partitions are listed, each once. */
  lemma SortedFirsts(pairs: seq<(nat, nat)>, sorted: seq<(nat, nat)>)
    requires multiset(sorted) == multiset(pairs) && NoRepeats(Firsts(pairs))
    ensures NoRepeats(Firsts(sorted)) && forall x :: x in Firsts(sorted) <==> x in Firsts(pairs)
  {
    forall x: nat
      ensures x in Firsts(sorted) <==> x in Firsts(pairs)
    {
      if x in Firsts(pairs) {
        FirstsMember(pairs, sorted, x);
      }
      if x in Firsts(sorted) {
        FirstsMember(sorted, pairs, x);
      }
    }
    assert Elements(Firsts(sorted)) == Elements(Firsts(pairs));
    SizeOfElements(Firsts(pairs));
    assert |sorted| == |multiset(sorted)| == |multiset(pairs)| == |pairs|;
    ElementsAtMost(Firsts(sorted));
  }

  lemma FirstsMember(s: seq<(nat, nat)>, t: seq<(nat, nat)>, x: nat)
    requires multiset(s) == multiset(t) && x in Firsts(s)
    ensures x in Firsts(t)
  {
    var i :| 0 <= i < |s| && Firsts(s)[i] == x;
    assert s[i] in multiset(t);
    var j :| 0 <= j < |t| && t[j] == s[i];
    assert Firsts(t)[j] == x;
  }

  /** Larger parts come first. */
  ghost predicate BySize(plan: Partition, order: seq<nat>)
    requires forall i :: 0 <= i < |order| ==> order[i] < |plan|
  {
    forall i, j :: 0 <= i < j < |order| ==> |plan[order[i]]| >= |plan[order[j]]|
  }

  // Repairing several blocks at once.

  /** What is left of every part when the failures are taken out. */
  ghost function Live(plan: Partition, failures: seq<nat>): (r: Partition)
    ensures |r| == |plan| && forall i :: 0 <= i < |r| ==> r[i] == Without(plan[i], failures)
  {
    seq(|plan|, i requires 0 <= i < |plan| => Without(plan[i], failures))
  }

  /** The first place of x in s, or |s| when it is not there. */
  method Find(s: seq<nat>, x: nat) returns (at: nat)
    ensures at <= |s| && (at < |s| ==> s[at] == x) && (at == |s| ==> x !in s)
  {
    at := 0;
    while at < |s| && s[at] != x
      invariant 0 <= at <= |s| && x !in s[..at]
    {
      at := at + 1;
    }
  }

  ghost predicate HoldsFailure(part: seq<nat>, failures: seq<nat>) {
    exists x :: x in part && x in failures
  }

  /** The counters of the parts with failures, and only theirs, are not zero. */
  ghost predicate CountsFailures(plan: Partition, failures: seq<nat>, cnt: seq<nat>) {
    |cnt| == |plan| && forall i :: 0 <= i < |plan| ==> (cnt[i] > 0 <==> HoldsFailure(plan[i], failures))
  }

  /** Erases every failure from the part that holds it, and counts the failures of each part. */
  method RemoveFailures(plan: Partition, failures: seq<nat>) returns (copy: Partition, failuresCnt: seq<nat>)
    requires NoRepeats(Concat(plan)) && NoRepeats(failures)
    ensures copy == Live(plan, failures) && CountsFailures(plan, failures, failuresCnt) && |failuresCnt| == |plan|
  {
    hide Live, CountsFailures;
    copy, failuresCnt := plan, seq(|plan|, _ => 0);
    NothingRemoved(plan);
    NothingCounted(plan, failuresCnt);
    NoRepeatsMeansApart(plan);
    for t := 0 to |failures|
      invariant copy == Live(plan, failures[..t]) && CountsFailures(plan, failures[..t], failuresCnt) && |failuresCnt| == |plan|
    {
      var i := 0;
      var found := false;
      while i < |plan| && !found
        invariant 0 <= i <= |plan| && |failuresCnt| == |plan|
        invariant !found ==> copy == Live(plan, failures[..t]) && forall j :: 0 <= j < i ==> failures[t] !in copy[j]
        invariant !found ==> CountsFailures(plan, failures[..t], failuresCnt)
        invariant found ==> copy == Live(plan, failures[..t + 1]) && CountsFailures(plan, failures[..t + 1], failuresCnt)
        decreases |plan| - i, !found
      {
        var at := Find(copy[i], failures[t]);
        if at < |copy[i]| {
          RemoveOne(plan, failures, t, i, at);
          CountOne(plan, failures, t, i, failuresCnt);
          failuresCnt := failuresCnt[i := failuresCnt[i] + 1];
          copy := copy[i := copy[i][..at] + copy[i][at + 1..]];
          found := true;
        } else {
          i := i + 1;
        }
      }
      if !found {
        NotThere(plan, failures, t);
        NotCounted(plan, failures, t, failuresCnt);
      }
    }
    assert failures[..|failures|] == failures;
  }

  lemma NothingCounted(plan: Partition, cnt: seq<nat>)
    requires |cnt| == |plan| && forall i :: 0 <= i < |cnt| ==> cnt[i] == 0
    ensures CountsFailures(plan, [], cnt)
  {
  }

  /** A failure found in the live blocks of a part is in that part and no other. */
  lemma CountOne(plan: Partition, failures: seq<nat>, t: nat, i: nat, cnt: seq<nat>)
    requires Apart(plan) && t < |failures| && i < |plan| && failures[t] in Live(plan, failures[..t])[i]
    requires CountsFailures(plan, failures[..t], cnt)
    ensures i < |cnt| && CountsFailures(plan, failures[..t + 1], cnt[i := cnt[i] + 1])
  {
    hide Apart, Live;
    var x, next := failures[t], failures[..t + 1];
    assert next == failures[..t] + [x];
    LiveIsIn(plan, failures[..t], i, x);
    assert x in next;
    forall j | 0 <= j < |plan|
      ensures HoldsFailure(plan[j], next) <==> HoldsFailure(plan[j], failures[..t]) || j == i
    {
      FailureJoins(plan[j], failures[..t], x);
      if x in plan[j] {
        OnlyInPart(plan, i, j, x);
      }
    }
  }

  lemma LiveIsIn(plan: Partition, failures: seq<nat>, i: nat, x: nat)
    requires i < |plan|
    ensures x in Live(plan, failures)[i] <==> x in plan[i] && x !in failures
  {
    WithoutMember(plan[i], failures, x);
  }

  lemma FailureJoins(part: seq<nat>, failures: seq<nat>, x: nat)
    ensures HoldsFailure(part, failures + [x]) <==> HoldsFailure(part, failures) || x in part
  {
    if HoldsFailure(part, failures) {
      var y :| y in part && y in failures;
      assert y in failures + [x];
    }
    if x in part {
      assert x in failures + [x];
    }
  }

  lemma NotCounted(plan: Partition, failures: seq<nat>, t: nat, cnt: seq<nat>)
    requires NoRepeats(failures) && t < |failures| && CountsFailures(plan, failures[..t], cnt)
    requires forall j :: 0 <= j < |plan| ==> failures[t] !in Live(plan, failures[..t])[j]
    ensures CountsFailures(plan, failures[..t + 1], cnt)
  {
    hide Live;
    assert failures[..t + 1] == failures[..t] + [failures[t]];
    forall j | 0 <= j < |plan|
      ensures HoldsFailure(plan[j], failures[..t + 1]) <==> HoldsFailure(plan[j], failures[..t])
    {
      FailureJoins(plan[j], failures[..t], failures[t]);
      LiveIsIn(plan, failures[..t], j, failures[t]);
    }
  }

  lemma NothingRemoved(plan: Partition)
    ensures Live(plan, []) == plan
  {
    forall i | 0 <= i < |plan|
      ensures Live(plan, [])[i] == plan[i]
    {
      WithoutNothing(plan[i]);
    }
  }

  lemma PartNoRepeats(plan: Partition, j: nat)
    requires Apart(plan) && j < |plan|
    ensures NoRepeats(plan[j])
  {
  }

  /** Erasing a failure from the part that holds it is removing it from all parts. */
  lemma RemoveOne(plan: Partition, failures: seq<nat>, t: nat, i: nat, at: nat)
    requires Apart(plan) && NoRepeats(failures) && t < |failures| && i < |plan|
    requires at < |Live(plan, failures[..t])[i]| && Live(plan, failures[..t])[i][at] == failures[t]
    ensures var copy := Live(plan, failures[..t]);
            Live(plan, failures[..t + 1]) == copy[i := copy[i][..at] + copy[i][at + 1..]]
  {
    var copy, x := Live(plan, failures[..t]), failures[t];
    var next := failures[..t + 1];
    assert next == failures[..t] + [x];
    assert x in copy[i] && x !in failures[..t];
    WithoutMember(plan[i], failures[..t], x);
    forall j | 0 <= j < |plan|
      ensures Live(plan, next)[j] == copy[i := copy[i][..at] + copy[i][at + 1..]][j]
    {
      PartNoRepeats(plan, j);
      if j == i {
        WithoutOneMore(plan[j], failures[..t], x, at);
      } else {
        if x in plan[j] {
          OnlyInPart(plan, i, j, x);
        }
        WithoutAbsent(plan[j], failures[..t], x);
      }
    }
  }

  lemma NotThere(plan: Partition, failures: seq<nat>, t: nat)
    requires Apart(plan) && NoRepeats(failures) && t < |failures|
    requires forall j :: 0 <= j < |plan| ==> failures[t] !in Live(plan, failures[..t])[j]
    ensures Live(plan, failures[..t + 1]) == Live(plan, failures[..t])
  {
    var x := failures[t];
    var next := failures[..t + 1];
    assert next == failures[..t] + [x];
    assert x !in failures[..t];
    forall j | 0 <= j < |plan|
      ensures Live(plan, next)[j] == Live(plan, failures[..t])[j]
    {
      WithoutMember(plan[j], failures[..t], x);
      assert x !in Live(plan, failures[..t])[j];
      WithoutAbsent(plan[j], failures[..t], x);
    }
  }

  /** Exactly k distinct blocks, none of them failed, in non-empty groups. */
  ghost predicate HelpersOk(groups: Partition, failures: seq<nat>, k: nat, n: nat) {
    && NoRepeats(Concat(groups)) && |Concat(groups)| == k
    && (forall a :: 0 <= a < |Concat(groups)| ==> Concat(groups)[a] < n && Concat(groups)[a] !in failures)
    && forall i :: 0 <= i < |groups| ==> groups[i] != []
  }

  /** The live blocks, arranged in any order of the parts, are each listed once, and all of them are. */
  lemma LiveBlocks(plan: Partition, n: nat, failures: seq<nat>, order: seq<nat>)
    requires IsPartition(plan, n) && NoRepeats(failures) && forall i :: 0 <= i < |failures| ==> failures[i] < n
    requires IsOrder(order, |plan|)
    ensures var l := Concat(Arranged(Live(plan, failures), order));
            && NoRepeats(l) && |l| == n - |failures|
            && forall a :: 0 <= a < |l| ==> l[a] < n && l[a] !in failures
  {
    var p := Arranged(Live(plan, failures), order);
    var l := Concat(p);
    NoRepeatsMeansApart(plan);
    ArrangedApart(plan, failures, order);
    ApartMeansNoRepeats(p);
    forall x: nat
      ensures x in l <==> x in UpTo(n) && x !in failures
    {
      LiveMember(plan, n, failures, order, x);
    }
    forall x | x in failures
      ensures x in UpTo(n)
    {
      InUpTo(n, x);
    }
    RemainingLength(l, UpTo(n), failures);
    forall a | 0 <= a < |l|
      ensures l[a] < n && l[a] !in failures
    {
      assert l[a] in l;
    }
  }

  lemma ArrangedApart(plan: Partition, failures: seq<nat>, order: seq<nat>)
    requires Apart(plan) && NoRepeats(order) && forall i :: 0 <= i < |order| ==> order[i] < |plan|
    ensures Apart(Arranged(Live(plan, failures), order))
  {
    var p := Arranged(Live(plan, failures), order);
    forall i, a, i', a' | 0 <= i < |p| && 0 <= i' < |p| && 0 <= a < |p[i]| && 0 <= a' < |p[i']| && p[i][a] == p[i'][a']
      ensures i == i' && a == a'
    {
      var x := p[i][a];
      WithoutMember(plan[order[i]], failures, x);
      WithoutMember(plan[order[i']], failures, x);
      assert x in p[i] && x in p[i'];
      OnlyInPart(plan, order[i], order[i'], x);
      PartNoRepeats(plan, order[i]);
      WithoutNoRepeats(plan[order[i]], failures);
    }
  }

  lemma LiveMember(plan: Partition, n: nat, failures: seq<nat>, order: seq<nat>, x: nat)
    requires IsPartition(plan, n) && forall i :: 0 <= i < |order| ==> order[i] < |plan|
    requires forall i :: 0 <= i < |plan| ==> i in order
    ensures x in Concat(Arranged(Live(plan, failures), order)) <==> x in UpTo(n) && x !in failures
  {
    if x in Concat(Arranged(Live(plan, failures), order)) {
      ListedIsLive(plan, n, failures, order, x);
    }
    if x in UpTo(n) && x !in failures {
      LiveIsListed(plan, n, failures, order, x);
    }
  }

  lemma ListedIsLive(plan: Partition, n: nat, failures: seq<nat>, order: seq<nat>, x: nat)
    requires IsPartition(plan, n) && forall i :: 0 <= i < |order| ==> order[i] < |plan|
    requires x in Concat(Arranged(Live(plan, failures), order))
    ensures x in UpTo(n) && x !in failures
  {
    var p := Arranged(Live(plan, failures), order);
    var at :| 0 <= at < |Concat(p)| && Concat(p)[at] == x;
    var i, j := FromConcat(p, at);
    assert x in p[i];
    WithoutMember(plan[order[i]], failures, x);
    var b :| 0 <= b < |plan[order[i]]| && plan[order[i]][b] == x;
    var y := InConcat(plan, order[i], b);
    InUpTo(n, x);
  }

  lemma LiveIsListed(plan: Partition, n: nat, failures: seq<nat>, order: seq<nat>, x: nat)
    requires IsPartition(plan, n) && forall i :: 0 <= i < |order| ==> order[i] < |plan|
    requires forall i :: 0 <= i < |plan| ==> i in order
    requires x in UpTo(n) && x !in failures
    ensures x in Concat(Arranged(Live(plan, failures), order))
  {
    assert x in Concat(plan);
    var at :| 0 <= at < |Concat(plan)| && Concat(plan)[at] == x;
    var i, j := FromConcat(plan, at);
    assert plan[i][j] in plan[i];
    assert i in order;
    var i' :| 0 <= i' < |order| && order[i'] == i;
    var p := Arranged(Live(plan, failures), order);
    WithoutMember(plan[i], failures, x);
    assert x in p[i'];
    MemberOfPart(p, i', x);
  }

  lemma MemberOfPart(p: Partition, i: nat, x: nat)
    requires i < |p| && x in p[i]
    ensures x in Concat(p)
  {
    var b :| 0 <= b < |p[i]| && p[i][b] == x;
    var y := InConcat(p, i, b);
  }

  /** The helpers among the data blocks, part by part, when only parities are to be re-encoded. */
  method DataHelpers(plan: Partition, k: nat) returns (groups: Partition, ghost from: seq<nat>)
    ensures Concat(groups) == DataOf(Concat(plan), k) && GroupsFrom(plan, groups, from)
  {
    hide GroupsFrom;
    groups, from := [], [];
    NoGroups(plan);
    for i := 0 to |plan|
      invariant Concat(groups) == DataOf(Concat(plan[..i]), k)
      invariant GroupsFrom(plan, groups, from) && forall x :: x in from ==> x < i
    {
      var group: seq<nat> := [];
      for j := 0 to |plan[i]|
        invariant group == DataOf(plan[i][..j], k)
      {
        assert plan[i][..j + 1][..j] == plan[i][..j];
        if plan[i][j] < k {
          group := group + [plan[i][j]];
        }
      }
      assert plan[i][..|plan[i]|] == plan[i] && plan[..i + 1][..i] == plan[..i];
      DataOfConcat(Concat(plan[..i]), plan[i], k);
      if |group| > 0 {
        ghost var before := groups;
        DataInPart(plan, k, i, groups, from);
        groups, from := groups + [group], from + [i];
        assert groups[..|groups| - 1] == before;
      }
    }
    assert plan[..|plan|] == plan;
  }

  lemma NoGroups(plan: Partition)
    ensures GroupsFrom(plan, [], [])
  {
  }

  lemma DataInPart(plan: Partition, k: nat, i: nat, groups: Partition, from: seq<nat>)
    requires i < |plan| && GroupsFrom(plan, groups, from) && i !in from && DataOf(plan[i], k) != []
    ensures GroupsFrom(plan, groups + [DataOf(plan[i], k)], from + [i])
  {
    forall x | x in DataOf(plan[i], k)
      ensures x in plan[i]
    {
      DataOfMember(plan[i], k, x);
    }
    OneMoreGroup(plan, groups, from, DataOf(plan[i], k), i);
  }

  /** The data blocks of a list, in order. */
  function DataOf(s: seq<nat>, k: nat): seq<nat> {
    if s == [] then []
    else DataOf(s[..|s| - 1], k) + (if s[|s| - 1] < k then [s[|s| - 1]] else [])
  }

  lemma {:induction false} DataOfConcat(a: seq<nat>, b: seq<nat>, k: nat)
    ensures DataOf(a + b, k) == DataOf(a, k) + DataOf(b, k)
  {
    if b == [] {
      assert a + b == a;
    } else {
      var n := |b| - 1;
      DataOfConcat(a, b[..n], k);
      assert (a + b)[..|a + b| - 1] == a + b[..n];
    }
  }

  lemma {:induction false} DataOfMember(s: seq<nat>, k: nat, x: nat)
    ensures x in DataOf(s, k) <==> x in s && x < k
  {
    if s != [] {
      var n := |s| - 1;
      assert s == s[..n] + [s[n]];
      DataOfMember(s[..n], k, x);
    }
  }

  lemma {:induction false} DataOfNoRepeats(s: seq<nat>, k: nat)
    requires NoRepeats(s)
    ensures NoRepeats(DataOf(s, k))
  {
    if s != [] {
      var n := |s| - 1;
      DataOfNoRepeats(s[..n], k);
      forall x | x in DataOf(s[..n], k)
        ensures x != s[n]
      {
        DataOfMember(s[..n], k, x);
      }
      NoRepeatsConcat(DataOf(s[..n], k), if s[n] < k then [s[n]] else []);
    }
  }

  /** Re-encoding uses each data block once, and none of them is among the failed parities. */
  lemma DataHelpersOk(groups: Partition, plan: Partition, k: nat, n: nat, failures: seq<nat>)
    requires IsPartition(plan, n) && k <= n && Concat(groups) == DataOf(Concat(plan), k)
    requires forall i :: 0 <= i < |groups| ==> groups[i] != []
    requires forall i :: 0 <= i < |failures| ==> failures[i] >= k
    ensures HelpersOk(groups, failures, k, n)
  {
    var l := Concat(groups);
    DataOfNoRepeats(Concat(plan), k);
    forall x: nat
      ensures x in l <==> x in UpTo(k)
    {
      DataOfMember(Concat(plan), k, x);
      if x < k {
        InUpTo(k, x);
      }
    }
    SameLength(l, UpTo(k));
    forall a | 0 <= a < |l|
      ensures l[a] < n && l[a] !in failures
    {
      assert l[a] in l;
    }
  }

  /** Of the first i parts those that have failures (or those that have none), with their sizes. */
  function PartsWith(copy: Partition, cnt: seq<nat>, failed: bool, i: nat): seq<(nat, nat)>
    requires |cnt| == |copy| && i <= |copy|
  {
    if i == 0 then []
    else PartsWith(copy, cnt, failed, i - 1) + (if (cnt[i - 1] > 0) == failed then [(i - 1, |copy[i - 1]|)] else [])
  }

  lemma {:induction false} PartsWithMember(copy: Partition, cnt: seq<nat>, failed: bool, i: nat, x: nat)
    requires |cnt| == |copy| && i <= |copy|
    ensures x in Firsts(PartsWith(copy, cnt, failed, i)) <==> x < i && (cnt[x] > 0) == failed
  {
    if i > 0 {
      var before := PartsWith(copy, cnt, failed, i - 1);
      var last := if (cnt[i - 1] > 0) == failed then [(i - 1, |copy[i - 1]|)] else [];
      PartsWithMember(copy, cnt, failed, i - 1, x);
      FirstsConcat(before, last);
      assert Firsts(last) == if (cnt[i - 1] > 0) == failed then [i - 1] else [];
    }
  }

  lemma FirstsConcat(a: seq<(nat, nat)>, b: seq<(nat, nat)>)
    ensures Firsts(a + b) == Firsts(a) + Firsts(b)
  {
  }

  lemma {:induction false} PartsWithNoRepeats(copy: Partition, cnt: seq<nat>, failed: bool, i: nat)
    requires |cnt| == |copy| && i <= |copy|
    ensures NoRepeats(Firsts(PartsWith(copy, cnt, failed, i)))
  {
    if i > 0 {
      var before := PartsWith(copy, cnt, failed, i - 1);
      var last := if (cnt[i - 1] > 0) == failed then [(i - 1, |copy[i - 1]|)] else [];
      PartsWithNoRepeats(copy, cnt, failed, i - 1);
      PartsWithMember(copy, cnt, failed, i - 1, i - 1);
      FirstsConcat(before, last);
      NoRepeatsConcat(Firsts(before), Firsts(last));
    }
  }

  /** Lists the parts with failures and the parts without, each with its number of live blocks. */
  method SplitParts(copy: Partition, failuresCnt: seq<nat>) returns (main: seq<(nat, nat)>, others: seq<(nat, nat)>)
    requires |failuresCnt| == |copy|
    ensures main == PartsWith(copy, failuresCnt, true, |copy|)
    ensures others == PartsWith(copy, failuresCnt, false, |copy|)
  {
    main, others := [], [];
    for i := 0 to |copy|
      invariant main == PartsWith(copy, failuresCnt, true, i)
      invariant others == PartsWith(copy, failuresCnt, false, i)
    {
      if failuresCnt[i] > 0 {
        main := main + [(i, |copy[i]|)];
      } else {
        others := others + [(i, |copy[i]|)];
      }
    }
  }

  /** Arranging parts in two runs is arranging them in one. */
  lemma ArrangedTwice(p: Partition, a: seq<nat>, b: seq<nat>)
    requires forall i :: 0 <= i < |a| ==> a[i] < |p|
    requires forall i :: 0 <= i < |b| ==> b[i] < |p|
    ensures forall i :: 0 <= i < |a + b| ==> (a + b)[i] < |p|
    ensures Concat(Arranged(p, a + b)) == Concat(Arranged(p, a)) + Concat(Arranged(p, b))
  {
    assert Arranged(p, a + b) == Arranged(p, a) + Arranged(p, b);
    ConcatTwo(Arranged(p, a), Arranged(p, b));
  }

  /** `order` lists every part once. */
  ghost predicate IsOrder(order: seq<nat>, n: nat) {
    && NoRepeats(order)
    && (forall i :: 0 <= i < |order| ==> order[i] < n)
    && forall i :: 0 <= i < n ==> i in order
  }

  /** The sorted parts with failures, then the sorted parts without: every part once. */
  lemma SortedRuns(copy: Partition, cnt: seq<nat>, main: seq<(nat, nat)>, others: seq<(nat, nat)>)
    requires |cnt| == |copy|
    requires multiset(main) == multiset(PartsWith(copy, cnt, true, |copy|))
    requires multiset(others) == multiset(PartsWith(copy, cnt, false, |copy|))
    ensures IsOrder(Firsts(main) + Firsts(others), |copy|)
  {
    var a, b := Firsts(main), Firsts(others);
    SortedMembers(copy, cnt, main, true);
    SortedMembers(copy, cnt, others, false);
    TwoRuns(a, b, cnt);
  }

  ghost predicate ListsParts(a: seq<nat>, cnt: seq<nat>, failed: bool) {
    && NoRepeats(a)
    && (forall i :: 0 <= i < |a| ==> a[i] < |cnt| && (cnt[a[i]] > 0) == failed)
    && forall x :: 0 <= x < |cnt| && (cnt[x] > 0) == failed ==> x in a
  }

  lemma SortedMembers(copy: Partition, cnt: seq<nat>, sorted: seq<(nat, nat)>, failed: bool)
    requires |cnt| == |copy| && multiset(sorted) == multiset(PartsWith(copy, cnt, failed, |copy|))
    ensures ListsParts(Firsts(sorted), cnt, failed)
  {
    var a := Firsts(sorted);
    PartsWithNoRepeats(copy, cnt, failed, |copy|);
    SortedFirsts(PartsWith(copy, cnt, failed, |copy|), sorted);
    forall i | 0 <= i < |a|
      ensures a[i] < |cnt| && (cnt[a[i]] > 0) == failed
    {
      assert a[i] in a;
      PartsWithMember(copy, cnt, failed, |copy|, a[i]);
    }
    forall x: nat | x < |cnt| && (cnt[x] > 0) == failed
      ensures x in a
    {
      PartsWithMember(copy, cnt, failed, |copy|, x);
    }
  }

  lemma TwoRuns(a: seq<nat>, b: seq<nat>, cnt: seq<nat>)
    requires ListsParts(a, cnt, true) && ListsParts(b, cnt, false)
    ensures IsOrder(a + b, |cnt|)
  {
    NoRepeatsConcat(a, b);
    forall i: nat | i < |cnt|
      ensures i in a + b
    {
      assert i in a || i in b;
    }
  }

  /** A prefix of length k of the live blocks is a good choice of helpers. */
  lemma PrefixHelps(groups: Partition, l: seq<nat>, failures: seq<nat>, k: nat, n: nat)
    requires NoRepeats(l) && |l| >= k && Concat(groups) == l[..k]
    requires forall a :: 0 <= a < |l| ==> l[a] < n && l[a] !in failures
    requires forall i :: 0 <= i < |groups| ==> groups[i] != []
    ensures HelpersOk(groups, failures, k, n)
  {
  }

  /**
   The helpers for repairing several blocks of one code: when only parities failed and they are to be
   re-encoded, all the data blocks; otherwise the first k live blocks, parts with failures first and
   larger parts before smaller. Each group is taken out of one part.
   */
  method HelpBlocksForMultiBlocksRepair(k: nat, m: nat, plan: Partition, failureIdxs: seq<nat>, partialScheme: bool)
    returns (parityIdxs: seq<nat>, helpBlocks: Partition)
    requires IsPartition(plan, k + m) && NoRepeats(failureIdxs) && |failureIdxs| <= m
    requires forall i :: 0 <= i < |failureIdxs| ==> failureIdxs[i] < k + m
    ensures HelpersOk(helpBlocks, failureIdxs, k, k + m)
    ensures ChosenFor(k, plan, failureIdxs, partialScheme, parityIdxs, helpBlocks)
  {
    hide LeadingParities, ParitiesOf, HelpersOk, IsPartition, GroupedByPart, GroupsFrom, RepairOrder, InRepairOrder, Concat;
    parityIdxs, helpBlocks := [], [];
    if |plan| == 0 {
      NothingToRepair(plan, k, m, failureIdxs);
      return;
    }
    var globalFlag := true;
    for t := 0 to |failureIdxs|
      invariant globalFlag && parityIdxs == failureIdxs[..t] && forall i :: 0 <= i < t ==> failureIdxs[i] >= k
    {
      if failureIdxs[t] < k {
        globalFlag := false;
        LeadingAre(failureIdxs, k, t);
        break;
      }
      parityIdxs := parityIdxs + [failureIdxs[t]];
    }
    if globalFlag {
      LeadingAre(failureIdxs, k, |failureIdxs|);
    }
    if globalFlag && !partialScheme {
      ghost var from;
      helpBlocks, from := DataHelpers(plan, k);
      NoneEmptyFrom(plan, helpBlocks, from);
      DataHelpersOk(helpBlocks, plan, k, k + m, failureIdxs);
      PartitionFacts(plan, k + m);
      GroupsByPart(plan, helpBlocks, from);
      return;
    }
    ghost var main, others;
    helpBlocks, parityIdxs, main, others := LiveHelpers(k, m, plan, failureIdxs, parityIdxs);
    assert FirstInOrder(k, plan, failureIdxs, Concat(helpBlocks));
  }

  lemma NothingToRepair(plan: Partition, k: nat, m: nat, failures: seq<nat>)
    requires IsPartition(plan, k + m) && |plan| == 0 && |failures| <= m
    ensures k == 0 && failures == [] && Concat([]) == []
    ensures HelpersOk([], failures, k, k + m) && LeadingParities(failures, k) == [] && ParitiesOf([], k) == []
    ensures GroupedByPart(plan, []) && DataOf(Concat(plan), k) == []
    ensures RepairOrder(plan, failures, [], []) && InRepairOrder(plan, failures, [], []) == []
  {
    assert k + m > 0 ==> 0 in Concat(plan);
  }

  /** The failed parities listed before the first failed data block. */
  function LeadingParities(failures: seq<nat>, k: nat): seq<nat> {
    if failures == [] || failures[0] < k then [] else [failures[0]] + LeadingParities(failures[1..], k)
  }

  lemma {:induction false} LeadingAre(failures: seq<nat>, k: nat, t: nat)
    requires t <= |failures| && (forall i :: 0 <= i < t ==> failures[i] >= k) && (t < |failures| ==> failures[t] < k)
    ensures LeadingParities(failures, k) == failures[..t]
  {
    if t > 0 {
      LeadingAre(failures[1..], k, t - 1);
    }
  }

  /** The listed parts' sizes are those they have. */
  lemma {:induction false} SizesListed(plan: Partition, cnt: seq<nat>, failed: bool, i: nat, x: (nat, nat))
    requires |cnt| == |plan| && i <= |plan| && x in PartsWith(plan, cnt, failed, i)
    ensures x.0 < |plan| && x.1 == |plan[x.0]|
  {
    if i > 0 && x in PartsWith(plan, cnt, failed, i - 1) {
      SizesListed(plan, cnt, failed, i - 1, x);
    }
  }

  lemma SortedBySize(copy: Partition, cnt: seq<nat>, failed: bool, sorted: seq<(nat, nat)>)
    requires |cnt| == |copy| && multiset(sorted) == multiset(PartsWith(copy, cnt, failed, |copy|)) && Descending(sorted)
    ensures (forall i :: 0 <= i < |sorted| ==> Firsts(sorted)[i] < |copy|) && BySize(copy, Firsts(sorted))
  {
    hide PartsWith;
    forall i | 0 <= i < |sorted|
      ensures sorted[i].0 < |copy| && sorted[i].1 == |copy[sorted[i].0]|
    {
      assert sorted[i] in multiset(PartsWith(copy, cnt, failed, |copy|));
      SizesListed(copy, cnt, failed, |copy|, sorted[i]);
    }
  }

  /** The parts with failures, larger first, and then the others, larger first. */
  method OrderParts(copy: Partition, failuresCnt: seq<nat>) returns (main: seq<nat>, others: seq<nat>)
    requires |failuresCnt| == |copy|
    ensures IsOrder(main + others, |copy|) && ListsParts(main, failuresCnt, true) && ListsParts(others, failuresCnt, false)
    ensures BySize(copy, main) && BySize(copy, others)
  {
    hide PartsWith, Descending, Firsts, ListsParts;
    var mainPairs, otherPairs := SplitParts(copy, failuresCnt);
    mainPairs := SortDescending(mainPairs);
    otherPairs := SortDescending(otherPairs);
    SortedRuns(copy, failuresCnt, mainPairs, otherPairs);
    SortedMembers(copy, failuresCnt, mainPairs, true);
    SortedMembers(copy, failuresCnt, otherPairs, false);
    SortedBySize(copy, failuresCnt, true, mainPairs);
    SortedBySize(copy, failuresCnt, false, otherPairs);
    main, others := Firsts(mainPairs), Firsts(otherPairs);
  }

  /** Takes k blocks from the parts listed first and then from those listed second. */
  method TakeInOrder(copy: Partition, main: seq<nat>, others: seq<nat>, k: nat, parity0: seq<nat>, ghost plan: Partition)
    returns (groups: Partition, parityIdxs: seq<nat>, ghost from: seq<nat>)
    requires (forall i :: 0 <= i < |main| ==> main[i] < |copy|) && (forall i :: 0 <= i < |others| ==> others[i] < |copy|)
    requires NoRepeats(main + others) && |copy| == |plan| && forall i :: 0 <= i < |plan| ==> forall x :: x in copy[i] ==> x in plan[i]
    requires |Concat(Arranged(copy, main)) + Concat(Arranged(copy, others))| >= k
    ensures Concat(groups) == (Concat(Arranged(copy, main)) + Concat(Arranged(copy, others)))[..k]
    ensures GroupsFrom(plan, groups, from)
    ensures parityIdxs == parity0 + ParitiesOf(Concat(groups), k)
  {
    hide ParitiesOf, Concat, GroupsFrom, PartsOf, NoRepeats;
    TwoRunsApart(main, others);
    NoGroups(plan);
    LeftOfParts(plan, copy, main);
    LeftOfParts(plan, copy, others);
    NoParitiesYet(parity0, k);
    groups, parityIdxs, from := TakeHelpers(Arranged(copy, main), k, k, [], parity0, parity0, plan, main, []);
    if |Concat(groups)| != k {
      groups, parityIdxs, from := TakeHelpers(Arranged(copy, others), k, k, groups, parityIdxs, parity0, plan, others, from);
    }
    TakeBoth(Concat(Arranged(copy, main)), Concat(Arranged(copy, others)), k, Concat(groups));
  }

  lemma NoParitiesYet(parity0: seq<nat>, k: nat)
    ensures Concat([]) == [] && parity0 == parity0 + ParitiesOf([], k)
  {
  }

  lemma LeftOfParts(plan: Partition, copy: Partition, order: seq<nat>)
    requires (forall i :: 0 <= i < |order| ==> order[i] < |copy|) && |copy| == |plan|
    requires forall i :: 0 <= i < |plan| ==> forall x :: x in copy[i] ==> x in plan[i]
    ensures PartsOf(plan, Arranged(copy, order), order)
  {
  }

  lemma TwoRunsApart(a: seq<nat>, b: seq<nat>)
    requires NoRepeats(a + b)
    ensures NoRepeats(a) && NoRepeats(b) && forall x :: x in a ==> x !in b
  {
    assert forall i :: 0 <= i < |a| ==> (a + b)[i] == a[i];
    assert forall i :: 0 <= i < |b| ==> (a + b)[|a| + i] == b[i];
    forall i, j | 0 <= i < |a| && 0 <= j < |b|
      ensures a[i] != b[j]
    {
      assert (a + b)[i] != (a + b)[|a| + j];
    }
  }

  /** First the parts with failures, by the number of their live blocks, and then the others. */
  ghost predicate RepairOrder(plan: Partition, failures: seq<nat>, main: seq<nat>, others: seq<nat>) {
    && IsOrder(main + others, |plan|)
    && (forall i :: 0 <= i < |main| ==> main[i] < |plan| && HoldsFailure(plan[main[i]], failures))
    && (forall i :: 0 <= i < |others| ==> others[i] < |plan| && !HoldsFailure(plan[others[i]], failures))
    && BySize(Live(plan, failures), main) && BySize(Live(plan, failures), others)
  }

  lemma OrderIsRepairOrder(plan: Partition, failures: seq<nat>, cnt: seq<nat>, main: seq<nat>, others: seq<nat>)
    requires CountsFailures(plan, failures, cnt) && IsOrder(main + others, |plan|)
    requires ListsParts(main, cnt, true) && ListsParts(others, cnt, false)
    requires BySize(Live(plan, failures), main) && BySize(Live(plan, failures), others)
    ensures RepairOrder(plan, failures, main, others)
  {
    hide BySize, HoldsFailure, IsOrder, Live;
  }

  /** The live blocks, part after part in the order of the repair. */
  ghost function InRepairOrder(plan: Partition, failures: seq<nat>, main: seq<nat>, others: seq<nat>): seq<nat>
    requires RepairOrder(plan, failures, main, others)
  {
    Concat(Arranged(Live(plan, failures), main)) + Concat(Arranged(Live(plan, failures), others))
  }

  /**
   The choice of helpers for several failed blocks. Failed parities that are to be re-encoded get the data
   blocks; otherwise the first k live blocks in the order of the repair. The groups follow the parts. Listed
   beside are the failed parities up to the first failed data block, and the parities among the helpers.
   */
  ghost predicate ChosenFor(k: nat, plan: Partition, failures: seq<nat>, partialScheme: bool, parityIdxs: seq<nat>,
                            groups: Partition) {
    && GroupedByPart(plan, groups)
    && if (forall i :: 0 <= i < |failures| ==> failures[i] >= k) && !partialScheme
       then parityIdxs == failures && Concat(groups) == DataOf(Concat(plan), k)
       else parityIdxs == LeadingParities(failures, k) + ParitiesOf(Concat(groups), k) && FirstInOrder(k, plan, failures, Concat(groups))
  }

  ghost predicate FirstInOrder(k: nat, plan: Partition, failures: seq<nat>, helpers: seq<nat>) {
    exists main, others :: RepairOrder(plan, failures, main, others) && k <= |InRepairOrder(plan, failures, main, others)|
                           && helpers == InRepairOrder(plan, failures, main, others)[..k]
  }

  /** The first k live blocks, parts with failures first and larger parts before smaller. */
  method LiveHelpers(k: nat, m: nat, plan: Partition, failureIdxs: seq<nat>, parity0: seq<nat>)
    returns (helpBlocks: Partition, parityIdxs: seq<nat>, ghost main: seq<nat>, ghost others: seq<nat>)
    requires IsPartition(plan, k + m) && NoRepeats(failureIdxs) && |failureIdxs| <= m
    requires forall i :: 0 <= i < |failureIdxs| ==> failureIdxs[i] < k + m
    ensures HelpersOk(helpBlocks, failureIdxs, k, k + m) && GroupedByPart(plan, helpBlocks)
    ensures RepairOrder(plan, failureIdxs, main, others) && k <= |InRepairOrder(plan, failureIdxs, main, others)|
    ensures Concat(helpBlocks) == InRepairOrder(plan, failureIdxs, main, others)[..k]
    ensures parityIdxs == parity0 + ParitiesOf(Concat(helpBlocks), k)
  {
    hide Live, CountsFailures, BySize, GroupsFrom, ListsParts, IsOrder, ParitiesOf, HelpersOk, GroupedByPart, RepairOrder, Concat;
    PartitionFacts(plan, k + m);
    var copy, failuresCnt := RemoveFailures(plan, failureIdxs);
    var mainParts, otherParts := OrderParts(copy, failuresCnt);
    main, others := mainParts, otherParts;
    OrderIsRepairOrder(plan, failureIdxs, failuresCnt, main, others);
    OrderedLive(plan, k + m, failureIdxs, main, others);
    OrderNoRepeats(main + others, |plan|);
    LiveInParts(plan, failureIdxs);
    ghost var from;
    helpBlocks, parityIdxs, from := TakeInOrder(copy, mainParts, otherParts, k, parity0, plan);
    GroupsByPart(plan, helpBlocks, from);
    NoneEmptyFrom(plan, helpBlocks, from);
    PrefixHelps(helpBlocks, Concat(Arranged(copy, main)) + Concat(Arranged(copy, others)), failureIdxs, k, k + m);
  }

  lemma PartitionFacts(plan: Partition, n: nat)
    requires IsPartition(plan, n)
    ensures NoRepeats(Concat(plan))
  {
  }

  lemma OrderNoRepeats(order: seq<nat>, n: nat)
    requires IsOrder(order, n)
    ensures NoRepeats(order)
  {
  }

  lemma NoneEmptyFrom(plan: Partition, groups: Partition, from: seq<nat>)
    requires GroupsFrom(plan, groups, from)
    ensures forall i :: 0 <= i < |groups| ==> groups[i] != []
  {
  }

  lemma LiveInParts(plan: Partition, failures: seq<nat>)
    ensures |Live(plan, failures)| == |plan|
    ensures forall i :: 0 <= i < |plan| ==> forall x :: x in Live(plan, failures)[i] ==> x in plan[i]
  {
    forall i, x | 0 <= i < |plan| && x in Live(plan, failures)[i]
      ensures x in plan[i]
    {
      LiveIsIn(plan, failures, i, x);
    }
  }

  /** Taking from one list and then, if still short, from the next is taking from both in sequence. */
  lemma TakeBoth(a: seq<nat>, b: seq<nat>, k: nat, taken: seq<nat>)
    requires |a + b| >= k
    requires var first := a[..Min(k, |a|)];
             taken == if |first| == k then first else first + b[..Min(k - |first|, |b|)]
    ensures taken == (a + b)[..k]
  {
  }

  lemma OrderedLive(plan: Partition, n: nat, failures: seq<nat>, a: seq<nat>, b: seq<nat>)
    requires IsPartition(plan, n) && NoRepeats(failures) && forall i :: 0 <= i < |failures| ==> failures[i] < n
    requires IsOrder(a + b, |plan|)
    ensures forall i :: 0 <= i < |a| ==> a[i] < |plan|
    ensures forall i :: 0 <= i < |b| ==> b[i] < |plan|
    ensures var l := Concat(Arranged(Live(plan, failures), a)) + Concat(Arranged(Live(plan, failures), b));
            && NoRepeats(l) && |l| == n - |failures|
            && forall i :: 0 <= i < |l| ==> l[i] < n && l[i] !in failures
  {
    LiveBlocks(plan, n, failures, a + b);
    SplitOrder(a, b, |plan|);
    ArrangedTwice(Live(plan, failures), a, b);
  }

  lemma SplitOrder(a: seq<nat>, b: seq<nat>, n: nat)
    requires forall i :: 0 <= i < |a + b| ==> (a + b)[i] < n
    ensures forall i :: 0 <= i < |a| ==> a[i] < n
    ensures forall i :: 0 <= i < |b| ==> b[i] < n
  {
    assert forall i :: 0 <= i < |a| ==> a[i] == (a + b)[i];
    assert forall i :: 0 <= i < |b| ==> b[i] == (a + b)[|a| + i];
  }
}

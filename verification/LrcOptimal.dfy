/**
 The optimal partition of an Azure stripe: full parts cut from each group, the groups' left-over ends put
 together θ at a time, and the global parities with them or on their own.
 */
module LrcOptimal {
  import opened Listing
  import opened Partitions
  import opened RowMajor
  import opened LrcShape
  import opened LrcDecodable
  import opened LrcPartition

  /** Every group holds data, and all but the last hold r blocks. */
  ghost predicate Tight(c: Lrc) {
    AzureOk(c) && c.g >= 1 && (c.l - 1) * R(c) < c.k
  }

  lemma TightFacts(c: Lrc)
    requires Tight(c)
    ensures AzureOk(c) && LrcOk(c) && c.g >= 1 && c.l >= 1
  {
  }

  lemma TightSizes(c: Lrc, i: nat)
    requires Tight(c) && i < c.l
    ensures i < c.l - 1 ==> DataSize(c, i) == R(c)
    ensures i == c.l - 1 ==> DataSize(c, i) == c.k - (c.l - 1) * R(c)
  {
    RBounds(c);
    assert (i + 1) * R(c) == i * R(c) + R(c);
    if i < c.l - 1 {
      Monotone(i + 1, c.l - 1, R(c));
    }
  }

  /** What a regular group leaves over, and how many such ends may share a part. */
  function Ends(c: Lrc): nat
    requires AzureOk(c)
  {
    (R(c) + 1) % (c.g + 1)
  }

  /** The most regular ends of more than one block whose loss the global parities can make good. */
  function Theta(c: Lrc): (theta: nat)
    requires AzureOk(c)
    ensures Ends(c) > 1 ==> theta * (Ends(c) - 1) <= c.g < (theta + 1) * (Ends(c) - 1)
    ensures Ends(c) <= 1 ==> theta == c.l
  {
    if Ends(c) > 1 then c.g / (Ends(c) - 1) else c.l
  }

  /** Up to θ ends of q blocks leave at most g data failures over. */
  lemma ThetaFits(c: Lrc, n: nat)
    requires AzureOk(c) && c.g >= 1
    ensures Theta(c) >= 1 && Ends(c) <= c.g
    ensures Ends(c) >= 1 && n <= Theta(c) ==> n * (Ends(c) - 1) <= c.g
  {
    var q := Ends(c);
    if q > 1 {
      var theta := c.g / (q - 1);
      assert theta * (q - 1) <= c.g < theta * (q - 1) + (q - 1);
      if n <= theta {
        Monotone(n, theta, q - 1);
      }
    }
  }

  /**
   When every part of the optimal partition can be lost: with equal groups always; otherwise the end of
   the last group must fit beside the regular ends that share its part, and with single-block ends, where
   the global parities share the part too, it must not hold any data.
   */
  predicate OptimalIsSafe(c: Lrc)
    requires AzureOk(c)
  {
    var q, last := Ends(c), RestSize(c, c.l - 1);
    if q == 0 then true
    else if q == 1 then last <= 1
    else last == 0 || (Theta(c) > 0 && ((c.l - 1) % Theta(c)) * (q - 1) + (last - 1) <= c.g)
  }

  // What a part asks of the global parities.

  ghost predicate Untouched(c: Lrc, s: seq<nat>, i: nat)
    requires LrcOk(c)
  {
    DataFailures(c, s, i) == 0 && LocalFailures(c, s, i) == 0
  }

  lemma {:induction false} NeedConcat(c: Lrc, s: seq<nat>, t: seq<nat>, n: nat)
    requires AzureOk(c) && forall i :: 0 <= i < n ==> Untouched(c, s, i) || Untouched(c, t, i)
    ensures TotalNeed(c, s + t, n) == TotalNeed(c, s, n) + TotalNeed(c, t, n)
  {
    hide GroupLo, R;
    if n > 0 {
      var i := n - 1;
      NeedConcat(c, s, t, i);
      CountConcat(s, t, GroupLo(c, i), GroupLo(c, n));
      CountConcat(s, t, c.k + c.g + i, c.k + c.g + i + 1);
      assert Untouched(c, s, i) || Untouched(c, t, i);
    }
  }

  lemma UntouchedConcat(c: Lrc, s: seq<nat>, t: seq<nat>, i: nat)
    requires AzureOk(c) && Untouched(c, s, i) && Untouched(c, t, i)
    ensures Untouched(c, s + t, i)
  {
    CountConcat(s, t, GroupLo(c, i), GroupLo(c, i + 1));
    CountConcat(s, t, c.k + c.g + i, c.k + c.g + i + 1);
  }

  /** The data part of a tail is counted in its own group only. */
  lemma TailCounts(c: Lrc, i: nat, t: nat, j: nat)
    requires AzureOk(c) && i < c.l && 1 <= t <= DataSize(c, i) + 1 && j < c.l
    ensures GlobalFailures(c, Tail(c, i, t)) == 0
    ensures j != i ==> Untouched(c, Tail(c, i, t), j)
    ensures j == i ==> DataFailures(c, Tail(c, i, t), i) == t - 1 && LocalFailures(c, Tail(c, i, t), i) == 1
  {
    hide GroupLo, CountIn;
    GroupLoGrows(c, i);
    GroupLoGrows(c, j);
    var lo, hi, p := GroupLo(c, i + 1) - (t - 1), GroupLo(c, i + 1), c.k + c.g + i;
    var d := Range(lo, hi);
    forall b | 0 <= b < |d|
      ensures (GroupLo(c, j) <= d[b] < GroupLo(c, j + 1)) <==> i == j
    {
      GroupRange(c, d[b], i);
      GroupRange(c, d[b], j);
    }
    CountEnded(d, p, c.k, c.k + c.g);
    CountEnded(d, p, GroupLo(c, j), GroupLo(c, j + 1));
    CountEnded(d, p, c.k + c.g + j, c.k + c.g + j + 1);
  }

  lemma CountEnded(d: seq<nat>, p: nat, lo: int, hi: int)
    ensures (forall i :: 0 <= i < |d| ==> lo <= d[i] < hi) ==> CountIn(d + [p], lo, hi) == |d| + if lo <= p < hi then 1 else 0
    ensures (forall i :: 0 <= i < |d| ==> !(lo <= d[i] < hi)) ==> CountIn(d + [p], lo, hi) == if lo <= p < hi then 1 else 0
  {
    hide CountIn;
    CountConcat(d, [p], lo, hi);
    CountWhole(d, lo, hi);
    CountWhole([p], lo, hi);
  }

  lemma {:induction false} TailNeed(c: Lrc, i: nat, t: nat, n: nat)
    requires AzureOk(c) && i < c.l && 1 <= t <= DataSize(c, i) + 1 && n <= c.l
    ensures TotalNeed(c, Tail(c, i, t), n) == if i < n then t - 1 else 0
  {
    if n > 0 {
      TailNeed(c, i, t, n - 1);
      TailCounts(c, i, t, n - 1);
    }
  }

  /** The regular ends of groups a to b. */
  ghost predicate RunOk(c: Lrc, a: nat, b: nat) { Tight(c) && Ends(c) >= 1 && a <= b < c.l }

  lemma EndFits(c: Lrc, x: nat)
    requires Tight(c) && x < c.l - 1
    ensures Ends(c) <= DataSize(c, x) + 1 && RestSize(c, x) == Ends(c)
  {
    TightSizes(c, x);
    RestFits(c, x);
  }

  ghost function TailRun(c: Lrc, a: nat, b: nat): (r: seq<seq<nat>>)
    requires RunOk(c, a, b)
    ensures |r| == b - a
    decreases b - a
  {
    if a == b then []
    else
      EndFits(c, b - 1);
      TailRun(c, a, b - 1) + [Tail(c, b - 1, Ends(c))]
  }

  /** The list asks for `need` global parities and touches no group from b on. */
  ghost predicate Asks(c: Lrc, s: seq<nat>, need: nat, b: nat)
    requires LrcOk(c)
  {
    && TotalNeed(c, s, c.l) == need && GlobalFailures(c, s) == 0
    && forall j :: b <= j < c.l ==> Untouched(c, s, j)
  }

  /** What n regular ends ask for. */
  ghost function EndsNeed(c: Lrc, n: nat): nat
    requires AzureOk(c) && Ends(c) >= 1
  {
    n * (Ends(c) - 1)
  }

  lemma EndsNeedNext(c: Lrc, n: nat)
    requires AzureOk(c) && Ends(c) >= 1
    ensures EndsNeed(c, 0) == 0 && EndsNeed(c, n + 1) == EndsNeed(c, n) + (Ends(c) - 1)
  {
    OneMore(n, Ends(c) - 1);
  }

  lemma OneMore(n: nat, q: nat)
    ensures (n + 1) * q == n * q + q
  {
  }

  lemma {:induction false} RunLoad(c: Lrc, a: nat, b: nat)
    requires RunOk(c, a, b) && a <= b && AzureOk(c) && LrcOk(c) && Ends(c) >= 1
    ensures Asks(c, Concat(TailRun(c, a, b)), EndsNeed(c, b - a), b)
    decreases b - a
  {
    hide *;
    if a == b {
      EmptyRun(c, a);
    } else {
      RunLast(c, a, b);
      RunLoad(c, a, b - 1);
      ConcatSnoc(TailRun(c, a, b - 1), Tail(c, b - 1, Ends(c)));
      AddTail(c, Concat(TailRun(c, a, b - 1)), b - 1, Ends(c), EndsNeed(c, b - 1 - a));
      EndsNeedNext(c, b - 1 - a);
    }
  }

  lemma EmptyRun(c: Lrc, a: nat)
    requires RunOk(c, a, a) && AzureOk(c) && Ends(c) >= 1
    ensures Asks(c, Concat(TailRun(c, a, a)), EndsNeed(c, 0), a)
  {
    NothingLost(c, c.l);
  }

  lemma RunLast(c: Lrc, a: nat, b: nat)
    requires RunOk(c, a, b) && a < b
    ensures RunOk(c, a, b - 1) && AzureOk(c) && b - 1 < c.l && 1 <= Ends(c) <= DataSize(c, b - 1) + 1
    ensures TailRun(c, a, b) == TailRun(c, a, b - 1) + [Tail(c, b - 1, Ends(c))]
    ensures LrcOk(c)
  {
    EndFits(c, b - 1);
  }

  lemma {:induction false} NothingLost(c: Lrc, n: nat)
    requires AzureOk(c)
    ensures TotalNeed(c, [], n) == 0 && GlobalFailures(c, []) == 0
    ensures forall j: nat :: Untouched(c, [], j)
  {
    if n > 0 {
      NothingLost(c, n - 1);
    }
  }

  /** The end of one more group, none of whose blocks were lost before. */
  lemma AddTail(c: Lrc, s: seq<nat>, i: nat, t: nat, need: nat)
    requires AzureOk(c) && i < c.l && 1 <= t <= DataSize(c, i) + 1 && Asks(c, s, need, i)
    ensures var next := i + 1; Asks(c, s + Tail(c, i, t), need + (t - 1), next)
  {
    var tail := Tail(c, i, t);
    hide Tail, DataFailures, LocalFailures;
    forall j | 0 <= j < c.l && j != i
      ensures Untouched(c, tail, j)
    {
      TailCounts(c, i, t, j);
    }
    NeedConcat(c, s, tail, c.l);
    TailNeed(c, i, t, c.l);
    TailCounts(c, i, t, i);
    CountConcat(s, tail, c.k, c.k + c.g);
    forall j | i < j < c.l
      ensures Untouched(c, s + tail, j)
    {
      UntouchedConcat(c, s, tail, j);
    }
  }

  /** Losing the global parities as well asks for g more. */
  lemma AddGlobals(c: Lrc, s: seq<nat>)
    requires AzureOk(c)
    ensures Load(c, s + Range(c.k, c.k + c.g)) == Load(c, s) + c.g
  {
    var t := Range(c.k, c.k + c.g);
    forall j | 0 <= j < c.l
      ensures Untouched(c, t, j)
    {
      GroupLoGrows(c, j);
      CountWhole(t, GroupLo(c, j), GroupLo(c, j + 1));
      CountWhole(t, c.k + c.g + j, c.k + c.g + j + 1);
    }
    NeedConcat(c, s, t, c.l);
    NeedUntouched(c, t, c.l);
    CountConcat(s, t, c.k, c.k + c.g);
    CountWhole(t, c.k, c.k + c.g);
  }

  lemma {:induction false} NeedUntouched(c: Lrc, t: seq<nat>, n: nat)
    requires AzureOk(c) && forall j :: 0 <= j < n ==> Untouched(c, t, j)
    ensures TotalNeed(c, t, n) == 0
  {
    if n > 0 {
      NeedUntouched(c, t, n - 1);
      assert Untouched(c, t, n - 1);
    }
  }

  // The left-over ends as one list.

  lemma {:induction false} RegularRests(c: Lrc, n: nat)
    requires Tight(c) && n < c.l
    ensures Ends(c) == 0 ==> Rests(c, n) == []
    ensures Ends(c) >= 1 ==> Rests(c, n) == TailRun(c, 0, n)
  {
    if n > 0 {
      RegularRests(c, n - 1);
      EndFits(c, n - 1);
    }
  }

  lemma {:induction false} RunSlice(c: Lrc, a: nat, b: nat)
    requires RunOk(c, a, b)
    ensures TailRun(c, 0, b)[a..] == TailRun(c, a, b)
    decreases b - a
  {
    if a < b {
      RunSlice(c, a, b - 1);
    }
  }

  lemma {:induction false} RunPrefix(c: Lrc, a: nat, b: nat)
    requires RunOk(c, a, b)
    ensures TailRun(c, 0, b)[..a] == TailRun(c, 0, a)
    decreases b - a
  {
    if a < b {
      RunPrefix(c, a, b - 1);
      assert TailRun(c, 0, b)[..a] == TailRun(c, 0, b - 1)[..a];
    }
  }

  lemma {:induction false} RestsPositive(c: Lrc, n: nat)
    requires AzureOk(c)
    ensures |Rests(c, n)| <= n && forall x :: 0 <= x < |Rests(c, n)| ==> Rests(c, n)[x] != []
  {
    if n > 0 {
      RestsPositive(c, n - 1);
      RestFits(c, n - 1);
    }
  }

  /** All the ends: the regular ones, and that of the last group if it has one. */
  lemma AllRests(c: Lrc)
    requires Tight(c)
    ensures var t, r := RestSize(c, c.l - 1), c.l - 1;
            && t <= DataSize(c, c.l - 1) + 1 && t <= c.g
            && Rests(c, c.l) == (if Ends(c) == 0 then [] else TailRun(c, 0, r)) + (if t == 0 then [] else [Tail(c, r, t)])
  {
    RegularRests(c, c.l - 1);
    RestFits(c, c.l - 1);
  }

  // Merging the ends.

  /** The parts made of the ends from i on, theta at a time. */
  ghost function MergedFrom(rests: seq<seq<nat>>, theta: nat, i: nat): Partition
    requires theta >= 1
    decreases |rests| - i
  {
    if i >= |rests| then []
    else [Concat(rests[i..if i + theta <= |rests| then i + theta else |rests|])] + MergedFrom(rests, theta, i + theta)
  }

  /** Puts theta ends together to a part. */
  method MergeRests(remaining: seq<seq<nat>>, theta: nat, plan0: Partition) returns (plan: Partition)
    requires theta >= 1
    ensures plan == plan0 + MergedFrom(remaining, theta, 0)
  {
    plan := plan0;
    var i := 0;
    while i < |remaining|
      invariant plan + MergedFrom(remaining, theta, i) == plan0 + MergedFrom(remaining, theta, 0)
    {
      var part: seq<nat> := [];
      var j := i;
      while j < i + theta && j < |remaining|
        invariant i <= j <= |remaining| && j <= i + theta && part == Concat(remaining[i..j])
      {
        assert remaining[i..j + 1] == remaining[i..j] + [remaining[j]];
        ConcatSnoc(remaining[i..j], remaining[j]);
        part := part + remaining[j];
        j := j + 1;
      }
      plan := plan + [part];
      i := i + theta;
    }
  }

  /** Merging neither loses nor reorders blocks, and makes no empty part. */
  lemma {:induction false} MergedHolds(rests: seq<seq<nat>>, theta: nat, i: nat)
    requires theta >= 1 && i <= |rests| + theta && forall x :: 0 <= x < |rests| ==> rests[x] != []
    ensures i <= |rests| ==> Concat(MergedFrom(rests, theta, i)) == Concat(rests[i..])
    ensures NoneEmpty(MergedFrom(rests, theta, i))
    decreases |rests| + theta - i
  {
    hide Concat;
    if i >= |rests| {
      assert i == |rests| ==> rests[i..] == [];
    } else {
      var b := if i + theta <= |rests| then i + theta else |rests|;
      MergedHolds(rests, theta, i + theta);
      FirstMerged(rests, i, b, MergedFrom(rests, theta, i + theta));
    }
  }

  /** The rests from i to b as one part, in front of what is made of the others. */
  lemma FirstMerged(rests: seq<seq<nat>>, i: nat, b: nat, later: Partition)
    requires i < b <= |rests| && forall x :: 0 <= x < |rests| ==> rests[x] != []
    ensures (if b < |rests| then Concat(later) == Concat(rests[b..]) else later == [] || Concat(later) == []) ==>
              Concat([Concat(rests[i..b])] + later) == Concat(rests[i..])
    ensures Concat(rests[i..b]) != []
  {
    hide Concat;
    ConcatTwo([Concat(rests[i..b])], later);
    ConcatSnoc([], Concat(rests[i..b]));
    assert [] + [Concat(rests[i..b])] == [Concat(rests[i..b])];
    assert rests[i..] == rests[i..b] + rests[b..];
    ConcatTwo(rests[i..b], rests[b..]);
    assert rests[i..b] == rests[i..b - 1] + [rests[b - 1]];
    ConcatSnoc(rests[i..b - 1], rests[b - 1]);
    NothingJoined(rests[b..], later);
  }

  lemma NothingJoined(a: Partition, b: Partition)
    ensures Concat([]) == [] && (a == [] ==> Concat(a) == []) && (b == [] ==> Concat(b) == [])
  {
  }

  lemma AsksLoad(c: Lrc, s: seq<nat>, need: nat, b: nat)
    requires LrcOk(c) && Asks(c, s, need, b)
    ensures Load(c, s) == need
  {
  }

  /** A part made of regular ends, and a part that also has the last group's end. */
  lemma RegularPartLoad(c: Lrc, a: nat, b: nat)
    requires RunOk(c, a, b) && b <= |Rests(c, c.l)|
    ensures AzureOk(c) && Ends(c) >= 1 && Load(c, Concat(Rests(c, c.l)[a..b])) == EndsNeed(c, b - a)
  {
    AllRests(c);
    var r := c.l - 1;
    assert Rests(c, c.l)[a..b] == TailRun(c, 0, r)[..b][a..];
    RunPrefix(c, b, r);
    RunSlice(c, a, b);
    RunLoad(c, a, b);
    AsksLoad(c, Concat(TailRun(c, a, b)), EndsNeed(c, b - a), b);
  }

  lemma LastPart(c: Lrc, a: nat)
    requires Tight(c) && RunOk(c, a, c.l - 1) && RestSize(c, c.l - 1) > 0 && a < |Rests(c, c.l)|
    ensures Ends(c) >= 1 && |Rests(c, c.l)| == c.l && RestSize(c, c.l - 1) <= DataSize(c, c.l - 1) + 1
    ensures Rests(c, c.l)[a..] == TailRun(c, a, c.l - 1) + [Tail(c, c.l - 1, RestSize(c, c.l - 1))]
  {
    AllRests(c);
    RunSlice(c, a, c.l - 1);
  }

  lemma LastPartLoad(c: Lrc, a: nat)
    requires Tight(c) && RunOk(c, a, c.l - 1) && RestSize(c, c.l - 1) > 0 && a < |Rests(c, c.l)|
    ensures |Rests(c, c.l)| == c.l && Ends(c) >= 1
    ensures Load(c, Concat(Rests(c, c.l)[a..])) == EndsNeed(c, c.l - 1 - a) + (RestSize(c, c.l - 1) - 1)
  {
    hide *;
    TightFacts(c);
    LastPart(c, a);
    var r, t := c.l - 1, RestSize(c, c.l - 1);
    ConcatSnoc(TailRun(c, a, r), Tail(c, r, t));
    RunLoad(c, a, r);
    AddTail(c, Concat(TailRun(c, a, r)), r, t, EndsNeed(c, r - a));
    AsksLoad(c, Concat(TailRun(c, a, r)) + Tail(c, r, t), EndsNeed(c, r - a) + (t - 1), c.l);
  }

  lemma AllDecodableFirst(c: Lrc, part: seq<nat>, rest: Partition)
    requires LrcOk(c)
    ensures AllDecodable(c, [part] + rest) <==> Decodable(c, part) && AllDecodable(c, rest)
  {
    var plan := [part] + rest;
    assert plan[0] == part && forall i :: 0 <= i < |rest| ==> plan[i + 1] == rest[i];
  }

  ghost predicate LastFits(c: Lrc)
    requires AzureOk(c) && Theta(c) >= 1 && Ends(c) >= 1
  {
    var t := RestSize(c, c.l - 1);
    t == 0 || EndsNeed(c, (c.l - 1) % Theta(c)) + (t - 1) <= c.g
  }

  lemma MergedStep(rests: seq<seq<nat>>, theta: nat, i: nat)
    requires theta >= 1 && i < |rests|
    ensures var b := if i + theta <= |rests| then i + theta else |rests|;
            MergedFrom(rests, theta, i) == [Concat(rests[i..b])] + MergedFrom(rests, theta, i + theta)
  {
  }

  lemma MergedEnd(c: Lrc, rests: seq<seq<nat>>, theta: nat, i: nat)
    requires LrcOk(c) && theta >= 1 && i >= |rests|
    ensures AllDecodable(c, MergedFrom(rests, theta, i))
  {
  }

  /** With ends of two blocks or more the merged parts can all be lost exactly when the last one can. */
  lemma {:induction false} MergedSafe(c: Lrc, i: nat, steps: nat)
    requires Tight(c) && AzureOk(c) && LrcOk(c) && Ends(c) >= 2 && Theta(c) >= 1 && i == steps * Theta(c)
    ensures AllDecodable(c, MergedFrom(Rests(c, c.l), Theta(c), i)) <==> i >= |Rests(c, c.l)| || LastFits(c)
    decreases |Rests(c, c.l)| + Theta(c) - i
  {
    hide *;
    var rests, theta := Rests(c, c.l), Theta(c);
    RestsPositive(c, c.l);
    if i >= |rests| {
      MergedEnd(c, rests, theta, i);
    } else {
      var b := if i + theta <= |rests| then i + theta else |rests|;
      OneMore(steps, theta);
      MergedSafe(c, i + theta, steps + 1);
      MergedStep(rests, theta, i);
      AllDecodableFirst(c, Concat(rests[i..b]), MergedFrom(rests, theta, i + theta));
      MergedPartSafe(c, i, b, steps);
    }
  }

  /** One merged part: harmless when it has regular ends only, and otherwise the one to look at. */
  lemma MergedPartSafe(c: Lrc, i: nat, b: nat, steps: nat)
    requires Tight(c) && AzureOk(c) && LrcOk(c) && Ends(c) >= 2 && Theta(c) >= 1 && i == steps * Theta(c)
    requires i < b <= |Rests(c, c.l)| <= c.l && b - i <= Theta(c)
    ensures b < c.l ==> Decodable(c, Concat(Rests(c, c.l)[i..b]))
    ensures b == c.l ==> (Decodable(c, Concat(Rests(c, c.l)[i..b])) <==> LastFits(c))
    ensures |Rests(c, c.l)| < c.l ==> LastFits(c)
  {
    AllRests(c);
    if b < c.l {
      ThetaFits(c, b - i);
      RegularPartLoad(c, i, b);
    } else {
      assert Rests(c, c.l)[i..b] == Rests(c, c.l)[i..];
      LastPartLoad(c, i);
      RowColOfPos(steps, c.l - 1 - i, Theta(c));
      assert c.l - 1 == Pos(steps, c.l - 1 - i, Theta(c));
    }
  }

  // The whole partition.

  /** Parts that list the full parts' blocks, then the left-over ends' blocks, then the global parities. */
  ghost predicate NoneEmpty(p: Partition) {
    forall i :: 0 <= i < |p| ==> p[i] != []
  }

  lemma PartsNotEmpty(p: Partition)
    requires NoneEmpty(p)
    ensures forall i :: 0 <= i < |p| ==> p[i] != []
  {
  }

  lemma PlanIsPartition(c: Lrc, plan: Partition, chunks: Partition, rests: seq<seq<nat>>, groups: seq<seq<nat>>)
    requires AzureOk(c) && |groups| == c.l && GroupsAre(c, groups)
    requires SameBlocks(Concat(chunks) + Concat(rests), Concat(groups))
    requires Concat(plan) == (Concat(chunks) + Concat(rests)) + Range(c.k, c.k + c.g)
    requires NoneEmpty(plan)
    ensures IsPartition(plan, BlockNum(c))
  {
    hide *;
    PartsNotEmpty(plan);
    AllBlocksHeld(c, groups);
    SameAppend(Concat(chunks) + Concat(rests), Concat(groups), Range(c.k, c.k + c.g));
    SameThrough(Concat(plan), Concat(groups) + Range(c.k, c.k + c.g), UpTo(BlockNum(c)));
    Rearranged(plan, BlockNum(c));
  }

  lemma OnePart(c: Lrc, part: seq<nat>)
    requires AzureOk(c)
    ensures AllDecodable(c, [part]) <==> Decodable(c, part)
  {
    assert [part][0] == part;
  }

  /** Full parts can always be lost, so what matters is the rest of the plan. */
  lemma ChunksDecodable(c: Lrc, chunks: Partition, rest: Partition)
    requires AzureOk(c) && SmallParts(chunks, c.g + 1) && IsPartition(chunks + rest, BlockNum(c))
    ensures AllDecodable(c, chunks + rest) <==> AllDecodable(c, rest)
  {
    var plan := chunks + rest;
    forall i | 0 <= i < |chunks|
      ensures Decodable(c, plan[i])
    {
      PartOf(plan, BlockNum(c), i);
      SmallFailuresDecodable(c, plan[i]);
    }
    assert forall i :: 0 <= i < |rest| ==> plan[|chunks| + i] == rest[i];
    if AllDecodable(c, plan) {
      forall i | 0 <= i < |rest|
        ensures Decodable(c, rest[i])
      {
        assert Decodable(c, plan[|chunks| + i]);
      }
    }
  }

  lemma GlobalsDecodable(c: Lrc, merged: Partition)
    requires AzureOk(c)
    ensures AllDecodable(c, merged + [Range(c.k, c.k + c.g)]) <==> AllDecodable(c, merged)
  {
    var globals := Range(c.k, c.k + c.g);
    NothingLost(c, c.l);
    AddGlobals(c, []);
    assert [] + globals == globals;
    var plan := merged + [globals];
    assert plan[|merged|] == globals && forall i :: 0 <= i < |merged| ==> plan[i] == merged[i];
  }

  /** The global parities join the last part exactly when the regular ends are single blocks. */
  lemma JoinsWhenSingle(c: Lrc)
    requires Tight(c)
    ensures R(c) % (c.g + 1) == 0 <==> Ends(c) == 1
    ensures Ends(c) >= 1 ==> Rests(c, c.l) != []
  {
    AllRests(c);
    ModNext(R(c), c.g + 1);
    if c.l == 1 {
      TightSizes(c, 0);
    }
  }

  lemma ModNext(n: nat, w: nat)
    requires w >= 2
    ensures n % w == 0 <==> (n + 1) % w == 1
  {
    var q, d := n / w, n % w;
    RowColOfPos(q, d, w);
    assert n == Pos(q, d, w);
    if d + 1 < w {
      RowColOfPos(q, d + 1, w);
      assert n + 1 == Pos(q, d + 1, w);
    } else {
      RowColOfPos(q + 1, 0, w);
      OneMore(q, w);
      assert n + 1 == Pos(q + 1, 0, w);
    }
  }

  /** With single-block ends and the global parities in one part, the last end must have no data. */
  lemma JoinedSafe(c: Lrc)
    requires Tight(c) && Ends(c) == 1
    ensures MergedFrom(Rests(c, c.l), Theta(c), 0) == [Concat(Rests(c, c.l))]
    ensures Decodable(c, Concat(Rests(c, c.l)) + Range(c.k, c.k + c.g)) <==> OptimalIsSafe(c)
  {
    var rests, t := Rests(c, c.l), RestSize(c, c.l - 1);
    JoinsWhenSingle(c);
    RestsPositive(c, c.l);
    assert rests[0..|rests|] == rests && rests[0..] == rests;
    AddGlobals(c, Concat(rests));
    AllRests(c);
    if t == 0 {
      RegularPartLoad(c, 0, c.l - 1);
    } else {
      LastPartLoad(c, 0);
    }
  }

  lemma TailDecodable(c: Lrc, i: nat, t: nat)
    requires AzureOk(c) && i < c.l && 1 <= t <= DataSize(c, i) + 1 && t <= c.g + 1
    ensures Decodable(c, Tail(c, i, t))
  {
    TailNeed(c, i, t, c.l);
    TailCounts(c, i, t, i);
  }

  /** A single left-over end, with data of one group and its parity, can be lost. */
  lemma OneEndSafe(c: Lrc, t: nat)
    requires AzureOk(c) && 1 <= t <= DataSize(c, c.l - 1) + 1 && t <= c.g + 1 && Theta(c) >= 1
    ensures AllDecodable(c, MergedFrom([Tail(c, c.l - 1, t)], Theta(c), 0))
  {
    hide *;
    AzureFacts(c);
    var tail, theta := Tail(c, c.l - 1, t), Theta(c);
    TailDecodable(c, c.l - 1, t);
    assert [tail][0..1] == [tail];
    ConcatOne(tail);
    MergedStep([tail], theta, 0);
    MergedEnd(c, [tail], theta, theta);
    AllDecodableFirst(c, tail, MergedFrom([tail], theta, theta));
  }

  lemma ConcatOne(part: seq<nat>)
    ensures Concat([part]) == part
  {
    ConcatSnoc([], part);
    assert [] + [part] == [part];
  }

  /** With the global parities on their own. */
  lemma SeparateSafe(c: Lrc)
    requires Tight(c) && Ends(c) != 1 && Theta(c) >= 1
    ensures AllDecodable(c, MergedFrom(Rests(c, c.l), Theta(c), 0)) <==> OptimalIsSafe(c)
  {
    AllRests(c);
    if Ends(c) >= 2 {
      MergedSafe(c, 0, 0);
      JoinsWhenSingle(c);
    } else if RestSize(c, c.l - 1) > 0 {
      OneEndSafe(c, RestSize(c, c.l - 1));
    }
  }

  /** The plan with the global parities pushed onto its last part, one by one. */
  method JoinGlobals(plan0: Partition, k: nat, g: nat) returns (plan: Partition)
    requires plan0 != []
    ensures plan == plan0[..|plan0| - 1] + [plan0[|plan0| - 1] + Range(k, k + g)]
  {
    plan := plan0;
    var idx := |plan| - 1;
    assert plan0[idx] + Range(k, k) == plan0[idx];
    for i := k to k + g
      invariant plan == plan0[idx := plan0[idx] + Range(k, i)]
    {
      assert Range(k, i) + [i] == Range(k, i + 1);
      assert plan0[idx] + Range(k, i + 1) == plan0[idx] + Range(k, i) + [i];
      plan := plan[idx := plan[idx] + [i]];
    }
    PushedOnLast(plan0, Range(k, k + g));
  }

  lemma PushedOnLast(p: Partition, extra: seq<nat>)
    requires p != []
    ensures var n := |p| - 1; p[n := p[n] + extra] == p[..n] + [p[n] + extra]
  {
  }

  lemma NonEmptyParts(c: Lrc, chunks: Partition, rest: Partition)
    requires SmallParts(chunks, c.g + 1) && NoneEmpty(rest)
    ensures NoneEmpty(chunks + rest)
  {
  }

  lemma NonEmptySnoc(p: Partition, part: seq<nat>)
    requires part != [] && NoneEmpty(p)
    ensures NoneEmpty(p + [part])
  {
  }

  /** With the global parities at the end of the last part. */
  lemma JoinedHolds(c: Lrc, chunks: Partition, rests: seq<seq<nat>>, groups: seq<seq<nat>>)
    requires AzureOk(c) && |groups| == c.l && GroupsAre(c, groups) && SmallParts(chunks, c.g + 1)
    requires Concat(rests) != [] && SameBlocks(Concat(chunks) + Concat(rests), Concat(groups))
    ensures IsPartition(chunks + [Concat(rests) + Range(c.k, c.k + c.g)], BlockNum(c))
  {
    hide *;
    var last := Concat(rests) + Range(c.k, c.k + c.g);
    NonEmptyParts(c, chunks, [last]);
    ConcatSnoc(chunks, last);
    Associate(Concat(chunks), Concat(rests), Range(c.k, c.k + c.g));
    PlanIsPartition(c, chunks + [last], chunks, rests, groups);
  }

  lemma Associate<X>(a: seq<X>, b: seq<X>, m: seq<X>)
    ensures a + (b + m) == (a + b) + m
  {
  }

  lemma JoinedPlan(c: Lrc, plan: Partition, chunks: Partition, groups: seq<seq<nat>>)
    requires AzureOk(c) && Tight(c) && Ends(c) == 1 && |groups| == c.l && GroupsAre(c, groups)
    requires SmallParts(chunks, c.g + 1)
    requires SameBlocks(Concat(chunks) + Concat(Rests(c, c.l)), Concat(groups))
    requires plan == chunks + [Concat(Rests(c, c.l)) + Range(c.k, c.k + c.g)]
    ensures IsPartition(plan, BlockNum(c)) && (AllDecodable(c, plan) <==> OptimalIsSafe(c))
  {
    hide *;
    AzureFacts(c);
    var rests := Rests(c, c.l);
    JoinsWhenSingle(c);
    RestsPositive(c, c.l);
    SomethingIn(rests);
    JoinedHolds(c, chunks, rests, groups);
    ChunksDecodable(c, chunks, [Concat(rests) + Range(c.k, c.k + c.g)]);
    OnePart(c, Concat(rests) + Range(c.k, c.k + c.g));
    JoinedSafe(c);
  }

  lemma SomethingIn(p: Partition)
    requires p != [] && forall i :: 0 <= i < |p| ==> p[i] != []
    ensures Concat(p) != []
  {
    assert p[|p| - 1] != [];
  }

  /** With the global parities in a part of their own. */
  lemma SeparateHolds(c: Lrc, chunks: Partition, merged: Partition, rests: seq<seq<nat>>, groups: seq<seq<nat>>)
    requires AzureOk(c) && c.g >= 1 && |groups| == c.l && GroupsAre(c, groups) && SmallParts(chunks, c.g + 1)
    requires SameBlocks(Concat(chunks) + Concat(rests), Concat(groups))
    requires Concat(merged) == Concat(rests) && NoneEmpty(merged)
    ensures IsPartition((chunks + merged) + [Range(c.k, c.k + c.g)], BlockNum(c))
  {
    hide *;
    var globals := Range(c.k, c.k + c.g);
    NonEmptyParts(c, chunks, merged);
    ConcatSnoc(chunks + merged, globals);
    ConcatTwo(chunks, merged);
    NonEmptySnoc(chunks + merged, globals);
    PlanIsPartition(c, (chunks + merged) + [globals], chunks, rests, groups);
  }

  lemma SeparatePlan(c: Lrc, plan: Partition, chunks: Partition, groups: seq<seq<nat>>)
    requires AzureOk(c) && Tight(c) && c.g >= 1 && Ends(c) != 1 && Theta(c) >= 1
    requires |groups| == c.l && GroupsAre(c, groups) && SmallParts(chunks, c.g + 1)
    requires SameBlocks(Concat(chunks) + Concat(Rests(c, c.l)), Concat(groups))
    requires plan == (chunks + MergedFrom(Rests(c, c.l), Theta(c), 0)) + [Range(c.k, c.k + c.g)]
    ensures IsPartition(plan, BlockNum(c)) && (AllDecodable(c, plan) <==> OptimalIsSafe(c))
  {
    hide *;
    AzureFacts(c);
    var rests, merged := Rests(c, c.l), MergedFrom(Rests(c, c.l), Theta(c), 0);
    RestsPositive(c, c.l);
    MergedHolds(rests, Theta(c), 0);
    assert rests[0..] == rests;
    SeparateHolds(c, chunks, merged, rests, groups);
    Associate(chunks, merged, [Range(c.k, c.k + c.g)]);
    ChunksDecodable(c, chunks, merged + [Range(c.k, c.k + c.g)]);
    GlobalsDecodable(c, merged);
    SeparateSafe(c);
  }

  /**
   The optimal partition holds every block once; whichever part is lost the rest can repair it, if and only
   if the left-over end of the last group is small enough. First come full pieces of single groups, then the
   groups' ends, as many to a part as can be lost together; the global parities are a part of their own,
   unless the ends are single blocks, whose part they join.
   */
  method PartitionOptimal(c: Lrc) returns (plan: Partition, ghost chunks: Partition)
    requires Tight(c)
    ensures IsPartition(plan, BlockNum(c)) && FullPieces(c, chunks)
    ensures Ends(c) == 1 ==> plan == chunks + [Concat(Rests(c, c.l)) + Range(c.k, c.k + c.g)]
    ensures Ends(c) != 1 ==>
              Theta(c) >= 1 && plan == (chunks + MergedFrom(Rests(c, c.l), Theta(c), 0)) + [Range(c.k, c.k + c.g)]
    ensures AllDecodable(c, plan) <==> OptimalIsSafe(c)
  {
    hide FullPieces, SmallParts, MergedFrom, Rests, Concat, IsPartition, AllDecodable, OptimalIsSafe, R, Theta, Ends;
    var groups := GroupingInformation(c);
    var remaining;
    plan, remaining := CutGroups(c, groups[..c.l]);
    chunks := plan;
    ThetaFits(c, 0);
    JoinsWhenSingle(c);
    plan := MergeRests(remaining, Theta(c), plan);
    if R(c) % (c.g + 1) == 0 && |remaining| != 0 {
      JoinedSafe(c);
      plan := JoinGlobals(plan, c.k, c.g);
      JoinedPlan(c, plan, chunks, groups[..c.l]);
    } else {
      plan := plan + [groups[c.l]];
      SeparatePlan(c, plan, chunks, groups[..c.l]);
    }
  }

  /** Groups of equal size: every part of the optimal partition can be lost. */
  lemma EqualGroupsAreSafe(c: Lrc)
    requires AzureOk(c) && c.g >= 1 && c.k % c.l == 0
    ensures Tight(c) && OptimalIsSafe(c)
  {
    var m := c.k / c.l;
    assert c.k == m * c.l;
    EvenR(c, m);
    OneMore(c.l - 1, m);
    TightSizes(c, c.l - 1);
    ThetaFits(c, 0);
    if Ends(c) >= 2 {
      var n := (c.l - 1) % Theta(c);
      ThetaFits(c, n + 1);
      OneMore(n, Ends(c) - 1);
    }
  }

  lemma EvenR(c: Lrc, m: nat)
    requires AzureOk(c) && c.k == m * c.l
    ensures R(c) == m
  {
    RowColOfPos(m, c.l - 1, c.l);
    assert c.k + c.l - 1 == Pos(m, c.l - 1, c.l);
  }

  /** Seven data blocks in groups of three, three and one: one part of the optimal partition cannot be lost. */
  lemma UnequalGroupsCanFail()
    ensures var c := Lrc(Azure, 7, 3, 2); Tight(c) && !OptimalIsSafe(c)
  {
    var c := Lrc(Azure, 7, 3, 2);
    assert R(c) == 3;
    TightSizes(c, 2);
  }
}

/**
 What the helpers chosen for a Reed-Solomon repair are good for: which of the two ways of decoding they allow,
 and that it gives the lost blocks.
 */
module RsRestore {
  import opened Listing
  import opened Partitions
  import opened Fields
  import opened Sums
  import opened Matrices
  import opened RepairAlgebra
  import opened ErasureCode
  import opened BlockRepair
  import opened RsRepair
  import opened RsCode

  lemma {:induction false} ParityMembers(s: seq<nat>, k: nat)
    requires NoRepeats(s)
    ensures NoRepeats(ParitiesOf(s, k)) && forall x :: x in ParitiesOf(s, k) <==> x in s && x >= k
  {
    if s != [] {
      var n := |s| - 1;
      ParityMembers(s[..n], k);
      assert s == s[..n] + [s[n]];
      if s[n] >= k {
        assert s[n] !in ParitiesOf(s[..n], k);
        NoRepeatsConcat(ParitiesOf(s[..n], k), [s[n]]);
      }
    }
  }

  /** The failures and the helpers that are data blocks. */
  ghost function DataListed(l: seq<nat>, failures: seq<nat>, k: nat): seq<nat> { failures + Without(l, ParitiesOf(l, k)) }

  lemma DataMembers(l: seq<nat>, failures: seq<nat>, k: nat, n: nat)
    requires NoRepeats(l) && (forall i :: 0 <= i < |l| ==> l[i] < n && l[i] !in failures)
    requires NoRepeats(failures) && forall i :: 0 <= i < |failures| ==> failures[i] < k
    ensures var s := DataListed(l, failures, k);
            && NoRepeats(s) && |s| == |failures| + |l| - |ParitiesOf(l, k)|
            && forall x :: x in s <==> x < k && x in failures + l
  {
    hide ParitiesOf;
    var p := ParitiesOf(l, k);
    var data := Without(l, p);
    ParityMembers(l, k);
    WithoutNoRepeats(l, p);
    forall x
      ensures x in data <==> x in l && x !in p
    {
      WithoutMember(l, p, x);
    }
    RemainingLength(data, l, p);
    forall x | x in data
      ensures x !in failures
    {
      assert x in l;
    }
    NoRepeatsConcat(failures, data);
  }

  /**
   When data blocks are lost: k helpers hold at least as many parities as there are failures, and they hold all
   other data, so that the parities' equations can be used, exactly when they hold as many.
   */
  lemma HelpersCoverWhen(groups: Partition, failures: seq<nat>, k: nat, m: nat)
    requires HelpersOk(groups, failures, k, k + m) && NoRepeats(failures) && forall i :: 0 <= i < |failures| ==> failures[i] < k
    ensures var parities := ParitiesOf(Concat(groups), k);
            && |parities| >= |failures|
            && (|parities| == |failures| <==> forall x :: 0 <= x < k ==> x in failures + Concat(groups))
  {
    hide ParitiesOf, Concat;
    var l := Concat(groups);
    var s, all := DataListed(l, failures, k), UpTo(k);
    DataMembers(l, failures, k, k + m);
    forall x | x in s
      ensures x in all
    {
      InUpTo(k, x);
    }
    SizeOfElements(s);
    SizeOfElements(all);
    SubsetSize(Elements(s), Elements(all));
    if |s| == k {
      FillsUp(s, all);
      assert forall x :: 0 <= x < k ==> x in all by { AllInUpTo(k); }
    }
    if forall x :: 0 <= x < k ==> x in failures + l {
      forall x | x in all
        ensures x in s
      {
      }
      SubsetSize(Elements(all), Elements(s));
    }
  }

  lemma AllInUpTo(k: nat)
    ensures forall x: nat :: x < k ==> x in UpTo(k)
  {
    forall x: nat | x < k
      ensures x in UpTo(k)
    {
      InUpTo(k, x);
    }
  }

  /** Then the helpers and the failures are all the blocks the parities' equations involve. */
  lemma HelpersSplitSupport<E>(f: Field<E>, a: seq<seq<E>>, k: nat, groups: Partition, failures: seq<nat>)
    requires IsTable(a, |a|, k) && HelpersOk(groups, failures, k, k + |a|)
    requires NoRepeats(failures) && (forall i :: 0 <= i < |failures| ==> failures[i] < k)
    requires |ParitiesOf(Concat(groups), k)| == |failures|
    ensures var parities := ParitiesOf(Concat(groups), k);
            && NoRepeats(parities) && (forall u :: 0 <= u < |parities| ==> k <= parities[u] < k + |a|)
            && InRange(parities, k + |a|) && InRange(failures, k + |a|)
            && SplitsSupport(f, RsCheckTable(f, a, k), parities, failures, groups, k + |a|)
  {
    hide ParitiesOf, Concat, RsCheckTable;
    var h, l, parities := RsCheckTable(f, a, k), Concat(groups), ParitiesOf(Concat(groups), k);
    HelpersCoverWhen(groups, failures, k, |a|);
    ParityMembers(l, k);
    NoRepeatsConcat(failures, l);
    forall u | 0 <= u < |parities|
      ensures k <= parities[u] < k + |a| && parities[u] in l
    {
      assert parities[u] in parities;
    }
    forall u, j | 0 <= u < |parities| && 0 <= j < k + |a| && h[parities[u]][j] != f.zero
      ensures j in failures + l
    {
      OwnParityOnly(f, a, k, parities[u], j);
    }
  }

  /** Of the parities only the equation's own one has a coefficient. */
  lemma OwnParityOnly<E>(f: Field<E>, a: seq<seq<E>>, k: nat, q: nat, j: nat)
    requires IsTable(a, |a|, k) && k <= q < k + |a| && j < k + |a|
    ensures RsCheckTable(f, a, k)[q][j] != f.zero ==> j < k || j == q
  {
    RsParityRow(f, a, k, q - k);
    if j >= k {
      assert RsCheckRow(f, a, k, q - k)[k..][j - k] == RsCheckTable(f, a, k)[q][j];
    }
  }

  /** As many parities as failures among the helpers: adding the partial parities and decoding gives the lost blocks. */
  lemma LostDataComeBack<E(!new)>(f: Field<E>, a: seq<seq<E>>, k: nat, line: seq<Block<E>>, size: nat, groups: Partition,
                                  failures: seq<nat>, flags: seq<seq<bool>>, arrived: seq<Message<E>>, inv: seq<seq<E>>)
    requires Laws(f) && IsRsLine(f, a, k, line, size) && HelpersOk(groups, failures, k, k + |a|)
    requires NoRepeats(failures) && forall i :: 0 <= i < |failures| ==> failures[i] < k
    requires |ParitiesOf(Concat(groups), k)| == |failures| && InRange(ParitiesOf(Concat(groups), k), k + |a|)
    requires forall i :: 0 <= i < |groups| ==> InRange(groups[i], k + |a|)
    requires IsTable(flags, |groups|, |failures|)
    requires Delivered(arrived, f, RsCheckTable(f, a, k), ParitiesOf(Concat(groups), k), groups, line, size, flags)
    requires IsLeftInverse(f, inv, SubMatrix(RsCheckTable(f, a, k), ParitiesOf(Concat(groups), k), failures, k + |a|), |failures|)
    ensures EncodeBlocks(f, inv, AddedAll(f, arrived, ParitiesOf(Concat(groups), k), size), size) == Pick(line, failures)
  {
    hide ParitiesOf, Concat, RsCheckTable, SplitsSupport, StripeOk, HelpersOk, SubMatrix, AddedAll;
    HelpersSplitSupport(f, a, k, groups, failures);
    RsLineChecked(f, a, k, line, size, ParitiesOf(Concat(groups), k));
    RepairRestoresBlocks(f, RsCheckTable(f, a, k), ParitiesOf(Concat(groups), k), failures, groups, line, size, flags, arrived,
                         inv);
  }

  /** The generator matrix: the data as they are, and the parities' rows. */
  ghost function Generator<E>(f: Field<E>, a: seq<seq<E>>, k: nat): (r: seq<seq<E>>)
    requires IsTable(a, |a|, k)
    ensures IsTable(r, k + |a|, k)
  {
    Identity(f, k) + a
  }

  lemma LineIsGenerated<E(!new)>(f: Field<E>, a: seq<seq<E>>, k: nat, line: seq<Block<E>>, size: nat, p: nat)
    requires Laws(f) && IsRsLine(f, a, k, line, size) && p < size
    ensures Generated(f, Generator(f, a, k), Column(line[..k], p), Column(line, p))
  {
    hide Dot, UnitRow, CodingBlock;
    var gen, data, b := Generator(f, a, k), Column(line[..k], p), Column(line, p);
    forall i | 0 <= i < |b|
      ensures b[i] == Dot(f, gen[i], data)
    {
      if i < k {
        assert gen[i] == Identity(f, k)[i];
        DotUnit(f, k, i, data);
      } else {
        assert line[k + (i - k)] == CodingBlock(f, a[i - k], line[..k], size);
      }
    }
    assert b == MatVec(f, gen, data);
  }

  /** Whichever helpers are chosen and whatever failed, the survivors' inverse gives the lost words. */
  lemma AnyHelpersGiveLost<E(!new)>(f: Field<E>, a: seq<seq<E>>, k: nat, line: seq<Block<E>>, size: nat, groups: Partition,
                                    failures: seq<nat>, inv: seq<seq<E>>, p: nat)
    requires Laws(f) && IsRsLine(f, a, k, line, size) && HelpersOk(groups, failures, k, k + |a|) && p < size
    requires InRange(failures, k + |a|) && InRange(Concat(groups), k + |a|)
    requires IsLeftInverse(f, inv, RowsOf(Generator(f, a, k), Concat(groups)), k)
    ensures (forall c :: 0 <= c < |groups| ==> InRange(groups[c], k + |a|))
            && forall c, i :: 0 <= c < |groups| && 0 <= i < |groups[c]| ==> groups[c][i] in Concat(groups)
    ensures TotalSurvivorPart(f, MatMul(f, RowsOf(Generator(f, a, k), failures), inv, k), Concat(groups), groups, Column(line, p))
            == Pick(Column(line, p), failures)
  {
    hide Concat, RowsOf, MatMul, TotalSurvivorPart;
    LineIsGenerated(f, a, k, line, size, p);
    FlatInRange(groups, k + |a|);
    forall c, i | 0 <= c < |groups| && 0 <= i < |groups[c]|
      ensures groups[c][i] in Concat(groups)
    {
      var at := InConcat(groups, c, i);
    }
    SurvivorClustersGiveLost(f, Generator(f, a, k), Column(line[..k], p), Column(line, p), failures, Concat(groups), groups, inv);
  }
}

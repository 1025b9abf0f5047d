/** The Reed-Solomon code's parity-check matrix, and recalculating its parities. */
module RsCode {
  import opened Listing
  import opened Partitions
  import opened Fields
  import opened Sums
  import opened Matrices
  import opened RepairAlgebra
  import opened ErasureCode
  import opened BlockRepair
  import opened LrcEncoding
  import opened LrcFullMatrix
  import opened Deviations
  import opened Recalculation

  /** The equation of parity i: its encoding row and a one for the parity itself. */
  function RsCheckRow<E>(f: Field<E>, a: seq<seq<E>>, k: nat, i: nat): (r: seq<E>)
    requires IsTable(a, |a|, k) && i < |a|
    ensures |r| == k + |a|
  {
    a[i] + UnitRow(f, |a|, i)
  }

  function RsRow<E>(f: Field<E>, a: seq<seq<E>>, k: nat, i: nat): (r: seq<E>)
    requires IsTable(a, |a|, k) && i < k + |a|
    ensures |r| == k + |a|
  {
    if i < k then UnitRow(f, k + |a|, i) else RsCheckRow(f, a, k, i - k)
  }

  /** An identity, with the equations in the rows of the parities. */
  function RsCheckTable<E>(f: Field<E>, a: seq<seq<E>>, k: nat): (r: seq<seq<E>>)
    requires IsTable(a, |a|, k)
    ensures IsTable(r, k + |a|, k + |a|) && forall i :: 0 <= i < k + |a| ==> r[i] == RsRow(f, a, k, i)
  {
    seq(k + |a|, i requires 0 <= i < k + |a| => RsRow(f, a, k, i))
  }

  /** The rows of the parities are replaced up to `upTo`. */
  ghost predicate RsCheckedTo<E>(f: Field<E>, a: seq<seq<E>>, k: nat, t: seq<seq<E>>, upTo: nat)
    requires IsTable(a, |a|, k) && upTo <= |a|
  {
    |t| == k + |a| && forall i :: 0 <= i < k + |a| ==>
      t[i] == if i < k + upTo then RsCheckTable(f, a, k)[i] else UnitRow(f, k + |a|, i)
  }

  lemma RsRowPlaced<E>(f: Field<E>, a: seq<seq<E>>, k: nat, i: nat)
    requires IsTable(a, |a|, k) && i < |a|
    ensures Overwritten(UnitRow(f, k + |a|, k + i), 0, a[i]) == RsCheckTable(f, a, k)[k + i]
  {
    assert Overwritten(UnitRow(f, k + |a|, k + i), 0, a[i]) == RsCheckRow(f, a, k, i);
  }

  lemma RsStart<E>(f: Field<E>, a: seq<seq<E>>, k: nat, t: seq<seq<E>>)
    requires IsTable(a, |a|, k) && t == Identity(f, k + |a|)
    ensures RsCheckedTo(f, a, k, t, 0)
  {
  }

  lemma RsMore<E>(f: Field<E>, a: seq<seq<E>>, k: nat, was: seq<seq<E>>, t: seq<seq<E>>, i: nat)
    requires IsTable(a, |a|, k) && i < |a| && RsCheckedTo(f, a, k, was, i)
    requires OutsideKept(was, t, k + i, 1) && t[k + i] == RsCheckTable(f, a, k)[k + i]
    ensures var next := i + 1; RsCheckedTo(f, a, k, t, next)
  {
    hide RsCheckTable, UnitRow, RsRow;
  }

  lemma RsEnd<E>(f: Field<E>, a: seq<seq<E>>, k: nat, t: seq<seq<E>>)
    requires IsTable(a, |a|, k) && RsCheckedTo(f, a, k, t, |a|)
    ensures t == RsCheckTable(f, a, k)
  {
  }

  lemma RsStillUnit<E>(f: Field<E>, a: seq<seq<E>>, k: nat, t: seq<seq<E>>, i: nat)
    requires IsTable(a, |a|, k) && i < |a| && RsCheckedTo(f, a, k, t, i)
    ensures |t| == k + |a| && t[k + i] == UnitRow(f, k + |a|, k + i)
  {
    hide RsCheckTable;
  }

  /** Assembles the matrix in place. */
  method RsFullMatrix<E(0)>(f: Field<E>, a: seq<seq<E>>, k: nat) returns (m: array<E>)
    requires IsTable(a, |a|, k)
    ensures fresh(m) && m.Length == (k + |a|) * (k + |a|) && TableOf(m[..], k + |a|, k + |a|) == RsCheckTable(f, a, k)
  {
    hide TableOf, UnitRow, Overwritten, RsCheckRow, RsRow, RsCheckTable, Identity, RsCheckedTo;
    var n := k + |a|;
    m := IdentityMatrix(f, n);
    RsStart(f, a, k, TableOf(m[..], n, n));
    for i := 0 to |a|
      invariant RsCheckedTo(f, a, k, TableOf(m[..], n, n), i)
    {
      ghost var t := TableOf(m[..], n, n);
      RsStillUnit(f, a, k, t, i);
      CopySegment(m, k + i, 0, a[i], n, n);
      RsRowPlaced(f, a, k, i);
      RsMore(f, a, k, t, TableOf(m[..], n, n), i);
    }
    RsEnd(f, a, k, TableOf(m[..], n, n));
  }

  /** A Reed-Solomon line: data blocks and their encoding. */
  ghost predicate IsRsLine<E>(f: Field<E>, a: seq<seq<E>>, k: nat, line: seq<Block<E>>, size: nat) {
    && IsTable(a, |a|, k) && IsTable(line, k + |a|, size)
    && forall i :: 0 <= i < |a| ==> line[k + i] == CodingBlock(f, a[i], line[..k], size)
  }

  /** Each equation sees zero in every word of the line. */
  lemma RsWordChecked<E(!new)>(f: Field<E>, a: seq<seq<E>>, k: nat, line: seq<Block<E>>, size: nat, i: nat, p: nat)
    requires Laws(f) && IsRsLine(f, a, k, line, size) && i < |a| && p < size
    ensures Dot(f, RsCheckRow(f, a, k, i), Column(line, p)) == f.zero
  {
    var d, q := Column(line[..k], p), Column(line[k..], p);
    assert Column(line, p) == d + q;
    DotConcat(f, a[i], d, UnitRow(f, |a|, i), q);
    DotUnit(f, |a|, i, q);
    assert q[i] == line[k + i][p];
    LawsAt(f, q[i], q[i], f.zero);
  }

  /** The places of the parities. */
  function ParityRange(k: nat, m: nat): (r: seq<nat>)
    ensures |r| == m && forall i :: 0 <= i < m ==> r[i] == k + i
  {
    seq(m, i requires 0 <= i < m => k + i)
  }

  lemma RsLineChecked<E(!new)>(f: Field<E>, a: seq<seq<E>>, k: nat, line: seq<Block<E>>, size: nat, rows: seq<nat>)
    requires Laws(f) && IsRsLine(f, a, k, line, size) && forall u :: 0 <= u < |rows| ==> k <= rows[u] < k + |a|
    ensures InRange(rows, k + |a|) && StripeOk(f, RsCheckTable(f, a, k), rows, line, size)
  {
    hide Dot, RsCheckRow, Column;
    forall p | 0 <= p < size
      ensures Annihilates(f, RsCheckTable(f, a, k), rows, Column(line, p))
    {
      forall u | 0 <= u < |rows|
        ensures Dot(f, RsCheckTable(f, a, k)[rows[u]], Column(line, p)) == f.zero
      {
        RsWordChecked(f, a, k, line, size, rows[u] - k, p);
      }
    }
  }

  /** The data and the parities are all the blocks there are. */
  lemma AllBlocksInvolved<E>(f: Field<E>, a: seq<seq<E>>, k: nat, all: seq<nat>)
    requires IsTable(a, |a|, k) && SameBlocks(all, UpTo(k)) && InRange(ParityRange(k, |a|), k + |a|)
    ensures SplitsSupport(f, RsCheckTable(f, a, k), ParityRange(k, |a|), ParityRange(k, |a|), [all], k + |a|)
  {
    hide SameBlocks, RsCheckTable;
    var h, rows, n := RsCheckTable(f, a, k), ParityRange(k, |a|), k + |a|;
    SameLists(all, UpTo(k), k);
    ConcatOne(all);
    NoRepeatsConcat(rows, all);
    forall u, j | 0 <= u < |rows| && 0 <= j < n && h[rows[u]][j] != f.zero
      ensures j in rows + Concat([all])
    {
      if j < k {
        InUpTo(k, j);
      } else {
        assert rows[j - k] == j;
      }
    }
  }

  /** The job of recalculating all parities of a line. */
  function LineJob<E>(f: Field<E>, a: seq<seq<E>>, k: nat, line: seq<Block<E>>, size: nat): Job<E>
    requires IsTable(a, |a|, k)
  {
    Job(f, RsCheckTable(f, a, k), ParityRange(k, |a|), line, size)
  }

  /** All parities can be recalculated from the data, in any split and order. */
  lemma ParitiesCanBeRecalculated<E(!new)>(f: Field<E>, a: seq<seq<E>>, k: nat, line: seq<Block<E>>, size: nat, all: seq<nat>)
    requires Laws(f) && IsRsLine(f, a, k, line, size) && SameBlocks(all, UpTo(k))
    ensures RecalOk(LineJob(f, a, k, line, size), all)
  {
    hide SameBlocks, StripeOk, RsCheckTable, SplitsSupport, Identity;
    RsLineChecked(f, a, k, line, size, ParityRange(k, |a|));
    ParitiesStandAlone(f, a, k);
    AllBlocksInvolved(f, a, k, all);
  }

  lemma PickTail<X>(s: seq<X>, k: nat, m: nat)
    requires |s| == k + m
    ensures InRange(ParityRange(k, m), |s|) && Pick(s, ParityRange(k, m)) == s[k..]
  {
  }

  /** The equation of parity u: the other parities have no part in it. */
  lemma RsParityRow<E>(f: Field<E>, a: seq<seq<E>>, k: nat, u: nat)
    requires IsTable(a, |a|, k) && u < |a|
    ensures RsCheckTable(f, a, k)[k + u] == RsCheckRow(f, a, k, u) && RsCheckRow(f, a, k, u)[k..] == UnitRow(f, |a|, u)
  {
  }

  /** In the columns of the parities, the equations of the parities are an identity. */
  lemma ParitiesStandAlone<E>(f: Field<E>, a: seq<seq<E>>, k: nat)
    requires IsTable(a, |a|, k)
    ensures InRange(ParityRange(k, |a|), k + |a|) && NoRepeats(ParityRange(k, |a|))
    ensures SubMatrix(RsCheckTable(f, a, k), ParityRange(k, |a|), ParityRange(k, |a|), k + |a|) == Identity(f, |a|)
  {
    hide UnitRow, Identity, SubMatrix, RsCheckTable, RsCheckRow, RsRow, Pick, ParityRange;
    var rows := ParityRange(k, |a|);
    assert InRange(rows, k + |a|) && NoRepeats(rows);
    var m := SubMatrix(RsCheckTable(f, a, k), rows, rows, k + |a|);
    forall u | 0 <= u < |a|
      ensures m[u] == UnitRow(f, |a|, u)
    {
      RsParityRow(f, a, k, u);
      PickTail(RsCheckRow(f, a, k, u), k, |a|);
    }
  }

  /**
   Recalculates the parities of a line from its data blocks, wherever they are and however they arrive. Help
   clusters with more blocks than parities may send partial blocks of their own making.
   */
  method RecalculateLine<E(0, !new)>(f: Field<E>, a: seq<seq<E>>, k: nat, own: seq<nat>, help: seq<seq<nat>>,
                                     partialDecoding: bool, helper: Helper<E>, stored: seq<Block<E>>, size: nat,
                                     ghost line: seq<Block<E>>)
      returns (coding: array<Block<E>>)
    requires Laws(f) && IsRsLine(f, a, k, line, size) && SameBlocks(own + Concat(help), UpTo(k))
    requires StoredOk(stored, line, UpTo(k), size)
    requires SendsTables(LineJob(f, a, k, line, size), helper, SentPartial(help, |a|, partialDecoding))
    ensures fresh(coding) && Shaped(LineJob(f, a, k, line, size))
    ensures coding[..] == Outcome(LineJob(f, a, k, line, size), helper, SentPartial(help, |a|, partialDecoding))
  {
    hide RsCheckTable, SameBlocks, RecalOk, TableOf, SentPartial, SendsTables, StoredOk;
    ParitiesCanBeRecalculated(f, a, k, line, size, own + Concat(help));
    ParitiesStandAlone(f, a, k);
    StoredRearranged(stored, line, UpTo(k), own + Concat(help), size);
    var matrix := RsFullMatrix(f, a, k);
    coding := MainRecal(f, k + |a|, matrix[..], ParityRange(k, |a|), own, help, partialDecoding, helper, stored, size,
                        LineJob(f, a, k, line, size));
  }

  /**
   When a line's new parities do not depend on what the helpers compute: exactly when no help cluster sends
   partial blocks.
   */
  lemma LineRightAnywayWhen<E(!new)>(f: Field<E>, a: seq<seq<E>>, k: nat, line: seq<Block<E>>, size: nat, own: seq<nat>,
                                     help: seq<seq<nat>>, partialDecoding: bool)
    requires Laws(f) && f.one != f.zero && IsRsLine(f, a, k, line, size) && SameBlocks(own + Concat(help), UpTo(k))
    requires a != [] && size > 0
    ensures Shaped(LineJob(f, a, k, line, size))
    ensures RightAnyway(LineJob(f, a, k, line, size), SentPartial(help, |a|, partialDecoding))
            <==> NoneSendsPartial(help, |a|, partialDecoding)
  {
    hide RsCheckTable, SameBlocks, RecalOk, SentPartial, SendsTables, RightAnyway;
    var all, sets := own + Concat(help), SentPartial(help, |a|, partialDecoding);
    ParitiesCanBeRecalculated(f, a, k, line, size, all);
    RecalFacts(LineJob(f, a, k, line, size), all);
    RearrangedList(all, k);
    HelpFromAll(own, help, k);
    SentApart(help, |a|, partialDecoding);
    NoneSendsWhen(help, |a|, partialDecoding);
    forall j | 0 <= j < |sets|
      ensures InRange(sets[j], k + |a|)
    {
      assert sets[j] in sets;
      var i :| 0 <= i < |help| && help[i] == sets[j];
    }
    RightAnywayWhen(LineJob(f, a, k, line, size), sets);
  }
}

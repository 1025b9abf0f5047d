/**
 The parity-check matrix of a locally repairable code, assembled in place: an identity, the global rows,
 and the group matrices copied to where their groups start.
 */
module LrcFullMatrix {
  import opened Fields
  import opened Sums
  import opened Matrices
  import opened ErasureCode
  import opened RowMajor
  import opened LrcShape
  import opened LrcMatrices
  import opened LrcEncoding
  import opened LrcMakers
  import opened LrcProducts
  import opened LrcSums

  /** The encoding matrix, by whichever program the code uses. */
  method MakeEncodingMatrix<E(0, !new)>(f: Field<E>, c: Lrc, lib: seq<seq<E>>) returns (m: array<E>)
    requires Laws(f) && LrcOk(c) && IsTable(lib, c.g + 1, c.k)
    ensures fresh(m) && m.Length == (c.g + c.l) * c.k && TableOf(m[..], c.g + c.l, c.k) == EncodingTable(f, c, lib)
  {
    match c.kind
    case Azure => m := AzureMatrix(f, c, lib);
    case AzurePlusOne => m := ProductMatrix(f, c, lib);
    case Optimal => m := ProductMatrix(f, c, lib);
    case OptimalCauchy => m := OptimalCauchyMatrix(f, c, lib);
    case UniformCauchy => m := SummedMatrix(f, c, lib);
  }

  /**
   The optimal Cauchy code stores the global part of a group right behind its data part, so its group
   sizes must be the real ones: the last group must hold a data block.
   */
  ghost predicate GroupsFit(c: Lrc)
    requires LrcOk(c)
  {
    c.kind.OptimalCauchy? ==> (c.l - 1) * R(c) < c.k
  }

  lemma DealtFits(c: Lrc, i: nat)
    requires LrcOk(c) && GroupsFit(c) && i < Groups(c)
    ensures c.kind.OptimalCauchy? ==> Dealt(c, i) >= 1 && GroupSize(c, i) == Dealt(c, i) + c.g
    ensures !c.kind.OptimalCauchy? ==> Dealt(c, i) <= GroupSize(c, i) <= R(c)
  {
    RBounds(c);
    var n, r, last := Spread(c), R(c), Groups(c) - 1;
    Monotone(i, last, r);
    assert Groups(c) * r == last * r + r;
    if i < last {
      RowGap(i, last, r);
    } else if last * r < n {
      LastGroup(n, r, last);
    }
  }

  /** The remainder of rounding up. */
  lemma LastGroup(n: nat, r: nat, last: nat)
    requires r >= 1 && last * r < n <= last * r + r
    ensures n - last * r == if n % r == 0 then r else n % r
  {
    var d := n - last * r;
    RowColOfPos(last, if d == r then 0 else d, r);
    if d == r {
      RowColOfPos(last + 1, 0, r);
      assert n == Pos(last + 1, 0, r);
    } else {
      assert n == Pos(last, d, r);
    }
  }

  /** Entry j of a group matrix: the dealt members, then for the optimal Cauchy code the global parities. */
  function GroupEntry<E>(f: Field<E>, c: Lrc, lib: seq<seq<E>>, i: nat, j: nat): E
    requires LrcOk(c) && IsTable(lib, c.g + 1, c.k) && i < c.l
  {
    if i >= Groups(c) then f.one
    else if j < Dealt(c, i) then Coefficient(f, c, lib, i * R(c) + j)
    else if c.kind.OptimalCauchy? && j < Dealt(c, i) + c.g then f.one
    else f.zero
  }

  /** The matrix of one group, filled while counting through the blocks of all groups. */
  method MakeGroupMatrix<E(0)>(f: Field<E>, c: Lrc, lib: seq<seq<E>>, groupId: nat) returns (group: array<E>)
    requires LrcOk(c) && GroupsFit(c) && IsTable(lib, c.g + 1, c.k) && groupId < c.l
    ensures fresh(group) && group.Length == GroupSize(c, groupId)
    ensures forall j :: 0 <= j < group.Length ==> group[j] == GroupEntry(f, c, lib, groupId, j)
  {
    hide R;
    group := new E[GroupSize(c, groupId)](_ => f.zero);
    if groupId >= Groups(c) {
      for j := 0 to c.g
        invariant forall b :: 0 <= b < j ==> group[b] == f.one
      {
        group[j] := f.one;
      }
      return;
    }
    var idx := 0;
    ghost var lo := 0;
    for i := 0 to Groups(c)
      invariant lo == i * R(c) && idx == Min(lo, Spread(c))
      invariant forall b :: 0 <= b < group.Length ==>
                  group[b] == if groupId < i then GroupEntry(f, c, lib, groupId, b) else f.zero
    {
      DealtFits(c, i);
      var groupSize := Dealt(c, i);
      var j := 0;
      while j < groupSize
        invariant 0 <= j <= (if groupSize >= 0 then groupSize else 0) && idx == Min(lo, Spread(c)) + j
        invariant forall b :: 0 <= b < group.Length ==>
                    group[b] == if groupId < i || (groupId == i && b < j) then GroupEntry(f, c, lib, groupId, b) else f.zero
      {
        if i == groupId {
          group[j] := Coefficient(f, c, lib, idx);
        }
        idx := idx + 1;
        j := j + 1;
      }
      if c.kind.OptimalCauchy? {
        for q := groupSize to groupSize + c.g
          invariant forall b :: 0 <= b < group.Length ==>
                      group[b] == if groupId < i || (groupId == i && b < q) then GroupEntry(f, c, lib, groupId, b) else f.zero
        {
          if i == groupId {
            group[q] := f.one;
          }
        }
      }
      NextStart(c, i);
      lo := lo + R(c);
    }
  }

  // The rows of the parity-check matrix.

  function GlobalCheckRow<E>(f: Field<E>, c: Lrc, lib: seq<seq<E>>, i: nat): (r: seq<E>)
    requires LrcOk(c) && IsTable(lib, c.g + 1, c.k) && i < c.g
    ensures |r| == BlockNum(c)
  {
    GlobalRows(c, lib)[i] + UnitRow(f, c.g, i) + Zeros(f, c.l)
  }

  function LocalCheckRow<E>(f: Field<E>, c: Lrc, lib: seq<seq<E>>, i: nat): (r: seq<E>)
    requires LrcOk(c) && IsTable(lib, c.g + 1, c.k) && i < c.l
    ensures |r| == BlockNum(c)
  {
    LocalRow(f, c, lib, i) + UnitRow(f, c.l, i)
  }

  function CheckRow<E>(f: Field<E>, c: Lrc, lib: seq<seq<E>>, a: nat): (r: seq<E>)
    requires LrcOk(c) && IsTable(lib, c.g + 1, c.k) && a < BlockNum(c)
    ensures |r| == BlockNum(c)
  {
    if a < c.k then UnitRow(f, BlockNum(c), a)
    else if a < c.k + c.g then GlobalCheckRow(f, c, lib, a - c.k)
    else LocalCheckRow(f, c, lib, a - c.k - c.g)
  }

  function CheckTable<E>(f: Field<E>, c: Lrc, lib: seq<seq<E>>): (r: seq<seq<E>>)
    requires LrcOk(c) && IsTable(lib, c.g + 1, c.k)
    ensures IsTable(r, BlockNum(c), BlockNum(c))
    ensures forall a :: 0 <= a < BlockNum(c) ==> r[a] == CheckRow(f, c, lib, a)
  {
    seq(BlockNum(c), a requires 0 <= a < BlockNum(c) => CheckRow(f, c, lib, a))
  }

  /** A row with a run of entries replaced. */
  function Overwritten<E>(row: seq<E>, col: nat, src: seq<E>): (r: seq<E>)
    requires col + |src| <= |row|
    ensures |r| == |row|
    ensures forall b :: 0 <= b < |row| ==> r[b] == if col <= b < col + |src| then src[b - col] else row[b]
  {
    row[..col] + src + row[col + |src|..]
  }

  /** Copies a run of entries into row `at`, starting at column `col`. */
  method CopySegment<E>(m: array<E>, at: nat, col: nat, src: seq<E>, rows: nat, cols: nat)
    requires at < rows && col + |src| <= cols && m.Length == rows * cols
    modifies m
    ensures OutsideKept(old(TableOf(m[..], rows, cols)), TableOf(m[..], rows, cols), at, 1)
    ensures TableOf(m[..], rows, cols)[at] == Overwritten(old(TableOf(m[..], rows, cols))[at], col, src)
  {
    hide TableOf, Overwritten;
    ghost var start := TableOf(m[..], rows, cols);
    for j := 0 to |src|
      invariant OthersKept(start, TableOf(m[..], rows, cols), at, cols)
      invariant forall b :: 0 <= b < cols ==>
                  TableOf(m[..], rows, cols)[at][b] == if col <= b < col + j then src[b - col] else start[at][b]
    {
      StoreEntry(m, at, col + j, src[j], rows, cols);
    }
    forall a | 0 <= a < rows && a != at
      ensures TableOf(m[..], rows, cols)[a] == start[a]
    {
    }
  }

  /** A global row copied over the identity's row is a row of the parity-check matrix. */
  lemma GlobalRowPlaced<E>(f: Field<E>, c: Lrc, lib: seq<seq<E>>, i: nat)
    requires LrcOk(c) && IsTable(lib, c.g + 1, c.k) && i < c.g
    ensures Overwritten(UnitRow(f, BlockNum(c), c.k + i), 0, GlobalRows(c, lib)[i]) == CheckRow(f, c, lib, c.k + i)
  {
  }

  /** The two halves of an optimal Cauchy group, or all of any other group, at its place. */
  function GroupPlaced<E>(f: Field<E>, c: Lrc, lib: seq<seq<E>>, i: nat, group: seq<E>): (r: seq<E>)
    requires LrcOk(c) && IsTable(lib, c.g + 1, c.k) && i < c.l && |group| == GroupSize(c, i)
    requires SegmentsFit(c, i)
    ensures |r| == BlockNum(c)
  {
    var unit := UnitRow(f, BlockNum(c), c.k + c.g + i);
    if c.kind.OptimalCauchy? then
      var cut := GroupSize(c, i) - c.g;
      Overwritten(Overwritten(unit, MinIdx(c, i), group[..cut]), c.k, group[cut..])
    else Overwritten(unit, MinIdx(c, i), group)
  }

  ghost predicate SegmentsFit(c: Lrc, i: nat)
    requires LrcOk(c) && i < c.l
  {
    if c.kind.OptimalCauchy? then GroupSize(c, i) >= c.g && MinIdx(c, i) + (GroupSize(c, i) - c.g) <= c.k
    else MinIdx(c, i) + GroupSize(c, i) <= c.k + c.g + i
  }

  lemma SegmentsDoFit(c: Lrc, i: nat)
    requires LrcOk(c) && GroupsFit(c) && i < c.l
    ensures SegmentsFit(c, i)
  {
    if i < Groups(c) {
      DealtFits(c, i);
      GroupEnd(c, i);
    }
  }

  /** A group matrix copied over the identity's row is a row of the parity-check matrix. */
  lemma GroupRowPlaced<E>(f: Field<E>, c: Lrc, lib: seq<seq<E>>, i: nat, group: seq<E>)
    requires LrcOk(c) && GroupsFit(c) && IsTable(lib, c.g + 1, c.k) && i < c.l
    requires |group| == GroupSize(c, i) && SegmentsFit(c, i)
    requires forall j :: 0 <= j < |group| ==> group[j] == GroupEntry(f, c, lib, i, j)
    ensures GroupPlaced(f, c, lib, i, group) == CheckRow(f, c, lib, c.k + c.g + i)
  {
    hide GroupPlaced, CheckRow, GroupEntry, GroupSize, R;
    forall b | 0 <= b < BlockNum(c)
      ensures GroupPlaced(f, c, lib, i, group)[b] == CheckRow(f, c, lib, c.k + c.g + i)[b]
    {
      GroupEntryPlaced(f, c, lib, i, group, b);
    }
  }

  lemma GroupEntryPlaced<E>(f: Field<E>, c: Lrc, lib: seq<seq<E>>, i: nat, group: seq<E>, b: nat)
    requires LrcOk(c) && GroupsFit(c) && IsTable(lib, c.g + 1, c.k) && i < c.l
    requires |group| == GroupSize(c, i) && SegmentsFit(c, i) && b < BlockNum(c)
    requires forall j :: 0 <= j < |group| ==> group[j] == GroupEntry(f, c, lib, i, j)
    ensures GroupPlaced(f, c, lib, i, group)[b] == CheckRow(f, c, lib, c.k + c.g + i)[b]
  {
    hide Overwritten, GroupPlaced, CheckRow, GroupEntry, SegmentsFit;
    if i >= Groups(c) {
      GlobalGroupPlaced(f, c, lib, i, group, b);
    } else if c.kind.OptimalCauchy? {
      DealtFits(c, i);
      SplitGroupPlaced(f, c, lib, i, group, b);
    } else {
      DealtFits(c, i);
      WholeGroupPlaced(f, c, lib, i, group, b);
    }
  }

  /** The group of the global parities. */
  lemma GlobalGroupPlaced<E>(f: Field<E>, c: Lrc, lib: seq<seq<E>>, i: nat, group: seq<E>, b: nat)
    requires LrcOk(c) && IsTable(lib, c.g + 1, c.k) && Groups(c) <= i < c.l
    requires |group| == GroupSize(c, i) && SegmentsFit(c, i) && b < BlockNum(c)
    requires forall j :: 0 <= j < |group| ==> group[j] == GroupEntry(f, c, lib, i, j)
    ensures GroupPlaced(f, c, lib, i, group)[b] == CheckRow(f, c, lib, c.k + c.g + i)[b]
  {
    hide Overwritten, R, GroupSize;
    LastSize(c, i);
  }

  /** A group in one piece. */
  lemma WholeGroupPlaced<E>(f: Field<E>, c: Lrc, lib: seq<seq<E>>, i: nat, group: seq<E>, b: nat)
    requires LrcOk(c) && IsTable(lib, c.g + 1, c.k) && i < Groups(c) && !c.kind.OptimalCauchy?
    requires |group| == GroupSize(c, i) && SegmentsFit(c, i) && b < BlockNum(c) && Dealt(c, i) <= |group| <= R(c)
    requires forall j :: 0 <= j < |group| ==> group[j] == GroupEntry(f, c, lib, i, j)
    ensures GroupPlaced(f, c, lib, i, group)[b] == CheckRow(f, c, lib, c.k + c.g + i)[b]
  {
    hide Overwritten, R, GroupSize, Coefficient;
  }

  /** A group in two pieces, its data and the global parities. */
  lemma SplitGroupPlaced<E>(f: Field<E>, c: Lrc, lib: seq<seq<E>>, i: nat, group: seq<E>, b: nat)
    requires LrcOk(c) && IsTable(lib, c.g + 1, c.k) && i < c.l && c.kind.OptimalCauchy?
    requires |group| == GroupSize(c, i) == Dealt(c, i) + c.g && SegmentsFit(c, i) && b < BlockNum(c) && Dealt(c, i) >= 1
    requires forall j :: 0 <= j < |group| ==> group[j] == GroupEntry(f, c, lib, i, j)
    ensures GroupPlaced(f, c, lib, i, group)[b] == CheckRow(f, c, lib, c.k + c.g + i)[b]
  {
    hide Overwritten, R, GroupSize;
  }

  lemma LastSize(c: Lrc, i: nat)
    requires LrcOk(c) && Groups(c) <= i < c.l
    ensures GroupSize(c, i) == c.g
  {
  }

  /** The rows below `upTo` are those of the parity-check matrix; the rest is still the identity. */
  ghost predicate CheckedTo<E>(f: Field<E>, c: Lrc, lib: seq<seq<E>>, t: seq<seq<E>>, upTo: nat)
    requires LrcOk(c) && IsTable(lib, c.g + 1, c.k) && c.k <= upTo <= BlockNum(c)
  {
    |t| == BlockNum(c) && forall a :: 0 <= a < BlockNum(c) ==>
      t[a] == if a < upTo then CheckRow(f, c, lib, a) else UnitRow(f, BlockNum(c), a)
  }

  /** The identity, stored along the diagonal. */
  method IdentityMatrix<E(0)>(f: Field<E>, n: nat) returns (m: array<E>)
    ensures fresh(m) && m.Length == n * n && TableOf(m[..], n, n) == Identity(f, n)
  {
    m := new E[n * n](_ => f.zero);
    for i := 0 to n
      invariant forall a, b :: 0 <= a < n && 0 <= b < n ==>
                  TableOf(m[..], n, n)[a][b] == if a < i && a == b then f.one else f.zero
    {
      StoreEntry(m, i, i, f.one, n, n);
    }
    forall a | 0 <= a < n
      ensures TableOf(m[..], n, n)[a] == UnitRow(f, n, a)
    {
    }
  }

  /** Copies group i to its place. */
  method PlaceGroup<E>(f: Field<E>, c: Lrc, ghost lib: seq<seq<E>>, m: array<E>, i: nat, group: seq<E>)
    requires LrcOk(c) && IsTable(lib, c.g + 1, c.k) && i < c.l && |group| == GroupSize(c, i) && SegmentsFit(c, i)
    requires m.Length == BlockNum(c) * BlockNum(c)
    requires TableOf(m[..], BlockNum(c), BlockNum(c))[c.k + c.g + i] == UnitRow(f, BlockNum(c), c.k + c.g + i)
    modifies m
    ensures OutsideKept(old(TableOf(m[..], BlockNum(c), BlockNum(c))), TableOf(m[..], BlockNum(c), BlockNum(c)), c.k + c.g + i, 1)
    ensures TableOf(m[..], BlockNum(c), BlockNum(c))[c.k + c.g + i] == GroupPlaced(f, c, lib, i, group)
  {
    hide TableOf, Overwritten, UnitRow;
    var n, at := BlockNum(c), c.k + c.g + i;
    if c.kind.OptimalCauchy? {
      var cut := GroupSize(c, i) - c.g;
      CopySegment(m, at, MinIdx(c, i), group[..cut], n, n);
      CopySegment(m, at, c.k, group[cut..], n, n);
    } else {
      CopySegment(m, at, MinIdx(c, i), group, n, n);
    }
  }

  /** Copies the global rows. */
  method PlaceGlobals<E(0)>(f: Field<E>, c: Lrc, lib: seq<seq<E>>, m: array<E>, encoding: seq<seq<E>>)
    requires LrcOk(c) && IsTable(lib, c.g + 1, c.k) && encoding == EncodingTable(f, c, lib)
    requires m.Length == BlockNum(c) * BlockNum(c) && CheckedTo(f, c, lib, TableOf(m[..], BlockNum(c), BlockNum(c)), c.k)
    modifies m
    ensures CheckedTo(f, c, lib, TableOf(m[..], BlockNum(c), BlockNum(c)), c.k + c.g)
  {
    hide TableOf, EncodingTable, UnitRow, CheckRow, CheckedTo, Overwritten;
    var n := BlockNum(c);
    for i := 0 to c.g
      invariant CheckedTo(f, c, lib, TableOf(m[..], n, n), c.k + i)
    {
      ghost var t := TableOf(m[..], n, n);
      EncodingTop(f, c, lib, i);
      RowStillUnit(f, c, lib, t, c.k + i);
      CopySegment(m, c.k + i, 0, encoding[i], n, n);
      GlobalRowPlaced(f, c, lib, i);
      CheckedMore(f, c, lib, t, TableOf(m[..], n, n), c.k + i);
    }
  }

  /** Copies the group matrices. */
  method PlaceGroups<E(0)>(f: Field<E>, c: Lrc, lib: seq<seq<E>>, m: array<E>)
    requires LrcOk(c) && GroupsFit(c) && IsTable(lib, c.g + 1, c.k)
    requires m.Length == BlockNum(c) * BlockNum(c)
    requires CheckedTo(f, c, lib, TableOf(m[..], BlockNum(c), BlockNum(c)), c.k + c.g)
    modifies m
    ensures CheckedTo(f, c, lib, TableOf(m[..], BlockNum(c), BlockNum(c)), BlockNum(c))
  {
    hide TableOf, UnitRow, CheckRow, GroupPlaced, R, CheckedTo, GroupEntry;
    var n := BlockNum(c);
    for i := 0 to c.l
      invariant CheckedTo(f, c, lib, TableOf(m[..], n, n), c.k + c.g + i)
    {
      ghost var t := TableOf(m[..], n, n);
      SegmentsDoFit(c, i);
      RowStillUnit(f, c, lib, t, c.k + c.g + i);
      var group := MakeGroupMatrix(f, c, lib, i);
      PlaceGroup(f, c, lib, m, i, group[..]);
      GroupRowPlaced(f, c, lib, i, group[..]);
      CheckedMore(f, c, lib, t, TableOf(m[..], n, n), c.k + c.g + i);
    }
  }

  /** The identity with the parity rows of the code below it. */
  method FullMatrix<E(0, !new)>(f: Field<E>, c: Lrc, lib: seq<seq<E>>) returns (m: array<E>)
    requires Laws(f) && LrcOk(c) && GroupsFit(c) && IsTable(lib, c.g + 1, c.k)
    ensures fresh(m) && m.Length == BlockNum(c) * BlockNum(c)
    ensures TableOf(m[..], BlockNum(c), BlockNum(c)) == CheckTable(f, c, lib)
  {
    hide TableOf, EncodingTable, Identity, CheckTable, CheckedTo;
    var n := BlockNum(c);
    m := IdentityMatrix(f, n);
    var encoding := MakeEncodingMatrix(f, c, lib);
    IdentityIsStart(f, c, lib, TableOf(m[..], n, n));
    PlaceGlobals(f, c, lib, m, TableOf(encoding[..], c.g + c.l, c.k));
    PlaceGroups(f, c, lib, m);
    CheckedAll(f, c, lib, TableOf(m[..], n, n));
  }

  lemma CheckedAll<E>(f: Field<E>, c: Lrc, lib: seq<seq<E>>, t: seq<seq<E>>)
    requires LrcOk(c) && IsTable(lib, c.g + 1, c.k) && CheckedTo(f, c, lib, t, BlockNum(c))
    ensures t == CheckTable(f, c, lib)
  {
  }

  lemma RowStillUnit<E>(f: Field<E>, c: Lrc, lib: seq<seq<E>>, t: seq<seq<E>>, at: nat)
    requires LrcOk(c) && IsTable(lib, c.g + 1, c.k) && c.k <= at < BlockNum(c) && CheckedTo(f, c, lib, t, at)
    ensures |t| == BlockNum(c) && t[at] == UnitRow(f, BlockNum(c), at)
  {
  }

  lemma EncodingTop<E>(f: Field<E>, c: Lrc, lib: seq<seq<E>>, i: nat)
    requires LrcOk(c) && IsTable(lib, c.g + 1, c.k) && i < c.g
    ensures EncodingTable(f, c, lib)[i] == GlobalRows(c, lib)[i]
  {
  }

  lemma IdentityIsStart<E>(f: Field<E>, c: Lrc, lib: seq<seq<E>>, t: seq<seq<E>>)
    requires LrcOk(c) && IsTable(lib, c.g + 1, c.k) && t == Identity(f, BlockNum(c))
    ensures CheckedTo(f, c, lib, t, c.k)
  {
  }

  lemma CheckedMore<E>(f: Field<E>, c: Lrc, lib: seq<seq<E>>, t: seq<seq<E>>, t': seq<seq<E>>, at: nat)
    requires LrcOk(c) && IsTable(lib, c.g + 1, c.k) && c.k <= at < BlockNum(c)
    requires CheckedTo(f, c, lib, t, at) && OutsideKept(t, t', at, 1) && t'[at] == CheckRow(f, c, lib, at)
    ensures var next := at + 1; CheckedTo(f, c, lib, t', next)
  {
    hide CheckRow;
  }
}

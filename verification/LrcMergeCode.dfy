/**
 Why the merged Azure stripe is a stripe of the larger code: with l dividing k the old groups are groups of
 the new code, so the old local parities are right as they are; the global parities are encoded anew.
 */
module LrcMergeCode {
  import opened Listing
  import opened Partitions
  import opened Fields
  import opened Sums
  import opened Matrices
  import opened RowMajor
  import opened RepairAlgebra
  import opened ErasureCode
  import opened BlockRepair
  import opened LrcShape
  import opened LrcMatrices
  import opened LrcFullMatrix
  import opened LrcCode
  import opened LrcDecodable
  import opened Stripes
  import opened MergeTables
  import opened LrcMerge
  import opened Deviations
  import opened Recalculation
  import opened MergeStore

  // Groups of the merged code.

  /** The groups of the old stripes are, shifted, the groups of the merged stripe. */
  ghost predicate GroupsAlign(c: Lrc, x: nat)
    requires AzureOk(c) && x >= 1
  {
    forall s, i, j :: 0 <= s < x && 0 <= i < c.l && 0 <= j < x * c.k ==> AlignAt(c, x, s, i, j)
  }

  ghost predicate AlignAt(c: Lrc, x: nat, s: nat, i: nat, j: nat)
    requires AzureOk(c) && x >= 1 && s < x && i < c.l && j < x * c.k
  {
    MergedOk(c, x);
    PosBound(s, i, c.l, x);
    InGroup(Merged(c, x), s * c.l + i, j) <==> s * c.k <= j < s * c.k + c.k && InGroup(c, i, j - s * c.k)
  }

  lemma MergedOk(c: Lrc, x: nat)
    requires AzureOk(c) && x >= 1
    ensures AzureOk(Merged(c, x)) && LrcOk(Merged(c, x)) && R(Merged(c, x)) == R(c)
  {
    Monotone(1, x, c.k);
    Monotone(1, x, c.l);
    SameR(c, x);
  }

  /** Rounding up k/l is rounding up xk/xl. */
  lemma SameR(c: Lrc, x: nat)
    requires AzureOk(c) && x >= 1 && AzureOk(Merged(c, x))
    ensures R(Merged(c, x)) == R(c)
  {
    var r, r', l, k := R(c), R(Merged(c, x)), c.l, c.k;
    RBounds(c);
    RBounds(Merged(c, x));
    assert (x * l) * r' == x * (l * r');
    ScaledBack(k, l * r', x);
    assert x * (k + l) == x * k + x * l;
    ScaledBackLess(l * r', k + l, x);
    CeilUnique(l, r, r');
  }

  lemma CeilUnique(l: nat, r: nat, r': nat)
    requires l * r < l * r' + l && l * r' < l * r + l
    ensures r == r'
  {
    assert l * r == r * l && l * r' == r' * l;
    if r < r' {
      RowGap(r, r', l);
    } else if r' < r {
      RowGap(r', r, l);
    }
  }

  lemma ScaledBack(a: nat, b: nat, x: nat)
    requires x >= 1 && x * a <= x * b
    ensures a <= b
  {
    assert x * a == a * x && x * b == b * x;
    if b < a {
      RowGap(b, a, x);
    }
  }

  lemma ScaledBackLess(a: nat, b: nat, x: nat)
    requires x * a < x * b
    ensures a < b
  {
    assert x * a == a * x && x * b == b * x;
    if b <= a {
      Monotone(b, a, x);
    }
  }

  /** The groups align exactly when there is nothing to merge or they divide the data evenly. */
  lemma AlignWhenEven(c: Lrc, x: nat)
    requires AzureOk(c) && x >= 1
    ensures GroupsAlign(c, x) <==> x == 1 || c.k % c.l == 0
  {
    if c.k % c.l == 0 {
      EvenAligns(c, x);
    } else if x == 1 {
      forall s, i, j | 0 <= s < x && 0 <= i < c.l && 0 <= j < x * c.k
        ensures AlignAt(c, x, s, i, j)
      {
        MergedOk(c, x);
      }
    } else {
      UnevenBreaks(c, x);
    }
  }

  lemma EvenAligns(c: Lrc, x: nat)
    requires AzureOk(c) && x >= 1 && c.k % c.l == 0
    ensures GroupsAlign(c, x)
  {
    EvenSize(c);
    forall s, i, j | 0 <= s < x && 0 <= i < c.l && 0 <= j < x * c.k
      ensures AlignAt(c, x, s, i, j)
    {
      MergedOk(c, x);
      assert (s * c.l + i) * R(c) == s * (c.l * R(c)) + i * R(c);
      RowGap(i, c.l, R(c));
    }
  }

  lemma EvenSize(c: Lrc)
    requires AzureOk(c) && c.k % c.l == 0
    ensures c.l * R(c) == c.k
  {
    RBounds(c);
    var m := c.k / c.l;
    assert c.k == c.l * m;
    CeilUnique(c.l, R(c), m);
  }

  lemma EvenProduct(l: nat, r: nat)
    requires l >= 1
    ensures (l * r) % l == 0
  {
    RowColOfPos(r, 0, l);
    assert l * r == Pos(r, 0, l);
  }

  lemma StraddlingGroup(c: Lrc) returns (i: nat)
    requires AzureOk(c) && c.k % c.l != 0
    ensures i < c.l && i * R(c) <= c.k < i * R(c) + R(c)
  {
    RBounds(c);
    EvenProduct(c.l, R(c));
    i := c.k / R(c);
    assert i * R(c) <= c.k < i * R(c) + R(c);
    hide R;
    if i >= c.l {
      Monotone(c.l, i, R(c));
    }
  }

  /** The group that ends past the first stripe takes in a block of the second. */
  lemma UnevenBreaks(c: Lrc, x: nat)
    requires AzureOk(c) && x >= 2 && c.k % c.l != 0
    ensures !GroupsAlign(c, x)
  {
    hide R;
    MergedOk(c, x);
    var i := StraddlingGroup(c);
    Monotone(2, x, c.k);
    assert !AlignAt(c, x, 0, i, c.k);
  }

  // Local parities.

  /** The data part of a local equation. */
  ghost function DataRow<E>(f: Field<E>, c: Lrc, i: nat): (r: seq<E>)
    requires AzureOk(c) && i < c.l
    ensures |r| == c.k && forall j :: 0 <= j < c.k ==> r[j] == if InGroup(c, i, j) then f.one else f.zero
  {
    seq(c.k, j requires 0 <= j < c.k => if InGroup(c, i, j) then f.one else f.zero)
  }

  /** A local parity of Azure's code is a plain sum over its group's data. */
  lemma LocalIsDataSum<E(!new)>(f: Field<E>, c: Lrc, lib: seq<seq<E>>, data: seq<E>, i: nat)
    requires Laws(f) && AzureOk(c) && IsTable(lib, c.g + 1, c.k) && |data| == c.k && i < c.l
    ensures Locals(f, c, lib, data)[i] == Dot(f, DataRow(f, c, i), data)
  {
    var globals := Globals(f, c, lib, data);
    LocalIsGroupSum(f, c, lib, data, i);
    LocalRowSplits(f, c, lib, i);
    DotConcat(f, DataRow(f, c, i), data, Zeros(f, c.g), globals);
    DotZeros(f, Zeros(f, c.g), globals);
    LawsAt(f, Dot(f, DataRow(f, c, i), data), f.zero, f.zero);
  }

  lemma LocalRowSplits<E>(f: Field<E>, c: Lrc, lib: seq<seq<E>>, i: nat)
    requires AzureOk(c) && IsTable(lib, c.g + 1, c.k) && i < c.l
    ensures LocalRow(f, c, lib, i) == DataRow(f, c, i) + Zeros(f, c.g)
  {
  }

  /** The words of all old stripes' data, one stripe after another. */
  function Joined<X>(parts: seq<seq<X>>, k: nat): (r: seq<X>)
    requires k >= 1 && forall s :: 0 <= s < |parts| ==> |parts[s]| == k
    ensures |r| == |parts| * k
  {
    forall j: nat | j < |parts| * k { RowInBounds(j, k, |parts|); }
    seq(|parts| * k, j requires 0 <= j < |parts| * k => parts[RowOf(j, k)][ColOf(j, k)])
  }

  lemma JoinedAt<X>(parts: seq<seq<X>>, k: nat, s: nat, i: nat)
    requires k >= 1 && (forall s :: 0 <= s < |parts| ==> |parts[s]| == k) && s < |parts| && i < k
    ensures s * k + i < |parts| * k && Joined(parts, k)[s * k + i] == parts[s][i]
  {
    PosBound(s, i, k, |parts|);
    RowColOfPos(s, i, k);
  }

  lemma JoinedPart<X>(parts: seq<seq<X>>, k: nat, s: nat)
    requires k >= 1 && (forall s :: 0 <= s < |parts| ==> |parts[s]| == k) && s < |parts|
    ensures s * k + k <= |parts| * k && Joined(parts, k)[s * k..s * k + k] == parts[s]
  {
    RowGap(s, |parts|, k);
    forall i | 0 <= i < k
      ensures Joined(parts, k)[s * k + i] == parts[s][i]
    {
      JoinedAt(parts, k, s, i);
    }
  }

  /** A merged local equation is an old one between zeros. */
  lemma MergedRow<E>(f: Field<E>, c: Lrc, x: nat, s: nat, i: nat)
    requires AzureOk(c) && x >= 1 && GroupsAlign(c, x) && s < x && i < c.l && AzureOk(Merged(c, x))
    ensures s * c.l + i < x * c.l && s * c.k + c.k <= x * c.k
    ensures DataRow(f, Merged(c, x), s * c.l + i)
            == (Zeros(f, s * c.k) + DataRow(f, c, i)) + Zeros(f, x * c.k - (s * c.k + c.k))
  {
    hide InGroup;
    PosBound(s, i, c.l, x);
    RowGap(s, x, c.k);
    var row := DataRow(f, Merged(c, x), s * c.l + i);
    var parts := (Zeros(f, s * c.k) + DataRow(f, c, i)) + Zeros(f, x * c.k - (s * c.k + c.k));
    forall j | 0 <= j < x * c.k
      ensures row[j] == parts[j]
    {
      assert AlignAt(c, x, s, i, j);
    }
  }

  /** The same sum over the merged data. */
  lemma LocalUnchanged<E(!new)>(f: Field<E>, c: Lrc, x: nat, lib: seq<seq<E>>, lib': seq<seq<E>>, parts: seq<seq<E>>,
                                s: nat, i: nat)
    requires Laws(f) && AzureOk(c) && x >= 1 && GroupsAlign(c, x) && AzureOk(Merged(c, x)) && s < x == |parts| && i < c.l
    requires IsTable(lib, c.g + 1, c.k) && IsTable(lib', c.g + 1, x * c.k) && forall s :: 0 <= s < x ==> |parts[s]| == c.k
    ensures s * c.l + i < x * c.l
    ensures Locals(f, Merged(c, x), lib', Joined(parts, c.k))[s * c.l + i] == Locals(f, c, lib, parts[s])[i]
  {
    hide GroupsAlign, Locals, DataRow, Joined;
    var d, lo, hi := Joined(parts, c.k), s * c.k, s * c.k + c.k;
    MergedRow(f, c, x, s, i);
    JoinedPart(parts, c.k, s);
    assert d == (d[..lo] + d[lo..hi]) + d[hi..];
    DotBetweenZeros(f, d[..lo], DataRow(f, c, i), parts[s], d[hi..]);
    LocalIsDataSum(f, Merged(c, x), lib', d, s * c.l + i);
    LocalIsDataSum(f, c, lib, parts[s], i);
  }

  // Unaligned groups: some old local parity is wrong for the merged stripe.

  /** Data that is zero but for the first block of the second stripe. */
  ghost function SpoilingData<E>(f: Field<E>, x: nat, k: nat): (r: seq<seq<E>>)
    ensures |r| == x && forall s :: 0 <= s < x ==> r[s] == if s == 1 then UnitRow(f, k, 0) else Zeros(f, k)
  {
    seq(x, s => if s == 1 then UnitRow(f, k, 0) else Zeros(f, k))
  }

  lemma SpoilingJoined<E>(f: Field<E>, x: nat, k: nat)
    requires x >= 2 && k >= 1
    ensures Joined(SpoilingData(f, x, k), k) == UnitRow(f, x * k, k)
  {
    hide RowOf, ColOf, Joined;
    var parts := SpoilingData(f, x, k);
    forall j: nat | j < x * k
      ensures Joined(parts, k)[j] == UnitRow(f, x * k, k)[j]
    {
      RowInBounds(j, k, x);
      PosOfRowCol(j, k);
      JoinedAt(parts, k, RowOf(j, k), ColOf(j, k));
      RowColOfPos(1, 0, k);
    }
  }

  /** The parity of the group that ends past the first stripe takes in the data's only one. */
  lemma SpoiledLocal<E(!new)>(f: Field<E>, c: Lrc, x: nat, lib: seq<seq<E>>, lib': seq<seq<E>>) returns (i: nat)
    requires Laws(f) && AzureOk(c) && x >= 2 && c.k % c.l != 0 && AzureOk(Merged(c, x))
    requires IsTable(lib, c.g + 1, c.k) && IsTable(lib', c.g + 1, x * c.k)
    ensures i < c.l <= x * c.l
    ensures Locals(f, Merged(c, x), lib', Joined(SpoilingData(f, x, c.k), c.k))[i] == f.one
    ensures Locals(f, c, lib, SpoilingData(f, x, c.k)[0])[i] == f.zero
  {
    hide R, Locals, Joined, DataRow;
    MergedOk(c, x);
    Monotone(1, x, c.l);
    Monotone(2, x, c.k);
    i := StraddlingGroup(c);
    var d := UnitRow(f, x * c.k, c.k);
    SpoilingJoined(f, x, c.k);
    LocalIsDataSum(f, Merged(c, x), lib', d, i);
    LocalIsDataSum(f, c, lib, Zeros(f, c.k), i);
    var row := DataRow(f, Merged(c, x), i);
    DotCommutes(f, row, d);
    DotUnit(f, x * c.k, c.k, row);
    DotZeros(f, DataRow(f, c, i), Zeros(f, c.k));
  }

  lemma DotBetweenZeros<E(!new)>(f: Field<E>, a: seq<E>, row: seq<E>, mid: seq<E>, b: seq<E>)
    requires Laws(f) && |row| == |mid|
    ensures Dot(f, (Zeros(f, |a|) + row) + Zeros(f, |b|), (a + mid) + b) == Dot(f, row, mid)
  {
    DotConcat(f, Zeros(f, |a|) + row, a + mid, Zeros(f, |b|), b);
    DotConcat(f, Zeros(f, |a|), a, row, mid);
    DotZeros(f, Zeros(f, |a|), a);
    DotZeros(f, Zeros(f, |b|), b);
    LawsAt(f, Dot(f, row, mid), f.zero, f.zero);
    LawsAt(f, f.zero, Dot(f, row, mid), f.zero);
  }

  // Whole blocks.

  /** The data blocks of x stripes. */
  ghost predicate DatasOk<E>(c: Lrc, x: nat, datas: seq<seq<Block<E>>>, size: nat) {
    |datas| == x && forall s :: 0 <= s < x ==> IsTable(datas[s], c.k, size)
  }

  /** Word p of the stripes' data. */
  ghost function WordsAt<E>(c: Lrc, x: nat, datas: seq<seq<Block<E>>>, size: nat, p: nat): (r: seq<seq<E>>)
    requires DatasOk(c, x, datas, size) && p < size
    ensures |r| == x && forall s :: 0 <= s < x ==> r[s] == Column(datas[s], p)
  {
    seq(x, s requires 0 <= s < x => Column(datas[s], p))
  }

  lemma JoinedIsTable<E>(c: Lrc, x: nat, datas: seq<seq<Block<E>>>, size: nat)
    requires c.k >= 1 && DatasOk(c, x, datas, size)
    ensures IsTable(Joined(datas, c.k), x * c.k, size)
  {
    forall j | 0 <= j < x * c.k
      ensures |Joined(datas, c.k)[j]| == size
    {
      RowInBounds(j, c.k, x);
      assert IsTable(datas[RowOf(j, c.k)], c.k, size);
    }
  }

  lemma JoinedWords<E>(c: Lrc, x: nat, datas: seq<seq<Block<E>>>, size: nat, p: nat)
    requires c.k >= 1 && DatasOk(c, x, datas, size) && p < size
    ensures IsTable(Joined(datas, c.k), x * c.k, size)
    ensures Column(Joined(datas, c.k), p) == Joined(WordsAt(c, x, datas, size, p), c.k)
  {
    hide Joined, RowOf, ColOf;
    JoinedIsTable(c, x, datas, size);
    forall j: nat | j < x * c.k
      ensures Joined(datas, c.k)[j][p] == Joined(WordsAt(c, x, datas, size, p), c.k)[j]
    {
      RowInBounds(j, c.k, x);
      PosOfRowCol(j, c.k);
      JoinedAt(datas, c.k, RowOf(j, c.k), ColOf(j, c.k));
      JoinedAt(WordsAt(c, x, datas, size, p), c.k, RowOf(j, c.k), ColOf(j, c.k));
    }
  }

  lemma StripeEntry<E>(f: Field<E>, c: Lrc, lib: seq<seq<E>>, data: seq<Block<E>>, size: nat, p: nat, i: nat)
    requires LrcOk(c) && IsTable(lib, c.g + 1, c.k) && IsTable(data, c.k, size) && p < size
    requires c.k + c.g <= i < BlockNum(c)
    ensures Stripe(f, c, lib, data, size)[i][p] == Locals(f, c, lib, Column(data, p))[i - c.k - c.g]
  {
    hide Stripe, StripeWord, Locals, Globals;
    StripeByWord(f, c, lib, data, size, p);
    StripeInParts(f, c, lib, Column(data, p));
    assert Column(Stripe(f, c, lib, data, size), p)[i] == Stripe(f, c, lib, data, size)[i][p];
  }

  /** What a merge starts from: the code, the coding matrices of both sizes, and the size of a block. */
  datatype Merging<!E> = Merging(f: Field<E>, c: Lrc, x: nat, lib: seq<seq<E>>, wide: seq<seq<E>>, size: nat)

  ghost predicate MergeOk<E(!new)>(m: Merging<E>) {
    && Laws(m.f) && AzureOk(m.c) && m.x >= 1 && AzureOk(Merged(m.c, m.x))
    && IsTable(m.lib, m.c.g + 1, m.c.k) && IsTable(m.wide, m.c.g + 1, m.x * m.c.k)
  }

  ghost predicate MergesData<E(!new)>(m: Merging<E>, datas: seq<seq<Block<E>>>) {
    MergeOk(m) && DatasOk(m.c, m.x, datas, m.size)
  }

  /** The stripe the larger code would encode from the same data. */
  ghost function MergedStripe<E(!new)>(m: Merging<E>, datas: seq<seq<Block<E>>>): (t: seq<Block<E>>)
    requires MergesData(m, datas)
    ensures IsTable(t, BlockNum(Merged(m.c, m.x)), m.size)
  {
    JoinedIsTable(m.c, m.x, datas, m.size);
    Stripe(m.f, Merged(m.c, m.x), m.wide, Joined(datas, m.c.k), m.size)
  }

  ghost function OldStripes<E(!new)>(m: Merging<E>, datas: seq<seq<Block<E>>>): (olds: seq<seq<Block<E>>>)
    requires MergesData(m, datas)
    ensures |olds| == m.x
    ensures forall s :: 0 <= s < m.x ==>
              && IsTable(datas[s], m.c.k, m.size) && olds[s] == Stripe(m.f, m.c, m.lib, datas[s], m.size)
              && IsTable(olds[s], BlockNum(m.c), m.size)
  {
    seq(m.x, s requires 0 <= s < m.x => Stripe(m.f, m.c, m.lib, datas[s], m.size))
  }

  /** The stripe there is after the merge: old data and local parities where they moved, and the new global parities. */
  ghost function AfterMerge<E(!new)>(m: Merging<E>, datas: seq<seq<Block<E>>>): (t: seq<Block<E>>)
    requires MergesData(m, datas)
    ensures |t| == BlockNum(Merged(m.c, m.x))
    ensures forall j :: 0 <= j < |t| ==> t[j] == BlockAfter(m, datas, j)
  {
    seq(BlockNum(Merged(m.c, m.x)), j requires 0 <= j < BlockNum(Merged(m.c, m.x)) => BlockAfter(m, datas, j))
  }

  ghost function BlockAfter<E(!new)>(m: Merging<E>, datas: seq<seq<Block<E>>>, j: nat): Block<E>
    requires MergesData(m, datas) && j < BlockNum(Merged(m.c, m.x))
  {
    PlacesAreOrigins(m.c, m.x, j);
    match OriginOf(m.c, m.x, j)
    case Old(s, i) => OldStripes(m, datas)[s][i]
    case New(_, p) => MergedStripe(m, datas)[j]
  }

  /** A data block is the same block in the old stripe and at its new place. */
  lemma DataBlockStays<E(!new)>(m: Merging<E>, datas: seq<seq<Block<E>>>, s: nat, i: nat)
    requires MergesData(m, datas) && s < m.x && i < m.c.k
    ensures NewIdx(m.c, m.x, s, i) < BlockNum(Merged(m.c, m.x))
    ensures MergedStripe(m, datas)[NewIdx(m.c, m.x, s, i)] == OldStripes(m, datas)[s][i]
  {
    hide Stripe, Joined, OldStripes;
    OriginsArePlaces(m.c, m.x, Old(s, i));
    JoinedIsTable(m.c, m.x, datas, m.size);
    JoinedAt(datas, m.c.k, s, i);
    DataEntry(m.f, Merged(m.c, m.x), m.wide, Joined(datas, m.c.k), m.size, s * m.c.k + i);
    DataEntry(m.f, m.c, m.lib, datas[s], m.size, i);
  }

  lemma DataEntry<E>(f: Field<E>, c: Lrc, lib: seq<seq<E>>, data: seq<Block<E>>, size: nat, i: nat)
    requires LrcOk(c) && IsTable(lib, c.g + 1, c.k) && IsTable(data, c.k, size) && i < c.k
    ensures Stripe(f, c, lib, data, size)[i] == data[i]
  {
  }

  /** Word p of local parity i of stripe s, as it was. */
  lemma LocalWordBefore<E(!new)>(m: Merging<E>, datas: seq<seq<Block<E>>>, s: nat, i: nat, p: nat)
    requires MergesData(m, datas) && s < m.x && i < m.c.l && p < m.size
    ensures OldStripes(m, datas)[s][m.c.k + m.c.g + i][p] == Locals(m.f, m.c, m.lib, WordsAt(m.c, m.x, datas, m.size, p)[s])[i]
  {
    hide Locals, Stripe, Merged;
    StripeEntry(m.f, m.c, m.lib, datas[s], m.size, p, m.c.k + m.c.g + i);
  }

  /** The same word as the larger code has it. */
  ghost function WideLocal<E(!new)>(m: Merging<E>, datas: seq<seq<Block<E>>>, p: nat, i: nat): E
    requires MergesData(m, datas) && p < m.size && i < m.x * m.c.l
  {
    Locals(m.f, Merged(m.c, m.x), m.wide, Joined(WordsAt(m.c, m.x, datas, m.size, p), m.c.k))[i]
  }

  lemma WideLocalIs<E(!new)>(m: Merging<E>, datas: seq<seq<Block<E>>>, p: nat, i: nat)
    requires MergesData(m, datas) && p < m.size && i < m.x * m.c.l
    ensures var at := m.x * m.c.k + m.c.g + i; at < |MergedStripe(m, datas)| && MergedStripe(m, datas)[at][p] == WideLocal(m, datas, p, i)
  {
    hide Locals, Stripe, Joined, WordsAt;
    JoinedWords(m.c, m.x, datas, m.size, p);
    StripeEntry(m.f, Merged(m.c, m.x), m.wide, Joined(datas, m.c.k), m.size, p, m.x * m.c.k + m.c.g + i);
  }

  /** Where local parity i of stripe s goes. */
  lemma LocalPlace(c: Lrc, x: nat, s: nat, i: nat)
    requires AzureOk(c) && s < x && i < c.l
    ensures s * c.l + i < x * c.l && NewIdx(c, x, s, c.k + c.g + i) == x * c.k + c.g + (s * c.l + i)
  {
    PosBound(s, i, c.l, x);
  }

  /** So is a local parity, when the groups align. */
  lemma LocalBlockStays<E(!new)>(m: Merging<E>, datas: seq<seq<Block<E>>>, s: nat, i: nat)
    requires MergesData(m, datas) && GroupsAlign(m.c, m.x) && s < m.x && i < m.c.l
    ensures NewIdx(m.c, m.x, s, m.c.k + m.c.g + i) < BlockNum(Merged(m.c, m.x))
    ensures MergedStripe(m, datas)[NewIdx(m.c, m.x, s, m.c.k + m.c.g + i)] == OldStripes(m, datas)[s][m.c.k + m.c.g + i]
  {
    hide GroupsAlign, Locals, Stripe, Joined, MergedStripe, OldStripes;
    OriginsArePlaces(m.c, m.x, Old(s, m.c.k + m.c.g + i));
    LocalPlace(m.c, m.x, s, i);
    var at, was := NewIdx(m.c, m.x, s, m.c.k + m.c.g + i), OldStripes(m, datas)[s][m.c.k + m.c.g + i];
    forall p | 0 <= p < m.size
      ensures MergedStripe(m, datas)[at][p] == was[p]
    {
      LocalWordBefore(m, datas, s, i, p);
      WideLocalIs(m, datas, p, s * m.c.l + i);
      LocalUnchanged(m.f, m.c, m.x, m.lib, m.wide, WordsAt(m.c, m.x, datas, m.size, p), s, i);
    }
  }

  lemma BlockStays<E(!new)>(m: Merging<E>, datas: seq<seq<Block<E>>>, j: nat)
    requires MergesData(m, datas) && GroupsAlign(m.c, m.x) && j < BlockNum(Merged(m.c, m.x))
    ensures BlockAfter(m, datas, j) == MergedStripe(m, datas)[j]
  {
    hide GroupsAlign, MergedStripe, OldStripes, NewIdx, OriginOf, Merged;
    PlacesAreOrigins(m.c, m.x, j);
    match OriginOf(m.c, m.x, j)
    case Old(s, i) =>
      if i < m.c.k {
        DataBlockStays(m, datas, s, i);
      } else {
        LocalBlockStays(m, datas, s, i - m.c.k - m.c.g);
      }
    case New(_, p) =>
  }

  /** With aligned groups the stripe after the merge is the one the larger code would encode. */
  lemma AlignedMergeIsEncoded<E(!new)>(m: Merging<E>, datas: seq<seq<Block<E>>>)
    requires MergesData(m, datas) && GroupsAlign(m.c, m.x)
    ensures AfterMerge(m, datas) == MergedStripe(m, datas)
  {
    hide GroupsAlign, MergedStripe, OldStripes, NewIdx, OriginOf, Merged, BlockAfter;
    forall j: nat | j < BlockNum(Merged(m.c, m.x))
      ensures BlockAfter(m, datas, j) == MergedStripe(m, datas)[j]
    {
      BlockStays(m, datas, j);
    }
  }

  /** Whatever the data, the stripe after the merge is the one the larger code would encode. */
  ghost predicate AlwaysEncoded<E(!new)>(m: Merging<E>)
    requires MergeOk(m)
  {
    forall datas: seq<seq<Block<E>>> :: DatasOk(m.c, m.x, datas, m.size) ==> AfterMerge(m, datas) == MergedStripe(m, datas)
  }

  /** Blocks with the spoiling data in every word. */
  ghost function SpoilingBlocks<E>(m: Merging<E>): (datas: seq<seq<Block<E>>>)
    ensures DatasOk(m.c, m.x, datas, m.size)
    ensures forall p :: 0 <= p < m.size ==> WordsAt(m.c, m.x, datas, m.size, p) == SpoilingData(m.f, m.x, m.c.k)
  {
    var parts := SpoilingData(m.f, m.x, m.c.k);
    var datas := seq(m.x, s requires 0 <= s < m.x =>
                   seq(m.c.k, i requires 0 <= i < m.c.k => seq(m.size, p requires 0 <= p < m.size => parts[s][i])));
    assert forall p, s :: 0 <= p < m.size && 0 <= s < m.x ==> Column(datas[s], p) == parts[s];
    datas
  }

  lemma SpoiledMerge<E(!new)>(m: Merging<E>)
    requires MergeOk(m) && m.f.one != m.f.zero && m.size > 0 && m.x >= 2 && m.c.k % m.c.l != 0
    ensures AfterMerge(m, SpoilingBlocks(m)) != MergedStripe(m, SpoilingBlocks(m))
  {
    hide R, Locals, Stripe, Joined, MergedStripe, OldStripes, Merged, SpoilingBlocks, NewIdx, OriginOf;
    var datas := SpoilingBlocks(m);
    var i := SpoiledLocal(m.f, m.c, m.x, m.lib, m.wide);
    var o := Old(0, m.c.k + m.c.g + i);
    OriginsArePlaces(m.c, m.x, o);
    LocalWordBefore(m, datas, 0, i, 0);
    LocalPlace(m.c, m.x, 0, i);
    WideLocalIs(m, datas, 0, i);
    assert AfterMerge(m, datas)[PlaceOf(m.c, m.x, o)] == OldStripes(m, datas)[0][m.c.k + m.c.g + i];
    assert AfterMerge(m, datas)[PlaceOf(m.c, m.x, o)][0] == m.f.zero;
  }

  /**
   Exactly when there is nothing to merge, or the groups divide the data evenly, the merge is right whatever
   the data. Otherwise some old local parity is wrong for the stripe it is put in.
   */
  lemma EncodedWhen<E(!new)>(m: Merging<E>)
    requires MergeOk(m) && m.f.one != m.f.zero && m.size > 0
    ensures AlwaysEncoded(m) <==> m.x == 1 || m.c.k % m.c.l == 0
  {
    hide GroupsAlign, AfterMerge, MergedStripe, SpoilingBlocks;
    AlignWhenEven(m.c, m.x);
    if m.x == 1 || m.c.k % m.c.l == 0 {
      forall datas: seq<seq<Block<E>>> | DatasOk(m.c, m.x, datas, m.size)
        ensures AfterMerge(m, datas) == MergedStripe(m, datas)
      {
        AlignedMergeIsEncoded(m, datas);
      }
    } else {
      SpoiledMerge(m);
    }
  }

  // Recalculating the global parities.

  /** The new global parities. */
  function GlobalRange(c: Lrc): (r: seq<nat>)
    ensures |r| == c.g && forall i :: 0 <= i < c.g ==> r[i] == c.k + i
  {
    seq(c.g, i requires 0 <= i < c.g => c.k + i)
  }

  /** The job of recalculating the global parities of a stripe. */
  ghost function GlobalJob<E(!new)>(f: Field<E>, c: Lrc, lib: seq<seq<E>>, data: seq<Block<E>>, size: nat): Job<E>
    requires AzureOk(c) && IsTable(lib, c.g + 1, c.k) && IsTable(data, c.k, size)
  {
    Job(f, CheckTable(f, c, lib), GlobalRange(c), Stripe(f, c, lib, data, size), size)
  }

  /** The recalculation is asked for the global parities, with the data blocks in any split and order. */
  lemma GlobalsCanBeRecalculated<E(!new)>(f: Field<E>, c: Lrc, lib: seq<seq<E>>, data: seq<Block<E>>, size: nat, all: seq<nat>)
    requires Laws(f) && AzureOk(c) && IsTable(lib, c.g + 1, c.k) && IsTable(data, c.k, size)
    requires SameBlocks(all, UpTo(c.k))
    ensures RecalOk(GlobalJob(f, c, lib, data, size), all)
  {
    hide CheckTable, Stripe, SameBlocks, StripeOk, SplitsSupport, Identity;
    EncodedStripeIsChecked(f, c, lib, data, size, GlobalRange(c));
    GlobalsStandAlone(f, c, lib);
    GlobalsInvolveData(f, c, lib, all);
  }

  /** The equations of the global parities involve the data and one parity each. */
  lemma GlobalsInvolveData<E(!new)>(f: Field<E>, c: Lrc, lib: seq<seq<E>>, all: seq<nat>)
    requires Laws(f) && AzureOk(c) && IsTable(lib, c.g + 1, c.k) && SameBlocks(all, UpTo(c.k))
    requires InRange(GlobalRange(c), BlockNum(c))
    ensures SplitsSupport(f, CheckTable(f, c, lib), GlobalRange(c), GlobalRange(c), [all], BlockNum(c))
  {
    hide CheckTable, SameBlocks, CheckRow;
    var h, rows, n := CheckTable(f, c, lib), GlobalRange(c), BlockNum(c);
    AllData(c, all);
    ConcatOne(all);
    NoRepeatsConcat(rows, all);
    forall u, j | 0 <= u < |rows| && 0 <= j < n && h[rows[u]][j] != f.zero
      ensures j in rows + Concat([all])
    {
      if Feeds(c, j, rows[u]) {
        assert j < c.k ==> j in all;
        assert j >= c.k ==> j == rows[u];
      } else {
        OnlyFeedersCount(f, c, lib, j, rows[u]);
      }
    }
  }

  lemma AllData(c: Lrc, all: seq<nat>)
    requires SameBlocks(all, UpTo(c.k))
    ensures NoRepeats(all) && InRange(all, c.k) && forall x :: x in all <==> 0 <= x < c.k
  {
    SameLists(all, UpTo(c.k), c.k);
    forall x
      ensures x in all <==> 0 <= x < c.k
    {
      if 0 <= x < c.k {
        InUpTo(c.k, x);
      }
    }
  }

  /** In its own equations each global parity has coefficient one, and no other global parity enters. */
  lemma GlobalsStandAlone<E>(f: Field<E>, c: Lrc, lib: seq<seq<E>>)
    requires AzureOk(c) && IsTable(lib, c.g + 1, c.k)
    ensures InRange(GlobalRange(c), BlockNum(c)) && NoRepeats(GlobalRange(c))
    ensures SubMatrix(CheckTable(f, c, lib), GlobalRange(c), GlobalRange(c), BlockNum(c)) == Identity(f, c.g)
  {
    var rows := GlobalRange(c);
    var m := SubMatrix(CheckTable(f, c, lib), rows, rows, BlockNum(c));
    forall u | 0 <= u < c.g
      ensures m[u] == UnitRow(f, c.g, u)
    {
      assert CheckTable(f, c, lib)[rows[u]] == CheckRow(f, c, lib, rows[u]);
    }
  }

  /** What a help cluster sends: the partial global parities of the blocks it has. */
  function PartialGlobals<E>(f: Field<E>, n: nat, flat: seq<E>, rows: seq<nat>, stored: seq<Block<E>>, size: nat): Helper<E>
    requires n * n <= |flat| && |stored| == n && (forall u :: 0 <= u < |rows| ==> rows[u] < n)
  {
    (idxs: seq<nat>) =>
      if (forall i :: 0 <= i < |idxs| ==> idxs[i] < n && |stored[idxs[i]]| == size)
      then EncodeBlocks(f, SubMatrix(TableOf(flat, n, n), rows, idxs, n), Pick(stored, idxs), size)
      else []
  }

  /** Help clusters that hold only data blocks send what they ought to. */
  lemma PartialGlobalsRight<E(!new)>(f: Field<E>, c: Lrc, lib: seq<seq<E>>, data: seq<Block<E>>, size: nat, flat: seq<E>,
                                     stored: seq<Block<E>>, idxs: seq<nat>)
    requires AzureOk(c) && IsTable(lib, c.g + 1, c.k) && IsTable(data, c.k, size) && |flat| == BlockNum(c) * BlockNum(c)
    requires TableOf(flat, BlockNum(c), BlockNum(c)) == CheckTable(f, c, lib) && InRange(idxs, c.k)
    requires StoredOk(stored, Stripe(f, c, lib, data, size), UpTo(c.k), size)
    ensures Shaped(GlobalJob(f, c, lib, data, size)) && InRange(idxs, BlockNum(c))
    ensures PartialGlobals(f, BlockNum(c), flat, GlobalRange(c), stored, size)(idxs) == Due(GlobalJob(f, c, lib, data, size), idxs)
  {
    hide CheckTable, Stripe, TableOf;
    var job := GlobalJob(f, c, lib, data, size);
    DueIs(job, idxs);
    forall i | 0 <= i < |idxs|
      ensures idxs[i] in UpTo(c.k)
    {
      InUpTo(c.k, idxs[i]);
    }
    StoredIsTruth(stored, job.truth, UpTo(c.k), size, idxs);
    forall i | 0 <= i < |idxs|
      ensures stored[idxs[i]] == job.truth[idxs[i]]
    {
      assert Pick(stored, idxs)[i] == Pick(job.truth, idxs)[i];
    }
  }

  /** So do all of them. */
  lemma AllSendRight<E(!new)>(f: Field<E>, c: Lrc, lib: seq<seq<E>>, data: seq<Block<E>>, size: nat, flat: seq<E>,
                              stored: seq<Block<E>>, own: seq<nat>, help: seq<seq<nat>>, partialDecoding: bool)
    requires Laws(f) && AzureOk(c) && IsTable(lib, c.g + 1, c.k) && IsTable(data, c.k, size)
    requires |flat| == BlockNum(c) * BlockNum(c) && TableOf(flat, BlockNum(c), BlockNum(c)) == CheckTable(f, c, lib)
    requires StoredOk(stored, Stripe(f, c, lib, data, size), UpTo(c.k), size)
    requires SameBlocks(own + Concat(help), UpTo(c.k))
    ensures var job, helper := GlobalJob(f, c, lib, data, size), PartialGlobals(f, BlockNum(c), flat, GlobalRange(c), stored, size);
            var sets := SentPartial(help, c.g, partialDecoding);
            && Shaped(job) && SendsTables(job, helper, sets) && Outcome(job, helper, sets) == Pick(job.truth, job.rows)
  {
    hide CheckTable, Stripe, TableOf, SentPartial, SameBlocks, Due, StoredOk, PartialGlobals;
    StoredSize(stored, Stripe(f, c, lib, data, size), UpTo(c.k), size);
    var job, helper := GlobalJob(f, c, lib, data, size), PartialGlobals(f, BlockNum(c), flat, GlobalRange(c), stored, size);
    var sets := SentPartial(help, c.g, partialDecoding);
    AllData(c, own + Concat(help));
    HelpFromAll(own, help, c.k);
    SentApart(help, c.g, partialDecoding);
    PartialGlobalsRight(f, c, lib, data, size, flat, stored, []);
    forall i | 0 <= i < |sets|
      ensures InRange(sets[i], BlockNum(c)) && helper(sets[i]) == Due(job, sets[i])
    {
      assert sets[i] in sets;
      var j :| 0 <= j < |help| && help[j] == sets[i];
      PartialGlobalsRight(f, c, lib, data, size, flat, stored, sets[i]);
    }
    RightHelpers(job, helper, sets);
  }

  /** The global parities of a stripe, from its data blocks in any split and in any order of arrival. */
  method RecalculateGlobals<E(0, !new)>(f: Field<E>, c: Lrc, lib: seq<seq<E>>, own: seq<nat>, help: seq<seq<nat>>,
                                        partialDecoding: bool, stored: seq<Block<E>>, size: nat, ghost data: seq<Block<E>>)
      returns (coding: array<Block<E>>)
    requires Laws(f) && AzureOk(c) && IsTable(lib, c.g + 1, c.k) && IsTable(data, c.k, size)
    requires SameBlocks(own + Concat(help), UpTo(c.k))
    requires StoredOk(stored, Stripe(f, c, lib, data, size), UpTo(c.k), size)
    ensures InRange(GlobalRange(c), BlockNum(c))
    ensures fresh(coding) && coding[..] == Pick(Stripe(f, c, lib, data, size), GlobalRange(c))
  {
    hide CheckTable, Stripe, SameBlocks, RecalOk, TableOf, SentPartial, PartialGlobals, SendsTables, StoredOk;
    GlobalsCanBeRecalculated(f, c, lib, data, size, own + Concat(help));
    GlobalsStandAlone(f, c, lib);
    StoredRearranged(stored, Stripe(f, c, lib, data, size), UpTo(c.k), own + Concat(help), size);
    var matrix := FullMatrix(f, c, lib);
    AllSendRight(f, c, lib, data, size, matrix[..], stored, own, help, partialDecoding);
    StoredSize(stored, Stripe(f, c, lib, data, size), UpTo(c.k), size);
    coding := MainRecal(f, BlockNum(c), matrix[..], GlobalRange(c), own, help, partialDecoding,
                        PartialGlobals(f, BlockNum(c), matrix[..], GlobalRange(c), stored, size), stored, size,
                        GlobalJob(f, c, lib, data, size));
  }

  lemma StoredSize<E>(stored: seq<Block<E>>, truth: seq<Block<E>>, all: seq<nat>, size: nat)
    requires StoredOk(stored, truth, all, size)
    ensures |stored| == |truth|
  {
  }

  // The whole merge.

  /** Every kept block is, at its new place, the block the stripe has there after the merge. */
  lemma KeptBlocksMatch<E(!new)>(m: Merging<E>, datas: seq<seq<Block<E>>>)
    requires MergesData(m, datas)
    ensures KeepsBlocks(Origins(m.c, m.x), OldStripes(m, datas), AfterMerge(m, datas))
  {
    hide MergedStripe, OldStripes, OriginOf, Merged, BlockNum, AfterMerge;
    var origins := Origins(m.c, m.x);
    forall j: nat | j < |origins| && origins[j].Old?
      ensures && origins[j].stripe < m.x && origins[j].block < |OldStripes(m, datas)[origins[j].stripe]|
              && AfterMerge(m, datas)[j] == OldStripes(m, datas)[origins[j].stripe][origins[j].block]
    {
      PlacesAreOrigins(m.c, m.x, j);
    }
  }

  /** The data, read at its new places, is the data of the merged stripe. */
  lemma DataAfter<E(!new)>(m: Merging<E>, datas: seq<seq<Block<E>>>, j: nat)
    requires MergesData(m, datas) && j < m.x * m.c.k
    ensures j < |AfterMerge(m, datas)| && AfterMerge(m, datas)[j] == MergedStripe(m, datas)[j]
    ensures Origins(m.c, m.x)[j].Old?
  {
    hide MergedStripe, OldStripes;
    PlacesAreOrigins(m.c, m.x, j);
    var o := OriginOf(m.c, m.x, j);
    DataBlockStays(m, datas, o.stripe, o.block);
  }

  /** A new global parity's place, and the block that belongs there. */
  lemma NewGlobal<E(!new)>(m: Merging<E>, datas: seq<seq<Block<E>>>, p: nat)
    requires MergesData(m, datas) && p < m.c.g
    ensures var at := m.x * m.c.k + p;
            && IsPlace(Origins(m.c, m.x), at, New(0, p))
            && at < |AfterMerge(m, datas)| && AfterMerge(m, datas)[at] == MergedStripe(m, datas)[at]
  {
    hide MergedStripe, OldStripes;
    PlaceIs(m.c, m.x, New(0, p));
  }

  lemma TablesReady<E(!new)>(m: Merging<E>, stripes: seq<StripeInfo>, nodes: seq<seq<nat>>, t: StripeInfo, writes: seq<nat>,
                             cur0: nat, cur: nat)
    requires MergeOk(m) && NewPlaces(Origins(m.c, m.x), stripes, nodes, t, writes, [cur0], -1, 0) && cur == cur0 + m.c.g
    ensures TablesOk(Origins(m.c, m.x), stripes, nodes, t, writes, [cur0], m.c.g, cur0, cur)
    ensures forall j :: 0 <= j < |Origins(m.c, m.x)| ==>
              Origins(m.c, m.x)[j].New? ==> Origins(m.c, m.x)[j].row < 1 && Origins(m.c, m.x)[j].parity < m.c.g
  {
    hide NewPlaces, OriginOf, Merged;
    OriginsOk(m.c, m.x);
    forall j | 0 <= j < |Origins(m.c, m.x)|
      ensures OriginOk(Origins(m.c, m.x)[j], m.x, BlockNum(m.c), 1, m.c.g)
    {
    }
  }

  /** Reads the data blocks of the merged stripe, wherever they are. */
  method ReadData<E(!new)>(ghost m: Merging<E>, ghost datas: seq<seq<Block<E>>>, k: nat, n: nat, t: StripeInfo,
                           store: map<nat, Block<E>>) returns (stored: seq<Block<E>>)
    requires MergesData(m, datas) && k == m.x * m.c.k && n == BlockNum(Merged(m.c, m.x))
    requires HeldTo(Origins(m.c, m.x), t, store, AfterMerge(m, datas), 0, 0)
    ensures StoredOk(stored, MergedStripe(m, datas), UpTo(k), m.size)
  {
    hide MergedStripe, AfterMerge, OriginOf;
    stored := [];
    for j := 0 to k
      invariant |stored| == j && forall i :: 0 <= i < j ==> stored[i] == MergedStripe(m, datas)[i]
    {
      DataAfter(m, datas, j);
      assert Held(t, store, AfterMerge(m, datas), j);
      stored := stored + [store[t.blockIds[j]]];
    }
    stored := stored + seq(n - k, _ => []);
  }

  /**
   The whole merge: afterwards every place of the larger stripe holds its block of AfterMerge, which by
   EncodedWhen is what the larger code would encode exactly when the groups divide the data evenly.
   */
  method MergeAzure<E(0, !new)>(ghost m: Merging<E>, ghost datas: seq<seq<Block<E>>>, f: Field<E>, c: Lrc, x: nat,
                                wide: seq<seq<E>>, size: nat, stripes: seq<StripeInfo>, curBlockId: nat, own: seq<nat>,
                                help: seq<seq<nat>>, partialDecoding: bool, store0: map<nat, Block<E>>)
      returns (larger: StripeInfo, store: map<nat, Block<E>>)
    requires MergesData(m, datas) && m.f == f && m.c == c && m.x == x && m.wide == wide && m.size == size
    requires StripesOk(c, x, stripes) && OldStored(stripes, OldStripes(m, datas), store0, curBlockId)
    requires SameBlocks(own + Concat(help), UpTo(x * c.k))
    ensures |larger.blockIds| == |AfterMerge(m, datas)|
    ensures forall j :: 0 <= j < |larger.blockIds| ==> Held(larger, store, AfterMerge(m, datas), j)
  {
    hide NewPlaces, HeldTo, TablesOk, OldStored, AfterMerge, OldStripes, MergedStripe, OriginOf, SameBlocks, StoredOk, Joined,
         KeepsBlocks, IsPlace;
    ghost var origins, blocks, olds := Origins(c, x), AfterMerge(m, datas), OldStripes(m, datas);
    ghost var writes;
    var cur, nodes;
    larger, cur, nodes, writes := AzureMerge(c, x, stripes, curBlockId);
    store := store0;
    TablesReady(m, stripes, [nodes], larger, writes, curBlockId, cur);
    KeptBlocksMatch(m, datas);
    KeptHeld(origins, stripes, [nodes], larger, writes, [curBlockId], c.g, curBlockId, cur, olds, store, blocks);
    var stored := ReadData(m, datas, x * c.k, BlockNum(Merged(c, x)), larger, store);
    var coding := MergedGlobals(m, datas, f, Merged(c, x), wide, own, help, partialDecoding, stored, size);
    for p := 0 to c.g
      invariant HeldTo(origins, larger, store, blocks, 0, p)
    {
      NewGlobal(m, datas, p);
      HeldMore(origins, stripes, [nodes], larger, writes, [curBlockId], c.g, curBlockId, cur, olds, store0, store, blocks, 0, p,
               x * c.k + p);
      store := store[larger.blockIds[x * c.k + p] := coding[p]];
    }
    HeldNextRow(origins, larger, store, blocks, 0, c.g);
    AllHeld(origins, larger, store, blocks, 1);
  }

  /** The new global parities. */
  method MergedGlobals<E(0, !new)>(ghost m: Merging<E>, ghost datas: seq<seq<Block<E>>>, f: Field<E>, c: Lrc, wide: seq<seq<E>>,
                                   own: seq<nat>, help: seq<seq<nat>>, partialDecoding: bool, stored: seq<Block<E>>, size: nat)
      returns (coding: seq<Block<E>>)
    requires MergesData(m, datas) && m.f == f && c == Merged(m.c, m.x) && m.wide == wide && m.size == size
    requires SameBlocks(own + Concat(help), UpTo(c.k)) && StoredOk(stored, MergedStripe(m, datas), UpTo(c.k), size)
    ensures |coding| == c.g && c.k + c.g <= |MergedStripe(m, datas)|
    ensures forall p :: 0 <= p < c.g ==> coding[p] == MergedStripe(m, datas)[c.k + p]
  {
    hide Stripe, Joined, SameBlocks, StoredOk;
    JoinedIsTable(m.c, m.x, datas, size);
    var parities := RecalculateGlobals(f, c, wide, own, help, partialDecoding, stored, size, Joined(datas, m.c.k));
    coding := parities[..];
  }
}

/** Reading an object back: which blocks of its stripe hold it, also after the stripe has been merged. */
module ReadBack {
  import opened RowMajor
  import opened ErasureCode
  import opened PcLayout
  import opened Stripes
  import opened MergeTables
  import opened MergeStore
  import opened PcMerge
  import opened PcMergeCode
  import LrcShape
  import LrcMerge

  /** The blocks of the first e objects. */
  function OffsetTo<K>(objects: seq<K>, lens: map<K, nat>, bs: nat, e: nat): nat
    requires bs > 0 && e <= |objects| && forall i :: 0 <= i < |objects| ==> objects[i] in lens
  {
    if e == 0 then 0 else OffsetTo(objects, lens, bs, e - 1) + lens[objects[e - 1]] / bs
  }

  /** The first place of a key. */
  function FirstAt<K(==)>(objects: seq<K>, key: K): (e: nat)
    requires key in objects
    ensures e < |objects| && objects[e] == key && key !in objects[..e]
  {
    if objects[0] == key then 0 else 1 + FirstAt(objects[1..], key)
  }

  /** How far into its stripe an object starts; in a merged stripe also which object it is, and of how many. */
  method FindObject<K(==)>(objects: seq<K>, lens: map<K, nat>, key: K, bs: nat, merged: bool)
      returns (offset: nat, seri: nat, x: nat)
    requires bs > 0 && key in objects && forall i :: 0 <= i < |objects| ==> objects[i] in lens
    ensures offset == OffsetTo(objects, lens, bs, FirstAt(objects, key))
    ensures merged ==> seri == FirstAt(objects, key) && x == |objects|
  {
    hide FirstAt;
    offset, seri, x := 0, 0, 0;
    for i := 0 to |objects|
      invariant i <= FirstAt(objects, key) && offset == OffsetTo(objects, lens, bs, i)
    {
      if objects[i] != key {
        offset := offset + lens[objects[i]] / bs;
      } else {
        if merged {
          seri, x := i, |objects|;
        }
        return;
      }
    }
  }

  /** How many blocks to read: the rest of the object, or the rest of the stripe. */
  function ToRead(left: nat, k: nat, offset: nat, bs: nat): nat
    requires bs > 0 && offset <= k
  {
    if left < (k - offset) * bs then (left + bs - 1) / bs else k - offset
  }

  /** The columns before object e of y, in a row k1 wide. */
  function ColumnsBefore(k1: nat, y: nat, e: nat): nat
    requires y > 0
  {
    e * k1 / y
  }

  /** The columns of other objects in so many rows. */
  function Skipped(k1: nat, y: nat, rows: nat): nat
    requires y > 0
  {
    var columns: nat, others: nat := rows * k1, y - 1;
    columns * others / y
  }

  /** The rows of w columns filled before block j. */
  function FullRows(w: nat, j: nat): nat { if w == 0 then 0 else RowOf(j, w) }

  /** Block j of object e of y, when the objects share the rows of a merged stripe k1 wide. */
  function RowShare(k1: nat, y: nat, e: nat, j: nat): nat
    requires y > 0
  {
    j + ColumnsBefore(k1, y, e) + Skipped(k1, y, FullRows(k1 / y, j))
  }

  /** The blocks to read. The loop keeps a column counter and a row counter instead of dividing. */
  method BlocksToRead(left: nat, k: nat, offset: nat, bs: nat, shared: bool, k1: nat, y: nat, e: nat)
      returns (idxs: seq<nat>)
    requires bs > 0 && offset <= k && (shared ==> y > 0)
    ensures |idxs| == ToRead(left, k, offset, bs)
    ensures forall j :: 0 <= j < |idxs| ==> idxs[j] == if shared then RowShare(k1, y, e, j) else j + offset
  {
    hide RowOf, ColOf, ColumnsBefore, Skipped;
    var n: nat := ToRead(left, k, offset, bs);
    idxs := [];
    var cnt1: nat, cnt2: nat := 0, 0;
    if shared {
      CountStart(k1 / y);
    }
    for j := 0 to n
      invariant |idxs| == j && (shared ==> Counted(k1 / y, j, cnt1, cnt2))
      invariant forall t :: 0 <= t < j ==> idxs[t] == if shared then RowShare(k1, y, e, t) else t + offset
    {
      var idx: nat := j + offset;
      if shared {
        idx := idx - offset;
        idx := idx + ColumnsBefore(k1, y, e) + Skipped(k1, y, cnt2);
        CountOn(k1 / y, j, cnt1, cnt2);
        cnt1 := cnt1 + 1;
        if cnt1 == k1 / y {
          cnt1 := 0;
          cnt2 := cnt2 + 1;
        }
      }
      idxs := idxs + [idx];
    }
  }

  /** The counters at block j: the column in the row, and the full rows; in rows of no columns there are none. */
  ghost predicate Counted(w: nat, j: nat, cnt1: nat, cnt2: nat) {
    cnt2 == FullRows(w, j) && cnt1 == if w == 0 then j else ColOf(j, w)
  }

  lemma CountStart(w: nat)
    ensures Counted(w, 0, 0, 0)
  {
    if w > 0 {
      RowColOfPos(0, 0, w);
    }
  }

  /** Counting on by one within a row, or to the start of the next. */
  lemma CountOn(w: nat, t: nat, cnt1: nat, cnt2: nat)
    requires Counted(w, t, cnt1, cnt2)
    ensures if cnt1 + 1 == w then Counted(w, t + 1, 0, cnt2 + 1) else Counted(w, t + 1, cnt1 + 1, cnt2)
  {
    hide RowOf, ColOf, Pos;
    if w > 0 {
      PosOfRowCol(t, w);
      PosNext(cnt2, cnt1, w);
      if cnt1 + 1 < w {
        RowColOfPos(cnt2, cnt1 + 1, w);
      } else {
        RowColOfPos(cnt2 + 1, 0, w);
      }
    }
  }

  lemma PosNext(i: nat, j: nat, w: nat)
    requires j < w
    ensures Pos(i, j, w) + 1 == if j + 1 < w then Pos(i, j + 1, w) else Pos(i + 1, 0, w)
  {
    assert (i + 1) * w == i * w + w;
  }

  // Merged product-code stripes.

  lemma Cancel(a: nat, y: nat)
    requires y > 0
    ensures a * y / y == a
  {
    hide RowOf, ColOf;
    RowColOfPos(a, 0, y);
    RowIsQuotient(a * y, y);
  }

  lemma RowIsQuotient(t: nat, w: nat)
    requires w > 0
    ensures RowOf(t, w) == t / w
  {
  }

  lemma ColumnsExactly(n: nat, y: nat, e: nat)
    requires y > 0
    ensures ColumnsBefore(n * y, y, e) == e * n
  {
    assert e * (n * y) == (e * n) * y;
    Cancel(e * n, y);
  }

  lemma SkippedExactly(n: nat, y: nat, rows: nat)
    requires y > 0
    ensures Skipped(n * y, y, rows) == rows * n * (y - 1)
  {
    Reassociated(rows, n, y);
    Exactly(rows * (n * y) * (y - 1), rows * n * (y - 1), y);
  }

  lemma Exactly(a: nat, b: nat, y: nat)
    requires y > 0 && a == b * y
    ensures a / y == b
  {
    Cancel(b, y);
  }

  /** A row of n columns for each of y objects: how the quotients come out. */
  lemma SharesExactly(n: nat, y: nat, e: nat, rows: nat)
    requires y > 0
    ensures (n * y) / y == n && ColumnsBefore(n * y, y, e) == e * n && Skipped(n * y, y, rows) == rows * n * (y - 1)
  {
    hide ColumnsBefore, Skipped;
    Cancel(n, y);
    ColumnsExactly(n, y, e);
    SkippedExactly(n, y, rows);
  }

  lemma Reassociated(rows: nat, n: nat, y: nat)
    requires y > 0
    ensures rows * (n * y) * (y - 1) == (rows * n * (y - 1)) * y
  {
    var q := rows * n;
    assert rows * (n * y) == q * y;
    assert (q * y) * (y - 1) == (q * (y - 1)) * y;
  }

  /** Where a data block goes. */
  lemma DataPlace(pc: Params, x: nat, s: nat, row: nat, col: nat)
    requires pc.k1 >= 1 && s < x && row < pc.k2 && col < pc.k1
    ensures Pos(row, col, pc.k1) < DataEnd(pc) <= BlockCount(pc)
    ensures OldBid2NewBid(pc, x, s, Pos(row, col, pc.k1)) == row * (x * pc.k1) + col + s * pc.k1
  {
    DataRoundTrip(pc, row, col);
    AreasInOrder(pc);
    PosBound(s, col, pc.k1, x);
  }

  lemma WholeRows(row: nat, k1: nat, x: nat)
    requires x >= 1
    ensures row * k1 + row * k1 * (x - 1) == row * (x * k1)
  {
    var q := row * k1;
    assert q + q * (x - 1) == q * x;
    assert row * (x * k1) == q * x;
  }

  /** Objects that fill a stripe each are read from exactly the places their blocks were moved to, in order. */
  lemma WholeStripesReadRight(pc: Params, x: nat, s: nat, j: nat)
    requires pc.k1 >= 1 && s < x && j < DataEnd(pc)
    ensures j < BlockCount(pc) && RowShare(x * pc.k1, x, s, j) == OldBid2NewBid(pc, x, s, j)
  {
    hide RowOf, ColOf, ColumnsBefore, Skipped, OldBid2NewBid, BlockCount;
    RowInBounds(j, pc.k1, pc.k2);
    PosOfRowCol(j, pc.k1);
    var row, col := RowOf(j, pc.k1), ColOf(j, pc.k1);
    DataPlace(pc, x, s, row, col);
    SharesExactly(pc.k1, x, s, row);
    assert pc.k1 * x == x * pc.k1;
    WholeRows(row, pc.k1, x);
  }

  // Several objects to a stripe.

  function Total(l: seq<nat>): nat { if l == [] then 0 else Total(l[..|l| - 1]) + l[|l| - 1] }

  /** The objects of the first s stripes. */
  function ObjectsBefore(lens: seq<seq<nat>>, s: nat): nat
    requires s <= |lens|
  {
    if s == 0 then 0 else ObjectsBefore(lens, s - 1) + |lens[s - 1]|
  }

  /** The lengths, in blocks, of the objects of each old stripe: none is empty, and they fill the stripe. */
  ghost predicate ObjectsFill(pc: Params, x: nat, lens: seq<seq<nat>>) {
    && pc.k1 >= 1 && pc.k2 >= 1 && x >= 1 && |lens| == x && forall s :: 0 <= s < x ==> StripeFilled(pc, lens[s])
  }

  ghost predicate StripeFilled(pc: Params, l: seq<nat>) { Total(l) == DataEnd(pc) && forall i :: 0 <= i < |l| ==> l[i] >= 1 }

  lemma {:induction false} OffsetBounds(l: seq<nat>, i: nat)
    requires i < |l| && forall i :: 0 <= i < |l| ==> l[i] >= 1
    ensures i <= Total(l[..i]) && Total(l[..i]) + l[i] <= Total(l)
    ensures i == |l| - 1 ==> Total(l[..i]) + l[i] == Total(l)
  {
    var n := |l| - 1;
    if i < n {
      OffsetBounds(l[..n], i);
      assert l[..n][..i] == l[..i];
    } else if i > 0 {
      OffsetBounds(l[..n], n - 1);
      assert l[..n][..n - 1] == l[..n - 1];
    }
  }

  /** Every stripe has an object. */
  lemma {:induction false} CountBounds(pc: Params, x: nat, lens: seq<seq<nat>>, s: nat, t: nat)
    requires ObjectsFill(pc, x, lens) && s <= t <= x
    ensures ObjectsBefore(lens, s) + (t - s) <= ObjectsBefore(lens, t)
    ensures s < t ==> |lens[s]| >= 1 && ObjectsBefore(lens, s) + |lens[s]| + (t - s - 1) <= ObjectsBefore(lens, t)
  {
    if s < t {
      assert StripeFilled(pc, lens[t - 1]);
      PosBound(0, 0, pc.k1, pc.k2);
      CountBounds(pc, x, lens, s, t - 1);
    }
  }

  /** Object i of stripe s is there, and its blocks are data blocks of the stripe. */
  lemma ObjectFits(pc: Params, x: nat, lens: seq<seq<nat>>, s: nat, i: nat)
    requires ObjectsFill(pc, x, lens) && s < x && i < |lens[s]|
    ensures ObjectsBefore(lens, s) + i < ObjectsBefore(lens, x)
    ensures i <= Total(lens[s][..i]) && Total(lens[s][..i]) + lens[s][i] <= DataEnd(pc) <= BlockCount(pc)
    ensures i == |lens[s]| - 1 ==> Total(lens[s][..i]) + lens[s][i] == DataEnd(pc)
    ensures lens[s][i] >= 1
  {
    hide DataEnd, BlockCount;
    CountBounds(pc, x, lens, s, x);
    assert StripeFilled(pc, lens[s]);
    OffsetBounds(lens[s], i);
    AreasInOrder(pc);
  }

  /** Block j of object i of old stripe s is read from the place it was moved to. */
  ghost predicate BlockReadsRight(pc: Params, x: nat, lens: seq<seq<nat>>, s: nat, i: nat, j: nat)
    requires ObjectsFill(pc, x, lens) && s < x && i < |lens[s]| && j < lens[s][i]
  {
    ObjectFits(pc, x, lens, s, i);
    RowShare(x * pc.k1, ObjectsBefore(lens, x), ObjectsBefore(lens, s) + i, j) == OldBid2NewBid(pc, x, s, Total(lens[s][..i]) + j)
  }

  ghost predicate AllReadRight(pc: Params, x: nat, lens: seq<seq<nat>>)
    requires ObjectsFill(pc, x, lens)
  {
    forall s, i, j :: 0 <= s < x && 0 <= i < |lens[s]| && 0 <= j < lens[s][i] ==> BlockReadsRight(pc, x, lens, s, i, j)
  }

  ghost predicate OneEach(lens: seq<seq<nat>>) { forall s :: 0 <= s < |lens| ==> |lens[s]| == 1 }

  ghost predicate EquallyLong(lens: seq<seq<nat>>, n: nat) {
    forall s, i :: 0 <= s < |lens| && 0 <= i < |lens[s]| ==> lens[s][i] == n
  }

  // One object to a stripe.

  lemma {:induction false} CountOnes(lens: seq<seq<nat>>, s: nat)
    requires OneEach(lens) && s <= |lens|
    ensures ObjectsBefore(lens, s) == s
  {
    if s > 0 {
      CountOnes(lens, s - 1);
    }
  }

  lemma OneEachReadsRight(pc: Params, x: nat, lens: seq<seq<nat>>, s: nat, j: nat)
    requires ObjectsFill(pc, x, lens) && OneEach(lens) && s < x && |lens[s]| == 1 && j < lens[s][0]
    ensures BlockReadsRight(pc, x, lens, s, 0, j)
  {
    hide OldBid2NewBid, RowShare, BlockCount, DataEnd;
    ObjectFits(pc, x, lens, s, 0);
    CountOnes(lens, s);
    CountOnes(lens, x);
    assert lens[s][..0] == [];
    WholeStripesReadRight(pc, x, s, j);
  }

  // Equally long objects in a single data row.

  lemma {:induction false} EqualTotal(l: seq<nat>, n: nat)
    requires forall i :: 0 <= i < |l| ==> l[i] == n
    ensures Total(l) == |l| * n
  {
    if l != [] {
      EqualTotal(l[..|l| - 1], n);
      assert |l| * n == (|l| - 1) * n + n;
    }
  }

  lemma {:induction false} EqualCount(pc: Params, x: nat, lens: seq<seq<nat>>, n: nat, s: nat)
    requires ObjectsFill(pc, x, lens) && EquallyLong(lens, n) && s <= x
    ensures ObjectsBefore(lens, s) * n == s * DataEnd(pc)
  {
    hide DataEnd, Total;
    if s > 0 {
      assert StripeFilled(pc, lens[s - 1]);
      EqualCount(pc, x, lens, n, s - 1);
      EqualTotal(lens[s - 1], n);
      Distributes(ObjectsBefore(lens, s - 1), |lens[s - 1]|, n);
      Distributes(s - 1, 1, DataEnd(pc));
    }
  }

  lemma Distributes(a: nat, b: nat, n: nat)
    ensures (a + b) * n == a * n + b * n
  {
  }

  lemma SingleRowReadsRight(pc: Params, x: nat, lens: seq<seq<nat>>, n: nat, s: nat, i: nat, j: nat)
    requires ObjectsFill(pc, x, lens) && EquallyLong(lens, n) && pc.k2 == 1 && s < x && i < |lens[s]| && j < lens[s][i]
    ensures BlockReadsRight(pc, x, lens, s, i, j)
  {
    hide OldBid2NewBid, BlockCount, RowOf, ColOf, Skipped, ColumnsBefore, StripeFilled;
    ObjectFits(pc, x, lens, s, i);
    var y, e := ObjectsBefore(lens, x), ObjectsBefore(lens, s) + i;
    EqualCount(pc, x, lens, n, s);
    EqualCount(pc, x, lens, n, x);
    EqualTotal(lens[s][..i], n);
    assert e * n == ObjectsBefore(lens, s) * n + i * n;
    assert n * y == y * n;
    SharesExactly(n, y, e, 0);
    RowColOfPos(0, j, n);
    DataPlace(pc, x, s, 0, Total(lens[s][..i]) + j);
  }

  // Otherwise some object is misread.

  lemma ProductBound(a: nat, b: nat)
    requires a >= 2 && b >= 2
    ensures a * (b - 1) >= b
  {
    RowGap(1, a, b - 1);
  }

  /** The jumps to further rows. */
  lemma Jumps(k: nat, y: nat)
    requires k >= 2 && y >= 2
    ensures Skipped(k, y, 0) == 0 && Skipped(k, y, 1) >= 1 && Skipped(k, y, 2) >= 2 * Skipped(k, y, 1)
  {
    var one, others := k * (y - 1), y - 1;
    ProductBound(k, y);
    QuotientAtLeast(one, y, 1);
    var q := one / y;
    Divided(one, y);
    assert 2 * k * others == 2 * one;
    assert (2 * q) * y == 2 * (q * y);
    QuotientAtLeast(2 * one, y, 2 * q);
    assert 0 * k * others == 0;
  }

  lemma Divided(t: nat, w: nat)
    requires w > 0
    ensures t / w * w <= t < t / w * w + w
  {
    PosOfRowCol(t, w);
    RowIsQuotient(t, w);
  }

  lemma QuotientAtLeast(t: nat, w: nat, q: nat)
    requires w > 0 && q * w <= t
    ensures t / w >= q
  {
    Divided(t, w);
    if t / w < q {
      RowGap(t / w, q, w);
    }
  }

  /** What the reader computes at the start of an object and at its first jumps. */
  lemma SharesAt(k: nat, y: nat, e: nat)
    requires k >= 2 && y >= 2 && k / y >= 1
    ensures var q, a := k / y, ColumnsBefore(k, y, e);
            && RowShare(k, y, e, 0) == a && RowShare(k, y, e, q - 1) == q - 1 + a
            && RowShare(k, y, e, q) == q + a + Skipped(k, y, 1)
            && RowShare(k, y, e, 2 * q) == 2 * q + a + Skipped(k, y, 2)
  {
    hide RowOf, Skipped, ColumnsBefore;
    var q := k / y;
    Jumps(k, y);
    RowColOfPos(0, 0, q);
    RowColOfPos(0, q - 1, q);
    RowColOfPos(1, 0, q);
    RowColOfPos(2, 0, q);
  }

  lemma BeforeIsInRow(k: nat, y: nat, e: nat)
    requires e < y
    ensures k >= 1 ==> ColumnsBefore(k, y, e) < k
  {
    if k >= 1 {
      RowGap(e, y, k);
      Divided(e * k, y);
      assert y * k == k * y;
      if ColumnsBefore(k, y, e) >= k {
        Monotone(k, ColumnsBefore(k, y, e), y);
      }
    }
  }

  /** The row and column of data block t, and where it goes. */
  lemma PlaceOfData(pc: Params, x: nat, s: nat, t: nat) returns (row: nat, col: nat)
    requires pc.k1 >= 1 && s < x && t < DataEnd(pc)
    ensures t < BlockCount(pc) && col < pc.k1 && t == row * pc.k1 + col
    ensures OldBid2NewBid(pc, x, s, t) == row * (x * pc.k1) + (col + s * pc.k1)
  {
    hide OldBid2NewBid, BlockCount, RowOf, ColOf;
    RowInBounds(t, pc.k1, pc.k2);
    PosOfRowCol(t, pc.k1);
    row, col := RowOf(t, pc.k1), ColOf(t, pc.k1);
    DataPlace(pc, x, s, row, col);
  }

  /** An object that is read right starts in the first row, at the column the reader computes. */
  lemma StartsInRow(pc: Params, x: nat, lens: seq<seq<nat>>, s: nat, i: nat)
    requires ObjectsFill(pc, x, lens) && s < x && i < |lens[s]| && lens[s][i] >= 1 && BlockReadsRight(pc, x, lens, s, i, 0)
    ensures Total(lens[s][..i]) < pc.k1
    ensures ColumnsBefore(x * pc.k1, ObjectsBefore(lens, x), ObjectsBefore(lens, s) + i) == Total(lens[s][..i]) + s * pc.k1
  {
    hide OldBid2NewBid, BlockCount, ColumnsBefore, StripeFilled, Skipped, RowShare, DataEnd, Total;
    ObjectFits(pc, x, lens, s, i);
    var k, y, e, o := x * pc.k1, ObjectsBefore(lens, x), ObjectsBefore(lens, s) + i, Total(lens[s][..i]);
    Monotone(1, x, pc.k1);
    BeforeIsInRow(k, y, e);
    ShareAtStart(k, y, e);
    var row, col := PlaceOfData(pc, x, s, o);
    OnlyFirstRow(row, k, col + s * pc.k1, ColumnsBefore(k, y, e));
  }

  lemma OnlyFirstRow(row: nat, k: nat, rest: nat, place: nat)
    requires place == row * k + rest && place < k
    ensures row == 0 && place == rest
  {
    if row >= 1 {
      Monotone(1, row, k);
    }
  }

  lemma ShareAtStart(k: nat, y: nat, e: nat)
    requires y > 0
    ensures RowShare(k, y, e, 0) == ColumnsBefore(k, y, e)
  {
    if k / y > 0 {
      RowColOfPos(0, 0, k / y);
    }
    Nothing(k, y);
  }

  lemma Nothing(k: nat, y: nat)
    requires y > 0
    ensures Skipped(k, y, 0) == 0
  {
    assert 0 * k == 0;
    Cancel(0, y);
  }

  /** Where block t of the data goes, when it is in the first or second row. */
  lemma PlaceInRows(pc: Params, x: nat, s: nat, t: nat)
    requires pc.k1 >= 1 && s < x && t < DataEnd(pc) && t < 2 * pc.k1
    ensures t < BlockCount(pc)
    ensures OldBid2NewBid(pc, x, s, t) == (if t < pc.k1 then t else x * pc.k1 + (t - pc.k1)) + s * pc.k1
  {
    hide OldBid2NewBid, BlockCount, RowOf, ColOf;
    RowInBounds(t, pc.k1, pc.k2);
    if t < pc.k1 {
      RowColOfPos(0, t, pc.k1);
      DataPlace(pc, x, s, 0, t);
    } else {
      RowColOfPos(1, t - pc.k1, pc.k1);
      DataPlace(pc, x, s, 1, t - pc.k1);
    }
  }

  /** With all objects starting in the first row there are no more objects than columns. */
  lemma {:induction false} AtMostColumns(pc: Params, x: nat, lens: seq<seq<nat>>, s: nat)
    requires ObjectsFill(pc, x, lens) && s <= x
    requires forall s :: 0 <= s < x ==> |lens[s]| <= pc.k1
    ensures ObjectsBefore(lens, s) <= s * pc.k1
  {
    if s > 0 {
      AtMostColumns(pc, x, lens, s - 1);
      assert s * pc.k1 == (s - 1) * pc.k1 + pc.k1;
    }
  }

  /** How many columns an object gets when there are more objects than stripes. */
  lemma ColumnsEach(k1: nat, x: nat, y: nat)
    requires x < y <= x * k1
    ensures x * k1 >= 2 && y >= 2 && 1 <= x * k1 / y < k1
  {
    var k := x * k1;
    assert x >= 1;
    QuotientAtLeast(k, y, 1);
    Divided(k, y);
    assert k1 * y == y * k1;
    RowGap(x, y, k1);
    if k / y >= k1 {
      Monotone(k1, k / y, y);
    }
  }

  /** Several data rows: the last object of a stripe with several objects is misread. */
  lemma SeveralRowsMisread(pc: Params, x: nat, lens: seq<seq<nat>>, s: nat)
    requires ObjectsFill(pc, x, lens) && pc.k2 >= 2 && s < x && |lens[s]| >= 2
    ensures !AllReadRight(pc, x, lens)
  {
    hide OldBid2NewBid, BlockCount, RowShare, StripeFilled, ColumnsBefore, Skipped, BlockReadsRight, DataEnd;
    if AllReadRight(pc, x, lens) {
      forall t | 0 <= t < x
        ensures |lens[t]| <= pc.k1
      {
        FewStart(pc, x, lens, t);
      }
      AtMostColumns(pc, x, lens, x);
      CountBounds(pc, x, lens, s, x);
      CountBounds(pc, x, lens, 0, s);
      ColumnsEach(pc.k1, x, ObjectsBefore(lens, x));
      LastMisread(pc, x, lens, s);
    }
  }

  lemma FewStart(pc: Params, x: nat, lens: seq<seq<nat>>, t: nat)
    requires ObjectsFill(pc, x, lens) && AllReadRight(pc, x, lens) && t < x
    ensures |lens[t]| <= pc.k1
  {
    hide OldBid2NewBid, BlockCount, RowShare, ColumnsBefore, BlockReadsRight, DataEnd;
    if lens[t] != [] {
      var i := |lens[t]| - 1;
      assert StripeFilled(pc, lens[t]);
      StartsInRow(pc, x, lens, t, i);
      ObjectFits(pc, x, lens, t, i);
    }
  }

  /** What is read for a block of the first two rows that is read right. */
  lemma RightInRows(pc: Params, x: nat, lens: seq<seq<nat>>, s: nat, i: nat, j: nat)
    requires ObjectsFill(pc, x, lens) && s < x && i < |lens[s]| && j < lens[s][i] && BlockReadsRight(pc, x, lens, s, i, j)
    requires Total(lens[s][..i]) + j < 2 * pc.k1
    ensures ObjectsBefore(lens, x) > 0
    ensures var t := Total(lens[s][..i]) + j;
            RowShare(x * pc.k1, ObjectsBefore(lens, x), ObjectsBefore(lens, s) + i, j)
            == (if t < pc.k1 then t else x * pc.k1 + (t - pc.k1)) + s * pc.k1
  {
    hide OldBid2NewBid, BlockCount, RowShare, StripeFilled, DataEnd;
    ObjectFits(pc, x, lens, s, i);
    PlaceInRows(pc, x, s, Total(lens[s][..i]) + j);
  }

  /** The blocks of the last object of stripe s at which the reader's first jumps come. */
  lemma LastMisread(pc: Params, x: nat, lens: seq<seq<nat>>, s: nat)
    requires ObjectsFill(pc, x, lens) && pc.k2 >= 2 && s < x && |lens[s]| >= 2
    requires x * pc.k1 >= 2 && ObjectsBefore(lens, x) >= 2 && 1 <= x * pc.k1 / ObjectsBefore(lens, x) < pc.k1
    ensures !AllReadRight(pc, x, lens)
  {
    hide OldBid2NewBid, BlockCount, RowShare, StripeFilled, ColumnsBefore, Skipped, DataEnd, BlockReadsRight, Total;
    var i := |lens[s]| - 1;
    var k, y, e, o := x * pc.k1, ObjectsBefore(lens, x), ObjectsBefore(lens, s) + i, Total(lens[s][..i]);
    var q := k / y;
    ObjectFits(pc, x, lens, s, i);
    TwoRows(pc);
    SharesAt(k, y, e);
    Jumps(k, y);
    if AllReadRight(pc, x, lens) {
      assert BlockReadsRight(pc, x, lens, s, i, 0);
      StartsInRow(pc, x, lens, s, i);
      ThreeReads(pc, x, lens, s, i, q);
    }
  }

  /** The reads just before and at the first jump, and, if that is the end of the row, at the second. */
  lemma ThreeReads(pc: Params, x: nat, lens: seq<seq<nat>>, s: nat, i: nat, q: nat)
    requires ObjectsFill(pc, x, lens) && AllReadRight(pc, x, lens) && s < x && i < |lens[s]| && pc.k2 >= 2
    requires i == |lens[s]| - 1 && 1 <= q < pc.k1 && Total(lens[s][..i]) < pc.k1
    ensures var k, y, e, o := x * pc.k1, ObjectsBefore(lens, x), ObjectsBefore(lens, s) + i, Total(lens[s][..i]);
            && y > 0
            && RowShare(k, y, e, q - 1) == RowEnd(k, pc.k1, o + (q - 1)) + s * pc.k1
            && RowShare(k, y, e, q) == RowEnd(k, pc.k1, o + q) + s * pc.k1
            && (o + q == pc.k1 ==> RowShare(k, y, e, 2 * q) == RowEnd(k, pc.k1, o + 2 * q) + s * pc.k1)
  {
    hide RowShare, DataEnd, BlockReadsRight, Total, StripeFilled;
    ObjectFits(pc, x, lens, s, i);
    TwoRows(pc);
    var o := Total(lens[s][..i]);
    assert BlockReadsRight(pc, x, lens, s, i, q - 1) && BlockReadsRight(pc, x, lens, s, i, q);
    RightInRows(pc, x, lens, s, i, q - 1);
    RightInRows(pc, x, lens, s, i, q);
    if o + q == pc.k1 {
      assert BlockReadsRight(pc, x, lens, s, i, 2 * q);
      RightInRows(pc, x, lens, s, i, 2 * q);
    }
  }

  /** Place t of the first two rows of k1 columns, laid out in rows of k. */
  function RowEnd(k: nat, k1: nat, t: nat): nat { if t < k1 then t else k + (t - k1) }

  lemma TwoRows(pc: Params)
    requires pc.k2 >= 2
    ensures DataEnd(pc) >= 2 * pc.k1
  {
    Monotone(2, pc.k2, pc.k1);
  }

  // A single data row: objects read right are no longer than the columns each gets.

  lemma ShortWhenRight(pc: Params, x: nat, lens: seq<seq<nat>>, s: nat, i: nat)
    requires ObjectsFill(pc, x, lens) && pc.k2 == 1 && s < x && i < |lens[s]| && AllReadRight(pc, x, lens)
    requires x * pc.k1 >= 2 && ObjectsBefore(lens, x) >= 2 && 1 <= x * pc.k1 / ObjectsBefore(lens, x)
    ensures lens[s][i] <= x * pc.k1 / ObjectsBefore(lens, x)
  {
    hide OldBid2NewBid, BlockCount, RowShare, ColumnsBefore, Skipped;
    var k, y, e, o := x * pc.k1, ObjectsBefore(lens, x), ObjectsBefore(lens, s) + i, Total(lens[s][..i]);
    var q := k / y;
    ObjectFits(pc, x, lens, s, i);
    SharesAt(k, y, e);
    Jumps(k, y);
    assert StripeFilled(pc, lens[s]);
    assert BlockReadsRight(pc, x, lens, s, i, 0);
    StartsInRow(pc, x, lens, s, i);
    if lens[s][i] > q {
      assert BlockReadsRight(pc, x, lens, s, i, q);
      PlaceInRows(pc, x, s, o + q);
    }
  }

  lemma {:induction false} TotalAtMost(l: seq<nat>, q: nat)
    requires forall i :: 0 <= i < |l| ==> l[i] <= q
    ensures Total(l) <= |l| * q
    ensures Total(l) == |l| * q ==> forall i :: 0 <= i < |l| ==> l[i] == q
  {
    if l != [] {
      var n := |l| - 1;
      TotalAtMost(l[..n], q);
      assert |l| * q == n * q + q;
    }
  }

  lemma LastFilled(pc: Params, x: nat, lens: seq<seq<nat>>, s: nat)
    requires ObjectsFill(pc, x, lens) && 1 <= s <= x
    ensures s <= |lens| == x && Total(lens[s - 1]) == DataEnd(pc)
  {
    assert StripeFilled(pc, lens[s - 1]);
  }

  lemma {:induction false} AllAtMost(pc: Params, x: nat, lens: seq<seq<nat>>, q: nat, s: nat)
    requires ObjectsFill(pc, x, lens) && s <= x == |lens|
    requires forall s, i :: 0 <= s < x && 0 <= i < |lens[s]| ==> lens[s][i] <= q
    ensures s * DataEnd(pc) <= ObjectsBefore(lens, s) * q
    ensures s * DataEnd(pc) == ObjectsBefore(lens, s) * q ==>
              forall t, i :: 0 <= t < s && 0 <= i < |lens[t]| ==> lens[t][i] == q
  {
    hide DataEnd, Total, ObjectsFill;
    if s > 0 {
      LastFilled(pc, x, lens, s);
      AllAtMost(pc, x, lens, q, s - 1);
      TotalAtMost(lens[s - 1], q);
      Distributes(ObjectsBefore(lens, s - 1), |lens[s - 1]|, q);
      Distributes(s - 1, 1, DataEnd(pc));
    }
  }

  lemma SingleRowEqual(pc: Params, x: nat, lens: seq<seq<nat>>, s: nat)
    requires ObjectsFill(pc, x, lens) && pc.k2 == 1 && s < x && |lens[s]| >= 2 && AllReadRight(pc, x, lens)
    ensures ObjectsBefore(lens, x) > 0 && EquallyLong(lens, x * pc.k1 / ObjectsBefore(lens, x))
  {
    hide BlockCount, AllReadRight, StripeFilled;
    var k, y := x * pc.k1, ObjectsBefore(lens, x);
    CountBounds(pc, x, lens, s, x);
    CountBounds(pc, x, lens, 0, s);
    forall t | 0 <= t < x
      ensures |lens[t]| <= pc.k1
    {
      FewStart(pc, x, lens, t);
    }
    AtMostColumns(pc, x, lens, x);
    ColumnsEach(pc.k1, x, y);
    var q := k / y;
    forall t, i | 0 <= t < x && 0 <= i < |lens[t]|
      ensures lens[t][i] <= q
    {
      ShortWhenRight(pc, x, lens, t, i);
    }
    AllAtMost(pc, x, lens, q, x);
    Divided(k, y);
    assert q * y == y * q;
  }

  /**
   Every object is read right exactly when every old stripe held one object, or there is a single data row and
   all objects are equally long.
   */
  lemma ReadsRightWhen(pc: Params, x: nat, lens: seq<seq<nat>>)
    requires ObjectsFill(pc, x, lens)
    ensures AllReadRight(pc, x, lens) <==> OneEach(lens) || (pc.k2 == 1 && exists n :: EquallyLong(lens, n))
  {
    hide BlockReadsRight, StripeFilled;
    if OneEach(lens) {
      forall s, i, j | 0 <= s < x && 0 <= i < |lens[s]| && 0 <= j < lens[s][i]
        ensures BlockReadsRight(pc, x, lens, s, i, j)
      {
        OneEachReadsRight(pc, x, lens, s, j);
      }
    } else if pc.k2 == 1 && exists n :: EquallyLong(lens, n) {
      var n :| EquallyLong(lens, n);
      forall s, i, j | 0 <= s < x && 0 <= i < |lens[s]| && 0 <= j < lens[s][i]
        ensures BlockReadsRight(pc, x, lens, s, i, j)
      {
        SingleRowReadsRight(pc, x, lens, n, s, i, j);
      }
    } else {
      var s := SeveralIn(pc, x, lens);
      if pc.k2 >= 2 {
        SeveralRowsMisread(pc, x, lens, s);
      } else if AllReadRight(pc, x, lens) {
        SingleRowEqual(pc, x, lens, s);
      }
    }
  }

  lemma SeveralIn(pc: Params, x: nat, lens: seq<seq<nat>>) returns (s: nat)
    requires ObjectsFill(pc, x, lens) && !OneEach(lens)
    ensures s < x && |lens[s]| >= 2
  {
    s :| 0 <= s < x && |lens[s]| != 1;
    CountBounds(pc, x, lens, s, x);
  }

  // Reading from the merged stripe.

  ghost predicate OneObjectEach<K>(pc: Params, x: nat, objects: seq<K>, lens: map<K, nat>, bs: nat) {
    bs > 0 && |objects| == x && forall i :: 0 <= i < x ==> objects[i] in lens && lens[objects[i]] == DataEnd(pc) * bs
  }

  lemma {:induction false} OffsetIsStripes<K>(pc: Params, x: nat, objects: seq<K>, lens: map<K, nat>, bs: nat, e: nat)
    requires OneObjectEach(pc, x, objects, lens, bs) && e <= x
    ensures OffsetTo(objects, lens, bs, e) == e * DataEnd(pc)
  {
    hide DataEnd;
    if e > 0 {
      OffsetIsStripes(pc, x, objects, lens, bs, e - 1);
      Cancel(DataEnd(pc), bs);
      assert e * DataEnd(pc) == (e - 1) * DataEnd(pc) + DataEnd(pc);
    }
  }

  lemma WiderDataEnd(pc: Params, x: nat)
    ensures DataEnd(Wider(pc, x)) == x * DataEnd(pc)
  {
    assert pc.k2 * (x * pc.k1) == x * (pc.k2 * pc.k1);
  }

  /** As many blocks are read as a stripe has data blocks, also from the last stripe. */
  lemma ReadsWholeStripe(n: nat, x: nat, s: nat, bs: nat)
    requires bs > 0 && s < x
    ensures s * n <= x * n && ToRead(n * bs, x * n, s * n, bs) == n
  {
    RowGap(s, x, n);
    assert x * n - s * n == (x - s) * n;
    Monotone(n, (x - s) * n, bs) by { Monotone(1, x - s, n); }
    if n * bs < (x * n - s * n) * bs {
      RowColOfPos(n, bs - 1, bs);
      RowIsQuotient(n * bs + bs - 1, bs);
    } else if s + 1 < x && n > 0 {
      Monotone(2, x - s, n);
      RowGap(n, (x - s) * n, bs);
    } else if s + 1 < x {
      assert (x - s) * n == 0;
    }
  }

  /** The merged stripe's tables and the store, as a merge leaves them. */
  ghost predicate MergedHeld<E>(m: Merging<E>, larger: StripeInfo, store: map<nat, Block<E>>)
    requires Fits(m)
  {
    |larger.blockIds| == |MergedBlocks(m)| && forall j :: 0 <= j < |larger.blockIds| ==> Held(larger, store, MergedBlocks(m), j)
  }

  /** At the new place of an old data block is that block. */
  lemma HeldAtNewPlace<E>(m: Merging<E>, larger: StripeInfo, store: map<nat, Block<E>>, s: nat, t: nat)
    requires Fits(m) && MergedHeld(m, larger, store) && s < m.x && t < DataEnd(m.pc)
    ensures t < BlockCount(m.pc) && OldBid2NewBid(m.pc, m.x, s, t) < |larger.blockIds| && s < |m.olds| && t < |m.olds[s]|
    ensures var at := OldBid2NewBid(m.pc, m.x, s, t);
            larger.blockIds[at] in store && store[larger.blockIds[at]] == m.olds[s][t]
  {
    hide MergedBlocks, BlockCount, OldBid2NewBid, OriginOf, Bid2RowCol, DataEnd, OldFits, Wider;
    AreasInOrder(m.pc);
    DataIsKept(m.pc, t);
    assert PlaceOf(m.pc, m.x, Old(s, t)) == OldBid2NewBid(m.pc, m.x, s, t);
    PlaceIs(m.pc, m.x, Old(s, t));
    KeptBlocksMatch(m);
    assert Held(larger, store, MergedBlocks(m), OldBid2NewBid(m.pc, m.x, s, t));
  }

  lemma DataIsKept(pc: Params, t: nat)
    requires t < DataEnd(pc)
    ensures t < BlockCount(pc) && Bid2RowCol(pc, t).1 < pc.k1
  {
    AreasInOrder(pc);
    RowInBounds(t, pc.k1, pc.k2);
    PosOfRowCol(t, pc.k1);
  }

  /** Reading object s out of the merged stripe gives the data blocks of old stripe s, in order. */
  method GetMerged<E, K(==)>(ghost m: Merging<E>, pc: Params, x: nat, larger: StripeInfo, store: map<nat, Block<E>>,
                             objects: seq<K>, lens: map<K, nat>, key: K, bs: nat)
      returns (blocks: seq<Block<E>>)
    requires Fits(m) && MergedHeld(m, larger, store) && m.pc == pc && m.x == x && OneObjectEach(pc, x, objects, lens, bs) && key in objects
    ensures FirstAt(objects, key) < |m.olds| && DataEnd(pc) <= |m.olds[FirstAt(objects, key)]|
    ensures blocks == m.olds[FirstAt(objects, key)][..DataEnd(pc)]
  {
    hide MergedHeld, Fits, DataEnd, OldBid2NewBid, RowShare, BlockCount, FirstAt, OffsetTo, RowOf, ColOf, ToRead;
    var offset, seri, y := FindObject(objects, lens, key, bs, true);
    OldSizes(m, seri);
    OffsetIsStripes(pc, x, objects, lens, bs, seri);
    WiderDataEnd(pc, x);
    ReadsWholeStripe(DataEnd(pc), x, seri, bs);
    var w := Wider(pc, x);
    var idxs := BlocksToRead(lens[key], DataEnd(w), offset, bs, true, w.k1, y, seri);
    blocks := [];
    for j := 0 to |idxs|
      invariant |blocks| == j && forall t :: 0 <= t < j ==> blocks[t] == m.olds[seri][t]
    {
      WholeStripesReadRight(pc, x, seri, j);
      HeldAtNewPlace(m, larger, store, seri, j);
      blocks := blocks + [store[larger.blockIds[idxs[j]]]];
    }
  }

  lemma OldSizes<E>(m: Merging<E>, s: nat)
    requires Fits(m) && s < m.x
    ensures m.pc.k1 >= 1 && |m.olds| == m.x && DataEnd(m.pc) <= |m.olds[s]|
  {
    assert OldFits(m, s);
    AreasInOrder(m.pc);
  }

  // Merged Azure stripes, with any objects in them: they are read by their offset alone.

  lemma {:induction false} OffsetAfter<K>(before: seq<K>, own: seq<K>, lens: map<K, nat>, bs: nat, e: nat)
    requires bs > 0 && e <= |own|
    requires (forall i :: 0 <= i < |before| ==> before[i] in lens) && (forall i :: 0 <= i < |own| ==> own[i] in lens)
    ensures OffsetTo(before + own, lens, bs, |before| + e) == OffsetTo(before, lens, bs, |before|) + OffsetTo(own, lens, bs, e)
  {
    if e > 0 {
      OffsetAfter(before, own, lens, bs, e - 1);
    } else {
      SameOffsets(before, own, lens, bs, |before|);
    }
  }

  lemma {:induction false} SameOffsets<K>(before: seq<K>, own: seq<K>, lens: map<K, nat>, bs: nat, e: nat)
    requires bs > 0 && e <= |before|
    requires (forall i :: 0 <= i < |before| ==> before[i] in lens) && (forall i :: 0 <= i < |own| ==> own[i] in lens)
    ensures OffsetTo(before + own, lens, bs, e) == OffsetTo(before, lens, bs, e)
  {
    if e > 0 {
      SameOffsets(before, own, lens, bs, e - 1);
    }
  }

  /**
   Object e of old stripe s, when the objects of the stripes before it fill those stripes: block j of the
   object is read from the place that block of the old stripe was moved to.
   */
  lemma AzureObjectReadsRight<K>(c: LrcShape.Lrc, x: nat, s: nat, before: seq<K>, own: seq<K>, lens: map<K, nat>, bs: nat,
                                 e: nat, j: nat)
    requires bs > 0 && s < x && e <= |own| && (forall i :: 0 <= i < |before| ==> before[i] in lens)
    requires forall i :: 0 <= i < |own| ==> own[i] in lens
    requires OffsetTo(before, lens, bs, |before|) == s * c.k && OffsetTo(own, lens, bs, e) + j < c.k
    ensures OffsetTo(own, lens, bs, e) + j < LrcShape.BlockNum(c)
    ensures j + OffsetTo(before + own, lens, bs, |before| + e) == LrcMerge.NewIdx(c, x, s, OffsetTo(own, lens, bs, e) + j)
  {
    OffsetAfter(before, own, lens, bs, e);
  }
}

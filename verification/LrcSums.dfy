/**
 Encoding matrices of the codes that deal out data blocks and global parities alike, made by adding each
 global row to the local row of its group.
 */
module LrcSums {
  import opened Fields
  import opened Sums
  import opened ErasureCode
  import opened RowMajor
  import opened LrcShape
  import opened LrcMatrices
  import opened LrcEncoding
  import opened LrcMakers
  import opened LrcProducts

  predicate DealsGlobals(c: Lrc) { c.kind.Optimal? || c.kind.UniformCauchy? }

  /** The data blocks of one group, starting at dIdx0. */
  method DealDataRow<E>(f: Field<E>, c: Lrc, lib: seq<seq<E>>, m: array<E>, i: nat, dIdx0: nat) returns (dIdx: nat)
    requires LrcOk(c) && DealsGlobals(c) && IsTable(lib, c.g + 1, c.k) && i < c.l && m.Length == c.l * c.k
    requires dIdx0 == i * R(c) < c.k && ZeroFrom(f, TableOf(m[..], c.l, c.k), i, c.k)
    modifies m
    ensures OthersKept(old(TableOf(m[..], c.l, c.k)), TableOf(m[..], c.l, c.k), i, c.k)
    ensures dIdx == Min(i * R(c) + R(c), c.k)
    ensures RowBegun(f, c, lib, TableOf(m[..], c.l, c.k), i, i, c.k, c.k)
  {
    hide TableOf, Pos;
    ghost var start := TableOf(m[..], c.l, c.k);
    dIdx := dIdx0;
    var groupSize := Dealt(c, i);
    var j := 0;
    while j < groupSize && dIdx < c.k
      invariant 0 <= j <= groupSize && dIdx == dIdx0 + j <= c.k
      invariant OthersKept(start, TableOf(m[..], c.l, c.k), i, c.k)
      invariant RowBegun(f, c, lib, TableOf(m[..], c.l, c.k), i, i, dIdx, c.k)
    {
      StoreEntry(m, i, dIdx, Coefficient(f, c, lib, dIdx), c.l, c.k);
      dIdx := dIdx + 1;
      j := j + 1;
    }
  }

  /** The data part of all groups; also the last group that has data blocks. */
  method DealData<E(0)>(f: Field<E>, c: Lrc, lib: seq<seq<E>>) returns (m: array<E>, lIdx: nat)
    requires LrcOk(c) && DealsGlobals(c) && IsTable(lib, c.g + 1, c.k)
    ensures fresh(m) && m.Length == c.l * c.k && RowsPut(f, c, lib, TableOf(m[..], c.l, c.k), 0, c.l, c.k)
    ensures lIdx < c.l && lIdx * R(c) < c.k <= lIdx * R(c) + R(c)
  {
    hide LocalRow, RowBegun, R, OthersKept, RowsPut;
    m := new E[c.l * c.k](_ => f.zero);
    NonePut(f, c, lib, TableOf(m[..], c.l, c.k), c.k);
    hide TableOf, ZeroFrom;
    var dIdx := 0;
    lIdx := 0;
    var i := 0;
    ghost var lo := 0;
    while i < c.l && dIdx < c.k
      invariant i <= c.l && lo == i * R(c) && dIdx == Min(lo, c.k)
      invariant lIdx < c.l && lIdx * R(c) < c.k && (i > 0 ==> lIdx == i - 1 && lo == lIdx * R(c) + R(c))
      invariant RowsPut(f, c, lib, TableOf(m[..], c.l, c.k), 0, i, c.k) && ZeroFrom(f, TableOf(m[..], c.l, c.k), i, c.k)
    {
      ghost var t := TableOf(m[..], c.l, c.k);
      dIdx := DealDataRow(f, c, lib, m, i, dIdx);
      lIdx := i;
      DataRowDealt(f, c, lib, t, TableOf(m[..], c.l, c.k), i);
      NextStart(c, i);
      lo := lo + R(c);
      i := i + 1;
    }
    RBounds(c);
    RestEmpty(f, c, lib, TableOf(m[..], c.l, c.k), i);
  }

  lemma DataRowDealt<E>(f: Field<E>, c: Lrc, lib: seq<seq<E>>, t: seq<seq<E>>, t': seq<seq<E>>, i: nat)
    requires LrcOk(c) && IsTable(lib, c.g + 1, c.k) && i < c.l
    requires RowsPut(f, c, lib, t, 0, i, c.k) && ZeroFrom(f, t, i, c.k)
    requires OthersKept(t, t', i, c.k) && RowBegun(f, c, lib, t', i, i, c.k, c.k)
    ensures var next := i + 1; RowsPut(f, c, lib, t', 0, next, c.k) && ZeroFrom(f, t', next, c.k)
  {
    PutKept(f, c, lib, t, t', 0, i, c.k);
    PutMore(f, c, lib, t', 0, i, c.k);
  }

  /** Groups that start after the last data block have no data part. */
  lemma RestEmpty<E>(f: Field<E>, c: Lrc, lib: seq<seq<E>>, t: seq<seq<E>>, i: nat)
    requires LrcOk(c) && DealsGlobals(c) && IsTable(lib, c.g + 1, c.k) && i <= c.l && |t| == c.l
    requires RowsPut(f, c, lib, t, 0, i, c.k) && ZeroFrom(f, t, i, c.k) && c.k <= i * R(c)
    ensures RowsPut(f, c, lib, t, 0, c.l, c.k)
  {
    forall a | 0 <= a < c.l
      ensures RowPut(f, c, lib, t, 0, a, c.k)
    {
      if a < i {
        assert RowPut(f, c, lib, t, 0, a, c.k);
      } else {
        Monotone(i, a, R(c));
      }
    }
  }

  /** How many global parities the groups before i hold. */
  function GlobalsBefore(c: Lrc, i: nat): nat
    requires LrcOk(c)
  {
    var end := Min(i * R(c), c.k + c.g);
    if end <= c.k then 0 else end - c.k
  }

  /** Groups up to the last one with data have no global parity before it, so nothing is folded there. */
  lemma EarlyRowsDone<E(!new)>(f: Field<E>, c: Lrc, lib: seq<seq<E>>, t: seq<seq<E>>, lIdx: nat)
    requires Laws(f) && LrcOk(c) && DealsGlobals(c) && IsTable(lib, c.g + 1, c.k) && lIdx < c.l
    requires RowsPut(f, c, lib, t, 0, c.l, c.k) && lIdx * R(c) < c.k
    ensures LocalsDone(f, c, lib, t, 0, lIdx) && RowsLeft(f, c, lib, t, 0, lIdx) && GlobalsBefore(c, lIdx) == 0
  {
    forall a | 0 <= a < lIdx
      ensures LocalDone(f, c, lib, t, 0, a)
    {
      assert RowPut(f, c, lib, t, 0, a, c.k);
      RowGap(a, lIdx, R(c));
      FoldStart(f, c, lib, t, a, a);
      FoldSkip(f, c, lib, t, a, a, 0, c.g);
    }
    forall a | lIdx <= a < c.l
      ensures RowPut(f, c, lib, t, 0, a, c.k)
    {
    }
  }

  /** The global parities of group i are those from GlobalsBefore(c, i) to GlobalsBefore(c, i + 1). */
  lemma GlobalsOfGroup(c: Lrc, i: nat)
    requires LrcOk(c) && DealsGlobals(c) && i < c.l && c.k <= i * R(c) + R(c)
    ensures var next := i + 1;
            && GlobalsBefore(c, i) <= GlobalsBefore(c, next) <= c.g
            && (forall x :: 0 <= x < c.g ==> (HoldsGlobal(c, i, x) <==> GlobalsBefore(c, i) <= x < GlobalsBefore(c, next)))
            && GlobalsBefore(c, next) - GlobalsBefore(c, i)
               == if Dealt(c, i) < R(c) then c.g - GlobalsBefore(c, i)
                  else (i + 1) * R(c) - (c.k + GlobalsBefore(c, i))
  {
    NextStart(c, i);
  }

  /** Adds the global parities of group i to its row. */
  method FoldGroup<E(!new)>(f: Field<E>, c: Lrc, lib: seq<seq<E>>, m: array<E>, i: nat, gIdx0: nat) returns (gIdx: nat)
    requires Laws(f) && LrcOk(c) && DealsGlobals(c) && IsTable(lib, c.g + 1, c.k) && i < c.l && m.Length == c.l * c.k
    requires gIdx0 == GlobalsBefore(c, i) && c.k <= i * R(c) + R(c)
    requires RowBegun(f, c, lib, TableOf(m[..], c.l, c.k), i, i, c.k, c.k)
    modifies m
    ensures OthersKept(old(TableOf(m[..], c.l, c.k)), TableOf(m[..], c.l, c.k), i, c.k)
    ensures FoldedAt(f, c, lib, TableOf(m[..], c.l, c.k), i, i, c.g)
    ensures var next := i + 1; gIdx == GlobalsBefore(c, next)
  {
    hide TableOf, FoldedAt, OthersKept, HoldsGlobal;
    GlobalsOfGroup(c, i);
    var groupSize, r := Dealt(c, i), R(c);
    var subGNum := if groupSize < r then c.g - gIdx0 else (i + 1) * r - (c.k + gIdx0);
    gIdx := gIdx0 + subGNum;
    FoldStart(f, c, lib, TableOf(m[..], c.l, c.k), i, i);
    FoldSkip(f, c, lib, TableOf(m[..], c.l, c.k), i, i, 0, gIdx0);
    FoldGlobals(f, c, lib, m, i, i, gIdx0, gIdx, c.l);
    FoldSkip(f, c, lib, TableOf(m[..], c.l, c.k), i, i, gIdx, c.g);
  }

  method SummedMatrix<E(0, !new)>(f: Field<E>, c: Lrc, lib: seq<seq<E>>) returns (m: array<E>)
    requires Laws(f) && LrcOk(c) && DealsGlobals(c) && IsTable(lib, c.g + 1, c.k)
    ensures fresh(m) && m.Length == (c.g + c.l) * c.k && TableOf(m[..], c.g + c.l, c.k) == EncodingTable(f, c, lib)
  {
    hide TableOf, EncodingTable, FoldedAt, LocalRow, OthersKept, RowsPut, R;
    var lMatrix, lIdx := DealData(f, c, lib);
    EarlyRowsDone(f, c, lib, TableOf(lMatrix[..], c.l, c.k), lIdx);
    var gIdx := 0;
    for i := lIdx to c.l
      invariant gIdx == GlobalsBefore(c, i) && c.k <= i * R(c) + R(c)
      invariant LocalsDone(f, c, lib, TableOf(lMatrix[..], c.l, c.k), 0, i)
      invariant RowsLeft(f, c, lib, TableOf(lMatrix[..], c.l, c.k), 0, i)
    {
      ghost var t := TableOf(lMatrix[..], c.l, c.k);
      assert RowPut(f, c, lib, t, 0, i, c.k);
      gIdx := FoldGroup(f, c, lib, lMatrix, i, gIdx);
      OneMoreDone(f, c, lib, t, TableOf(lMatrix[..], c.l, c.k), 0, i);
      LaterRowsKept(f, c, lib, t, TableOf(lMatrix[..], c.l, c.k), 0, i);
      NextStart(c, i);
    }
    m := StartMatrix(f, c, lib);
    ghost var start := TableOf(m[..], c.g + c.l, c.k);
    CopyRows(TableOf(lMatrix[..], c.l, c.k), m, c.g, c.g + c.l, c.k);
    StackedRows(start, TableOf(m[..], c.g + c.l, c.k), GlobalRows(c, lib), TableOf(lMatrix[..], c.l, c.k));
    SummedRows(f, c, lib, TableOf(lMatrix[..], c.l, c.k));
  }

  lemma SummedRows<E(!new)>(f: Field<E>, c: Lrc, lib: seq<seq<E>>, t: seq<seq<E>>)
    requires Laws(f) && LrcOk(c) && IsTable(lib, c.g + 1, c.k) && |t| == c.l && LocalsDone(f, c, lib, t, 0, c.l)
    ensures GlobalRows(c, lib) + t == EncodingTable(f, c, lib)
  {
    hide FoldedAt;
    forall a | 0 <= a < c.l
      ensures t[a] == EncodingTable(f, c, lib)[c.g + a]
    {
      assert LocalDone(f, c, lib, t, 0, a);
      FoldDone(f, c, lib, t, a, a);
    }
  }
}

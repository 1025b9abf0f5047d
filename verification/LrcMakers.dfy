/** The programs that fill in the encoding matrices; where a code has two of them they agree. */
module LrcMakers {
  import opened Fields
  import opened Sums
  import opened ErasureCode
  import opened RowMajor
  import opened LrcShape
  import opened LrcMatrices
  import opened LrcEncoding

  /** Entries `from` to `to` of a row of t are those of local row i; the later ones, up to `cols`, are zero. */
  ghost predicate RowBegun<E>(f: Field<E>, c: Lrc, lib: seq<seq<E>>, t: seq<seq<E>>, at: nat, i: nat, to: nat, cols: nat)
    requires LrcOk(c) && IsTable(lib, c.g + 1, c.k) && i < c.l && to <= cols <= c.k + c.g
  {
    && at < |t| && |t[at]| == cols
    && (forall b :: 0 <= b < to ==> t[at][b] == LocalRow(f, c, lib, i)[b])
    && (forall b :: to <= b < cols ==> t[at][b] == f.zero)
  }

  /** The rows from `base` on are the first `cols` entries of the first i local rows. */
  ghost predicate RowsPut<E>(f: Field<E>, c: Lrc, lib: seq<seq<E>>, t: seq<seq<E>>, base: nat, i: nat, cols: nat)
    requires LrcOk(c) && IsTable(lib, c.g + 1, c.k) && i <= c.l && cols <= c.k + c.g
  {
    forall a :: 0 <= a < i ==> RowPut(f, c, lib, t, base, a, cols)
  }

  ghost predicate RowPut<E>(f: Field<E>, c: Lrc, lib: seq<seq<E>>, t: seq<seq<E>>, base: nat, a: nat, cols: nat)
    requires LrcOk(c) && IsTable(lib, c.g + 1, c.k) && a < c.l && cols <= c.k + c.g
  {
    RowBegun(f, c, lib, t, base + a, a, cols, cols)
  }

  lemma PutKept<E>(f: Field<E>, c: Lrc, lib: seq<seq<E>>, t: seq<seq<E>>, t': seq<seq<E>>, base: nat, i: nat, cols: nat)
    requires LrcOk(c) && IsTable(lib, c.g + 1, c.k) && i <= c.l && cols <= c.k + c.g
    requires RowsPut(f, c, lib, t, base, i, cols) && OthersKept(t, t', base + i, cols)
    ensures RowsPut(f, c, lib, t', base, i, cols)
  {
    forall a | 0 <= a < i
      ensures RowPut(f, c, lib, t', base, a, cols)
    {
      assert RowPut(f, c, lib, t, base, a, cols);
    }
  }

  lemma PutMore<E>(f: Field<E>, c: Lrc, lib: seq<seq<E>>, t: seq<seq<E>>, base: nat, i: nat, cols: nat)
    requires LrcOk(c) && IsTable(lib, c.g + 1, c.k) && i < c.l && cols <= c.k + c.g
    requires RowsPut(f, c, lib, t, base, i, cols) && RowBegun(f, c, lib, t, base + i, i, cols, cols)
    ensures var next := i + 1; RowsPut(f, c, lib, t, base, next, cols)
  {
    var next := i + 1;
    forall a | 0 <= a < next
      ensures RowPut(f, c, lib, t, base, a, cols)
    {
      if a < i {
        assert RowPut(f, c, lib, t, base, a, cols);
      }
    }
  }

  /** Fills one local row by testing each data block; `dIdx` counts the blocks given out so far. */
  method PutRowByTest<E>(f: Field<E>, c: Lrc, lib: seq<seq<E>>, m: array<E>, i: nat, dIdx0: nat) returns (dIdx: nat)
    requires LrcOk(c) && (c.kind.Azure? || c.kind.OptimalCauchy?) && IsTable(lib, c.g + 1, c.k) && i < c.l
    requires m.Length == (c.g + c.l) * c.k && dIdx0 == Min(i * R(c), c.k)
    requires RowBegun(f, c, lib, TableOf(m[..], c.g + c.l, c.k), c.g + i, i, 0, c.k)
    modifies m
    ensures OthersKept(old(TableOf(m[..], c.g + c.l, c.k)), TableOf(m[..], c.g + c.l, c.k), c.g + i, c.k)
    ensures RowBegun(f, c, lib, TableOf(m[..], c.g + c.l, c.k), c.g + i, i, c.k, c.k)
    ensures dIdx == Min(i * R(c) + R(c), c.k)
  {
    hide TableOf, Pos;
    ghost var start := TableOf(m[..], c.g + c.l, c.k);
    dIdx := dIdx0;
    var lo, r := i * R(c), R(c);
    for j := 0 to c.k
      invariant OthersKept(start, TableOf(m[..], c.g + c.l, c.k), c.g + i, c.k)
      invariant RowBegun(f, c, lib, TableOf(m[..], c.g + c.l, c.k), c.g + i, i, j, c.k)
      invariant dIdx == if j <= lo then Min(lo, c.k) else Min(j, lo + r)
    {
      if lo <= j && j < lo + r {
        StoreEntry(m, c.g + i, j, if c.kind.Azure? then f.one else lib[c.g][dIdx], c.g + c.l, c.k);
        dIdx := dIdx + 1;
      }
    }
  }

  /** The data part of all local rows. */
  method PutByTest<E>(f: Field<E>, c: Lrc, lib: seq<seq<E>>, m: array<E>)
    requires LrcOk(c) && (c.kind.Azure? || c.kind.OptimalCauchy?) && IsTable(lib, c.g + 1, c.k)
    requires m.Length == (c.g + c.l) * c.k
    requires GlobalsStored(TableOf(m[..], c.g + c.l, c.k), c, lib)
    requires ZeroFrom(f, TableOf(m[..], c.g + c.l, c.k), c.g, c.k)
    modifies m
    ensures GlobalsStored(TableOf(m[..], c.g + c.l, c.k), c, lib)
    ensures RowsPut(f, c, lib, TableOf(m[..], c.g + c.l, c.k), c.g, c.l, c.k)
  {
    hide TableOf, Pos, GlobalRows, LocalRow;
    var dIdx := 0;
    ghost var lo := 0;
    for i := 0 to c.l
      invariant GlobalsStored(TableOf(m[..], c.g + c.l, c.k), c, lib)
      invariant ZeroFrom(f, TableOf(m[..], c.g + c.l, c.k), c.g + i, c.k)
      invariant RowsPut(f, c, lib, TableOf(m[..], c.g + c.l, c.k), c.g, i, c.k)
      invariant lo == i * R(c) && dIdx == Min(lo, c.k)
    {
      ghost var t := TableOf(m[..], c.g + c.l, c.k);
      dIdx := PutRowByTest(f, c, lib, m, i, dIdx);
      PutKept(f, c, lib, t, TableOf(m[..], c.g + c.l, c.k), c.g, i, c.k);
      PutMore(f, c, lib, TableOf(m[..], c.g + c.l, c.k), c.g, i, c.k);
      lo := lo + R(c);
    }
  }

  /** A finished data part with no global parities in the groups is a finished matrix. */
  lemma NothingToFold<E(!new)>(f: Field<E>, c: Lrc, lib: seq<seq<E>>, t: seq<seq<E>>)
    requires Laws(f) && LrcOk(c) && c.kind.Azure? && IsTable(lib, c.g + 1, c.k)
    requires RowsPut(f, c, lib, t, c.g, c.l, c.k)
    ensures LocalsDone(f, c, lib, t, c.g, c.l)
  {
    forall a | 0 <= a < c.l
      ensures LocalDone(f, c, lib, t, c.g, a)
    {
      assert RowPut(f, c, lib, t, c.g, a, c.k);
      FoldStart(f, c, lib, t, c.g + a, a);
      FoldSkip(f, c, lib, t, c.g + a, a, 0, c.g);
    }
  }

  method AzureMatrix<E(0, !new)>(f: Field<E>, c: Lrc, lib: seq<seq<E>>) returns (m: array<E>)
    requires Laws(f) && LrcOk(c) && c.kind.Azure? && IsTable(lib, c.g + 1, c.k)
    ensures fresh(m) && m.Length == (c.g + c.l) * c.k && TableOf(m[..], c.g + c.l, c.k) == EncodingTable(f, c, lib)
  {
    hide TableOf, EncodingTable;
    m := StartMatrix(f, c, lib);
    PutByTest(f, c, lib, m);
    NothingToFold(f, c, lib, TableOf(m[..], c.g + c.l, c.k));
    MatrixComplete(f, c, lib, TableOf(m[..], c.g + c.l, c.k));
  }

  lemma DoneKept<E>(f: Field<E>, c: Lrc, lib: seq<seq<E>>, t: seq<seq<E>>, t': seq<seq<E>>, base: nat, i: nat)
    requires LrcOk(c) && IsTable(lib, c.g + 1, c.k) && i <= c.l
    requires LocalsDone(f, c, lib, t, base, i) && OthersKept(t, t', base + i, c.k)
    ensures LocalsDone(f, c, lib, t', base, i)
  {
    hide LocalRow, GlobalShare, GlobalRows;
    forall a | 0 <= a < i
      ensures LocalDone(f, c, lib, t', base, a)
    {
      assert LocalDone(f, c, lib, t, base, a);
    }
  }

  /** Adds the global rows from..to into row `at`, one after another. */
  method FoldGlobals<E(!new)>(f: Field<E>, c: Lrc, lib: seq<seq<E>>, m: array<E>, at: nat, ghost i: nat, from: nat, to: nat,
                              rows: nat)
    requires Laws(f) && LrcOk(c) && IsTable(lib, c.g + 1, c.k) && i < c.l && from <= to <= c.g
    requires at < rows && m.Length == rows * c.k && FoldedAt(f, c, lib, TableOf(m[..], rows, c.k), at, i, from)
    requires forall x :: from <= x < to ==> HoldsGlobal(c, i, x)
    modifies m
    ensures OthersKept(old(TableOf(m[..], rows, c.k)), TableOf(m[..], rows, c.k), at, c.k)
    ensures FoldedAt(f, c, lib, TableOf(m[..], rows, c.k), at, i, to)
  {
    hide TableOf, FoldedAt;
    ghost var start := TableOf(m[..], rows, c.k);
    for j := from to to
      invariant OthersKept(start, TableOf(m[..], rows, c.k), at, c.k)
      invariant FoldedAt(f, c, lib, TableOf(m[..], rows, c.k), at, i, j)
    {
      ghost var t := TableOf(m[..], rows, c.k);
      AddRow(f, m, at, GlobalRows(c, lib)[j], rows, c.k);
      FoldAdd(f, c, lib, t, TableOf(m[..], rows, c.k), at, i, j);
    }
  }

  /** The rows from local row i on have only their data part. */
  ghost predicate RowsLeft<E>(f: Field<E>, c: Lrc, lib: seq<seq<E>>, t: seq<seq<E>>, base: nat, i: nat)
    requires LrcOk(c) && IsTable(lib, c.g + 1, c.k)
  {
    forall a :: i <= a < c.l ==> RowPut(f, c, lib, t, base, a, c.k)
  }

  lemma LaterRowsKept<E>(f: Field<E>, c: Lrc, lib: seq<seq<E>>, t: seq<seq<E>>, t': seq<seq<E>>, base: nat, i: nat)
    requires LrcOk(c) && IsTable(lib, c.g + 1, c.k) && i < c.l && OthersKept(t, t', base + i, c.k)
    requires RowsLeft(f, c, lib, t, base, i)
    ensures var next := i + 1; RowsLeft(f, c, lib, t', base, next)
  {
    var next := i + 1;
    forall a | next <= a < c.l
      ensures RowPut(f, c, lib, t', base, a, c.k)
    {
      assert RowPut(f, c, lib, t, base, a, c.k);
    }
  }

  lemma OneMoreDone<E>(f: Field<E>, c: Lrc, lib: seq<seq<E>>, t: seq<seq<E>>, t': seq<seq<E>>, base: nat, i: nat)
    requires LrcOk(c) && IsTable(lib, c.g + 1, c.k) && i < c.l && OthersKept(t, t', base + i, c.k)
    requires LocalsDone(f, c, lib, t, base, i) && FoldedAt(f, c, lib, t', base + i, i, c.g)
    ensures var next := i + 1; LocalsDone(f, c, lib, t', base, next)
  {
    DoneKept(f, c, lib, t, t', base, i);
    assert LocalDone(f, c, lib, t', base, i);
  }

  method OptimalCauchyMatrix<E(0, !new)>(f: Field<E>, c: Lrc, lib: seq<seq<E>>) returns (m: array<E>)
    requires Laws(f) && LrcOk(c) && c.kind.OptimalCauchy? && IsTable(lib, c.g + 1, c.k)
    ensures fresh(m) && m.Length == (c.g + c.l) * c.k && TableOf(m[..], c.g + c.l, c.k) == EncodingTable(f, c, lib)
  {
    hide TableOf, EncodingTable, FoldedAt, GlobalRows, LocalRow;
    m := StartMatrix(f, c, lib);
    PutByTest(f, c, lib, m);
    for i := 0 to c.l
      invariant GlobalsStored(TableOf(m[..], c.g + c.l, c.k), c, lib)
      invariant LocalsDone(f, c, lib, TableOf(m[..], c.g + c.l, c.k), c.g, i)
      invariant RowsLeft(f, c, lib, TableOf(m[..], c.g + c.l, c.k), c.g, i)
    {
      ghost var t := TableOf(m[..], c.g + c.l, c.k);
      assert RowPut(f, c, lib, t, c.g, i, c.k);
      FoldStart(f, c, lib, t, c.g + i, i);
      FoldGlobals(f, c, lib, m, c.g + i, i, 0, c.g, c.g + c.l);
      OneMoreDone(f, c, lib, t, TableOf(m[..], c.g + c.l, c.k), c.g, i);
      LaterRowsKept(f, c, lib, t, TableOf(m[..], c.g + c.l, c.k), c.g, i);
    }
    MatrixComplete(f, c, lib, TableOf(m[..], c.g + c.l, c.k));
  }
}

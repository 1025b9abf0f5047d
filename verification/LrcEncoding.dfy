/**
 Building the encoding matrices in place. The codes fill theirs in three ways: by testing every entry,
 by multiplying a matrix of groups into the data and global rows, and by adding global rows one at a time.
 All of them arrive at the same folded matrix.
 */
module LrcEncoding {
  import opened Fields
  import opened Sums
  import opened ErasureCode
  import opened RowMajor
  import opened LrcShape
  import opened LrcMatrices

  /** Global parity x belongs to local group i. */
  predicate HoldsGlobal(c: Lrc, i: nat, x: nat)
    requires LrcOk(c) && i < c.l && x < c.g
  {
    InGroup(c, i, c.k + x)
  }

  /** Row `at` of t is local row i with its first q global parities folded in. */
  ghost predicate FoldedAt<E>(f: Field<E>, c: Lrc, lib: seq<seq<E>>, t: seq<seq<E>>, at: nat, i: nat, q: nat)
    requires LrcOk(c) && IsTable(lib, c.g + 1, c.k) && i < c.l && q <= c.g
  {
    && at < |t| && |t[at]| == c.k
    && forall b :: 0 <= b < c.k ==>
         t[at][b] == f.add(LocalRow(f, c, lib, i)[b], GlobalShare(f, LocalRow(f, c, lib, i), GlobalRows(c, lib), c.k, q, b))
  }

  lemma FoldStart<E(!new)>(f: Field<E>, c: Lrc, lib: seq<seq<E>>, t: seq<seq<E>>, at: nat, i: nat)
    requires Laws(f) && LrcOk(c) && IsTable(lib, c.g + 1, c.k) && i < c.l
    requires at < |t| && |t[at]| == c.k && forall b :: 0 <= b < c.k ==> t[at][b] == LocalRow(f, c, lib, i)[b]
    ensures FoldedAt(f, c, lib, t, at, i, 0)
  {
    var row := LocalRow(f, c, lib, i);
    forall b | 0 <= b < c.k
      ensures t[at][b] == f.add(row[b], GlobalShare(f, row, GlobalRows(c, lib), c.k, 0, b))
    {
      assert MulVec(f, row[c.k..c.k], Column(GlobalRows(c, lib)[..0], b)) == [];
      LawsAt(f, row[b], row[b], row[b]);
    }
  }

  /** Adding the next global parity, which is in the group. */
  lemma FoldAdd<E(!new)>(f: Field<E>, c: Lrc, lib: seq<seq<E>>, t: seq<seq<E>>, t': seq<seq<E>>, at: nat, i: nat, q: nat)
    requires Laws(f) && LrcOk(c) && IsTable(lib, c.g + 1, c.k) && i < c.l && q < c.g
    requires FoldedAt(f, c, lib, t, at, i, q) && HoldsGlobal(c, i, q)
    requires at < |t'| && |t'[at]| == c.k
    requires forall b :: 0 <= b < c.k ==> t'[at][b] == f.add(t[at][b], GlobalRows(c, lib)[q][b])
    ensures var next := q + 1; FoldedAt(f, c, lib, t', at, i, next)
  {
    var row, globals, next := LocalRow(f, c, lib, i), GlobalRows(c, lib), q + 1;
    hide GlobalShare, LocalRow, GlobalRows;
    forall b | 0 <= b < c.k
      ensures t'[at][b] == f.add(row[b], GlobalShare(f, row, globals, c.k, next, b))
    {
      ShareOf(f, c, lib, i, q, b);
      LawsAt(f, row[b], GlobalShare(f, row, globals, c.k, q, b), globals[q][b]);
    }
  }

  /** Global parities outside the group need no adding. */
  lemma {:induction false} FoldSkip<E(!new)>(f: Field<E>, c: Lrc, lib: seq<seq<E>>, t: seq<seq<E>>, at: nat, i: nat,
                                             q: nat, to: nat)
    requires Laws(f) && LrcOk(c) && IsTable(lib, c.g + 1, c.k) && i < c.l && q <= to <= c.g
    requires FoldedAt(f, c, lib, t, at, i, q) && forall x :: q <= x < to ==> !HoldsGlobal(c, i, x)
    ensures FoldedAt(f, c, lib, t, at, i, to)
  {
    if q < to {
      var last := to - 1;
      FoldSkip(f, c, lib, t, at, i, q, last);
      hide GlobalShare, LocalRow, GlobalRows;
      forall b | 0 <= b < c.k
        ensures t[at][b] == f.add(LocalRow(f, c, lib, i)[b],
                                  GlobalShare(f, LocalRow(f, c, lib, i), GlobalRows(c, lib), c.k, to, b))
      {
        assert !HoldsGlobal(c, i, last);
        ShareOf(f, c, lib, i, last, b);
      }
    }
  }

  /** With all the global parities folded in the row is a row of the encoding matrix. */
  lemma FoldDone<E(!new)>(f: Field<E>, c: Lrc, lib: seq<seq<E>>, t: seq<seq<E>>, at: nat, i: nat)
    requires Laws(f) && LrcOk(c) && IsTable(lib, c.g + 1, c.k) && i < c.l && FoldedAt(f, c, lib, t, at, i, c.g)
    ensures t[at] == EncodingTable(f, c, lib)[c.g + i]
  {
    hide GlobalShare, LocalRow, GlobalRows, EncodingTable;
    forall b | 0 <= b < c.k
      ensures t[at][b] == EncodingTable(f, c, lib)[c.g + i][b]
    {
      FoldedEntry(f, c, lib, i, b);
    }
  }

  // In-place steps.

  /** Rows base, base + 1, ... of t are the first n rows of src. */
  ghost predicate RowsCopied<E>(t: seq<seq<E>>, base: nat, src: seq<seq<E>>, n: nat) {
    n <= |src| && base + n <= |t| && forall a :: 0 <= a < n ==> RowCopied(t, base, src, a)
  }

  ghost predicate RowCopied<E>(t: seq<seq<E>>, base: nat, src: seq<seq<E>>, a: nat)
    requires a < |src| && base + a < |t|
  {
    t[base + a] == src[a]
  }

  /** All rows outside base .. base + n are the same. */
  ghost predicate OutsideKept<E>(t: seq<seq<E>>, t': seq<seq<E>>, base: nat, n: nat) {
    |t| == |t'| && forall a :: 0 <= a < |t| && (a < base || base + n <= a) ==> t'[a] == t[a]
  }

  /** Copies one row, entry by entry. */
  method CopyRow<E>(row: seq<E>, m: array<E>, at: nat, rows: nat, cols: nat)
    requires |row| == cols && at < rows && m.Length == rows * cols
    modifies m
    ensures OutsideKept(old(TableOf(m[..], rows, cols)), TableOf(m[..], rows, cols), at, 1)
    ensures TableOf(m[..], rows, cols)[at] == row
  {
    hide TableOf;
    ghost var start := TableOf(m[..], rows, cols);
    for j := 0 to cols
      invariant forall a, b :: 0 <= a < rows && 0 <= b < cols && a != at ==> TableOf(m[..], rows, cols)[a][b] == start[a][b]
      invariant forall b :: 0 <= b < j ==> TableOf(m[..], rows, cols)[at][b] == row[b]
    {
      StoreEntry(m, at, j, row[j], rows, cols);
    }
    forall a | 0 <= a < rows && a != at
      ensures TableOf(m[..], rows, cols)[a] == start[a]
    {
    }
  }

  /** Copies the rows of src one after another, starting at row `base`. */
  method CopyRows<E>(src: seq<seq<E>>, m: array<E>, base: nat, rows: nat, cols: nat)
    requires IsTable(src, |src|, cols) && base + |src| <= rows && m.Length == rows * cols
    modifies m
    ensures OutsideKept(old(TableOf(m[..], rows, cols)), TableOf(m[..], rows, cols), base, |src|)
    ensures RowsCopied(TableOf(m[..], rows, cols), base, src, |src|)
  {
    hide TableOf;
    ghost var start := TableOf(m[..], rows, cols);
    for i := 0 to |src|
      invariant OutsideKept(start, TableOf(m[..], rows, cols), base, i)
      invariant RowsCopied(TableOf(m[..], rows, cols), base, src, i)
    {
      ghost var t := TableOf(m[..], rows, cols);
      CopyRow(src[i], m, base + i, rows, cols);
      CopiedMore(start, t, TableOf(m[..], rows, cols), base, src, i);
    }
  }

  lemma CopiedMore<E>(start: seq<seq<E>>, t: seq<seq<E>>, t': seq<seq<E>>, base: nat, src: seq<seq<E>>, i: nat)
    requires i < |src| && base + i < |t| && RowsCopied(t, base, src, i) && OutsideKept(start, t, base, i)
    requires OutsideKept(t, t', base + i, 1) && t'[base + i] == src[i]
    ensures var next := i + 1; RowsCopied(t', base, src, next) && OutsideKept(start, t', base, next)
  {
    var next := i + 1;
    forall a | 0 <= a < next
      ensures RowCopied(t', base, src, a)
    {
      if a < i {
        assert RowCopied(t, base, src, a);
      }
    }
  }

  /** The first rows of the matrix are the global rows. */
  ghost predicate GlobalsStored<E>(t: seq<seq<E>>, c: Lrc, lib: seq<seq<E>>)
    requires IsTable(lib, c.g + 1, c.k)
  {
    |t| >= c.g && forall a :: 0 <= a < c.g ==> t[a] == GlobalRows(c, lib)[a]
  }

  /** Rows from `from` on are still as allocated. */
  ghost predicate ZeroFrom<E>(f: Field<E>, t: seq<seq<E>>, from: nat, cols: nat) {
    IsTable(t, |t|, cols) && forall a, b :: from <= a < |t| && 0 <= b < cols ==> t[a][b] == f.zero
  }

  /** A zeroed matrix with the global rows copied to its top. */
  method StartMatrix<E(0)>(f: Field<E>, c: Lrc, lib: seq<seq<E>>) returns (m: array<E>)
    requires IsTable(lib, c.g + 1, c.k)
    ensures fresh(m) && m.Length == (c.g + c.l) * c.k
    ensures GlobalsStored(TableOf(m[..], c.g + c.l, c.k), c, lib) && ZeroFrom(f, TableOf(m[..], c.g + c.l, c.k), c.g, c.k)
  {
    var rows := c.g + c.l;
    m := new E[rows * c.k](_ => f.zero);
    ghost var start := TableOf(m[..], rows, c.k);
    CopyRows(GlobalRows(c, lib), m, 0, rows, c.k);
    hide TableOf, GlobalRows;
    CopiedAtTop(TableOf(m[..], rows, c.k), GlobalRows(c, lib));
    ZeroBelow(f, start, TableOf(m[..], rows, c.k), c.g, c.k);
  }

  lemma CopiedAtTop<E>(t: seq<seq<E>>, src: seq<seq<E>>)
    requires RowsCopied(t, 0, src, |src|)
    ensures forall a :: 0 <= a < |src| ==> t[a] == src[a]
  {
    forall a | 0 <= a < |src|
      ensures t[a] == src[a]
    {
      assert RowCopied(t, 0, src, a);
    }
  }

  lemma ZeroBelow<E>(f: Field<E>, t: seq<seq<E>>, t': seq<seq<E>>, n: nat, cols: nat)
    requires ZeroFrom(f, t, 0, cols) && IsTable(t', |t|, cols) && OutsideKept(t, t', 0, n)
    ensures ZeroFrom(f, t', n, cols)
  {
  }

  /** Only row `at` may differ. */
  ghost predicate OthersKept<E>(t: seq<seq<E>>, t': seq<seq<E>>, at: nat, cols: nat) {
    && IsTable(t, |t|, cols) && IsTable(t', |t|, cols)
    && forall a, b :: 0 <= a < |t| && 0 <= b < cols && a != at ==> t'[a][b] == t[a][b]
  }

  /** Adds a row into row i, entry by entry. */
  method AddRow<E>(f: Field<E>, m: array<E>, i: nat, row: seq<E>, ghost rows: nat, cols: nat)
    requires i < rows && rows * cols <= m.Length && |row| == cols
    modifies m
    ensures OthersKept(old(TableOf(m[..], rows, cols)), TableOf(m[..], rows, cols), i, cols)
    ensures forall b :: 0 <= b < cols ==>
              TableOf(m[..], rows, cols)[i][b] == f.add(old(TableOf(m[..], rows, cols))[i][b], row[b])
  {
    hide Pos, TableOf;
    ghost var start := TableOf(m[..], rows, cols);
    for j := 0 to cols
      invariant OthersKept(start, TableOf(m[..], rows, cols), i, cols)
      invariant forall b :: j <= b < cols ==> TableOf(m[..], rows, cols)[i][b] == start[i][b]
      invariant forall b :: 0 <= b < j ==> TableOf(m[..], rows, cols)[i][b] == f.add(start[i][b], row[b])
    {
      PosBound(i, j, cols, rows);
      assert m[Pos(i, j, cols)] == TableOf(m[..], rows, cols)[i][j];
      StoreEntry(m, i, j, f.add(m[Pos(i, j, cols)], row[j]), rows, cols);
    }
  }

  /** The rows below the global rows, up to local row i, are finished. */
  ghost predicate LocalsDone<E>(f: Field<E>, c: Lrc, lib: seq<seq<E>>, t: seq<seq<E>>, base: nat, i: nat)
    requires LrcOk(c) && IsTable(lib, c.g + 1, c.k) && i <= c.l
  {
    forall a :: 0 <= a < i ==> LocalDone(f, c, lib, t, base, a)
  }

  ghost predicate LocalDone<E>(f: Field<E>, c: Lrc, lib: seq<seq<E>>, t: seq<seq<E>>, base: nat, a: nat)
    requires LrcOk(c) && IsTable(lib, c.g + 1, c.k) && a < c.l
  {
    FoldedAt(f, c, lib, t, base + a, a, c.g)
  }

  lemma MatrixComplete<E(!new)>(f: Field<E>, c: Lrc, lib: seq<seq<E>>, t: seq<seq<E>>)
    requires Laws(f) && LrcOk(c) && IsTable(lib, c.g + 1, c.k) && IsTable(t, c.g + c.l, c.k)
    requires GlobalsStored(t, c, lib) && LocalsDone(f, c, lib, t, c.g, c.l)
    ensures t == EncodingTable(f, c, lib)
  {
    hide FoldedAt, GlobalRows;
    forall a | 0 <= a < c.g + c.l
      ensures t[a] == EncodingTable(f, c, lib)[a]
    {
      if a < c.g {
      } else {
        var i := a - c.g;
        assert LocalDone(f, c, lib, t, c.g, i);
        FoldDone(f, c, lib, t, a, i);
      }
    }
  }
}

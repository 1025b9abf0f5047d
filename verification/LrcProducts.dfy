/** Encoding matrices made by multiplying the group matrix into the data and global rows. */
module LrcProducts {
  import opened Fields
  import opened Sums
  import opened Matrices
  import opened ErasureCode
  import opened RowMajor
  import opened LrcShape
  import opened LrcMatrices
  import opened LrcEncoding
  import opened LrcMakers

  /** A row nothing has been written to agrees with its local row up to the group's first block. */
  lemma RowStart<E>(f: Field<E>, c: Lrc, lib: seq<seq<E>>, t: seq<seq<E>>, i: nat)
    requires LrcOk(c) && IsTable(lib, c.g + 1, c.k) && i < c.l && i < |t| && ZeroFrom(f, t, i, c.k + c.g)
    ensures i < Groups(c) ==> RowBegun(f, c, lib, t, i, i, Min(i * R(c), Spread(c)), c.k + c.g)
    ensures i >= Groups(c) ==> RowBegun(f, c, lib, t, i, i, c.k, c.k + c.g)
  {
  }

  /** Past the group's last block the local row has only what belongs to every group. */
  lemma RowEnd<E>(f: Field<E>, c: Lrc, lib: seq<seq<E>>, t: seq<seq<E>>, i: nat)
    requires LrcOk(c) && IsTable(lib, c.g + 1, c.k) && i < Groups(c)
    requires RowBegun(f, c, lib, t, i, i, Min(i * R(c) + R(c), Spread(c)), c.k + c.g)
    ensures RowBegun(f, c, lib, t, i, i, if c.kind.OptimalCauchy? then c.k else c.k + c.g, c.k + c.g)
  {
  }

  /** The blocks dealt to one group, starting at idx0. */
  method DealRow<E>(f: Field<E>, c: Lrc, lib: seq<seq<E>>, m: array<E>, i: nat, idx0: nat) returns (idx: nat)
    requires LrcOk(c) && !c.kind.Azure? && IsTable(lib, c.g + 1, c.k) && i < Groups(c)
    requires m.Length == c.l * (c.k + c.g) && idx0 == Min(i * R(c), Spread(c))
    requires RowBegun(f, c, lib, TableOf(m[..], c.l, c.k + c.g), i, i, idx0, c.k + c.g)
    modifies m
    ensures OthersKept(old(TableOf(m[..], c.l, c.k + c.g)), TableOf(m[..], c.l, c.k + c.g), i, c.k + c.g)
    ensures idx == Min(i * R(c) + R(c), Spread(c))
    ensures RowBegun(f, c, lib, TableOf(m[..], c.l, c.k + c.g), i, i, idx, c.k + c.g)
  {
    hide TableOf, Pos;
    var w := c.k + c.g;
    ghost var start := TableOf(m[..], c.l, w);
    idx := idx0;
    ghost var lo := i * R(c);
    var groupSize := Dealt(c, i);
    var j := 0;
    while j < groupSize
      invariant 0 <= j <= (if groupSize >= 0 then groupSize else 0) && idx == idx0 + j
      invariant OthersKept(start, TableOf(m[..], c.l, w), i, w)
      invariant RowBegun(f, c, lib, TableOf(m[..], c.l, w), i, i, idx, w)
    {
      StoreEntry(m, i, idx, Coefficient(f, c, lib, idx), c.l, w);
      idx := idx + 1;
      j := j + 1;
    }
  }

  /** Ones, from column `from` to the end of the row. */
  method FillOnes<E>(f: Field<E>, c: Lrc, lib: seq<seq<E>>, m: array<E>, i: nat)
    requires LrcOk(c) && IsTable(lib, c.g + 1, c.k) && i < c.l && m.Length == c.l * (c.k + c.g)
    requires c.kind.OptimalCauchy? || (c.kind.AzurePlusOne? && i == c.l - 1)
    requires RowBegun(f, c, lib, TableOf(m[..], c.l, c.k + c.g), i, i, c.k, c.k + c.g)
    modifies m
    ensures OthersKept(old(TableOf(m[..], c.l, c.k + c.g)), TableOf(m[..], c.l, c.k + c.g), i, c.k + c.g)
    ensures RowBegun(f, c, lib, TableOf(m[..], c.l, c.k + c.g), i, i, c.k + c.g, c.k + c.g)
  {
    hide TableOf, Pos;
    var w := c.k + c.g;
    ghost var start := TableOf(m[..], c.l, w);
    for j := c.k to w
      invariant OthersKept(start, TableOf(m[..], c.l, w), i, w)
      invariant RowBegun(f, c, lib, TableOf(m[..], c.l, w), i, i, j, w)
    {
      StoreEntry(m, i, j, f.one, c.l, w);
    }
  }

  /** One more row of the group matrix is finished. */
  lemma RowDealt<E>(f: Field<E>, c: Lrc, lib: seq<seq<E>>, t: seq<seq<E>>, t': seq<seq<E>>, i: nat)
    requires LrcOk(c) && IsTable(lib, c.g + 1, c.k) && i < c.l
    requires RowsPut(f, c, lib, t, 0, i, c.k + c.g) && ZeroFrom(f, t, i, c.k + c.g)
    requires OthersKept(t, t', i, c.k + c.g) && RowBegun(f, c, lib, t', i, i, c.k + c.g, c.k + c.g)
    ensures var next := i + 1;
            RowsPut(f, c, lib, t', 0, next, c.k + c.g) && ZeroFrom(f, t', next, c.k + c.g)
  {
    PutKept(f, c, lib, t, t', 0, i, c.k + c.g);
    PutMore(f, c, lib, t', 0, i, c.k + c.g);
  }

  /** The matrix of groups, filled with a running block index. */
  method MakeGroups<E(0)>(f: Field<E>, c: Lrc, lib: seq<seq<E>>) returns (m: array<E>)
    requires LrcOk(c) && !c.kind.Azure? && IsTable(lib, c.g + 1, c.k)
    ensures fresh(m) && m.Length == c.l * (c.k + c.g) && TableOf(m[..], c.l, c.k + c.g) == LocalRows(f, c, lib)
  {
    hide LocalRow, RowBegun, R, OthersKept, RowsPut;
    var w := c.k + c.g;
    m := new E[c.l * w](_ => f.zero);
    assert RowsPut(f, c, lib, TableOf(m[..], c.l, w), 0, 0, w) by { NonePut(f, c, lib, TableOf(m[..], c.l, w), w); }
    var idx := 0;
    ghost var lo := 0;
    hide TableOf, ZeroFrom;
    for i := 0 to Groups(c)
      invariant RowsPut(f, c, lib, TableOf(m[..], c.l, w), 0, i, w) && ZeroFrom(f, TableOf(m[..], c.l, w), i, w)
      invariant lo == i * R(c) && idx == Min(lo, Spread(c))
    {
      ghost var t := TableOf(m[..], c.l, w);
      RowStart(f, c, lib, t, i);
      idx := DealRow(f, c, lib, m, i, idx);
      RowEnd(f, c, lib, TableOf(m[..], c.l, w), i);
      if c.kind.OptimalCauchy? {
        ghost var t' := TableOf(m[..], c.l, w);
        FillOnes(f, c, lib, m, i);
        KeptTwice(t, t', TableOf(m[..], c.l, w), i, w);
      }
      RowDealt(f, c, lib, t, TableOf(m[..], c.l, w), i);
      lo := lo + R(c);
      NextStart(c, i);
    }
    if c.kind.AzurePlusOne? {
      var last := c.l - 1;
      ghost var t := TableOf(m[..], c.l, w);
      RowStart(f, c, lib, t, last);
      FillOnes(f, c, lib, m, last);
      RowDealt(f, c, lib, t, TableOf(m[..], c.l, w), last);
    }
    GroupsComplete(f, c, lib, TableOf(m[..], c.l, w));
  }

  lemma NonePut<E>(f: Field<E>, c: Lrc, lib: seq<seq<E>>, t: seq<seq<E>>, cols: nat)
    requires LrcOk(c) && IsTable(lib, c.g + 1, c.k) && cols <= c.k + c.g
    ensures RowsPut(f, c, lib, t, 0, 0, cols)
  {
  }

  lemma KeptTwice<E>(t: seq<seq<E>>, t': seq<seq<E>>, t'': seq<seq<E>>, at: nat, cols: nat)
    requires OthersKept(t, t', at, cols) && OthersKept(t', t'', at, cols)
    ensures OthersKept(t, t'', at, cols)
  {
  }

  lemma NextStart(c: Lrc, i: nat)
    requires LrcOk(c)
    ensures (i + 1) * R(c) == i * R(c) + R(c)
  {
  }

  lemma GroupsComplete<E>(f: Field<E>, c: Lrc, lib: seq<seq<E>>, t: seq<seq<E>>)
    requires LrcOk(c) && IsTable(lib, c.g + 1, c.k) && |t| == c.l && RowsPut(f, c, lib, t, 0, c.l, c.k + c.g)
    ensures t == LocalRows(f, c, lib)
  {
    forall a | 0 <= a < c.l
      ensures t[a] == LocalRow(f, c, lib, a)
    {
      assert RowPut(f, c, lib, t, 0, a, c.k + c.g);
    }
  }

  /** An identity on top of the global rows. */
  method MakeDataAndGlobals<E(0)>(f: Field<E>, c: Lrc, lib: seq<seq<E>>) returns (m: array<E>)
    requires IsTable(lib, c.g + 1, c.k)
    ensures fresh(m) && m.Length == (c.k + c.g) * c.k && TableOf(m[..], c.k + c.g, c.k) == DataAndGlobals(f, c, lib)
  {
    var rows := c.k + c.g;
    m := new E[rows * c.k](_ => f.zero);
    for i := 0 to c.k
      invariant forall a, b :: 0 <= a < rows && 0 <= b < c.k ==>
                  TableOf(m[..], rows, c.k)[a][b] == if a < i && a == b then f.one else f.zero
    {
      StoreEntry(m, i, i, f.one, rows, c.k);
    }
    hide TableOf;
    ghost var start := TableOf(m[..], rows, c.k);
    CopyRows(GlobalRows(c, lib), m, c.k, rows, c.k);
    StackedRows(start, TableOf(m[..], rows, c.k), Identity(f, c.k), GlobalRows(c, lib));
  }

  /** The top rows as they were, the rest copied in. */
  lemma StackedRows<E>(t: seq<seq<E>>, t': seq<seq<E>>, top: seq<seq<E>>, bottom: seq<seq<E>>)
    requires |t'| == |top| + |bottom| && OutsideKept(t, t', |top|, |bottom|) && RowsCopied(t', |top|, bottom, |bottom|)
    requires forall a :: 0 <= a < |top| ==> t[a] == top[a]
    ensures t' == top + bottom
  {
    forall a | 0 <= a < |t'|
      ensures t'[a] == (top + bottom)[a]
    {
      if a >= |top| {
        assert RowCopied(t', |top|, bottom, a - |top|);
      }
    }
  }

  /** The encoding matrix by one matrix product, for every code but Azure's. */
  method ProductMatrix<E(0)>(f: Field<E>, c: Lrc, lib: seq<seq<E>>) returns (m: array<E>)
    requires LrcOk(c) && !c.kind.Azure? && IsTable(lib, c.g + 1, c.k)
    ensures fresh(m) && m.Length == (c.g + c.l) * c.k && TableOf(m[..], c.g + c.l, c.k) == EncodingTable(f, c, lib)
  {
    hide TableOf, LocalRows, DataAndGlobals;
    var rows := c.g + c.l;
    m := StartMatrix(f, c, lib);
    var lMatrix := MakeGroups(f, c, lib);
    var dgMatrix := MakeDataAndGlobals(f, c, lib);
    var mix := MatMul(f, TableOf(lMatrix[..], c.l, c.k + c.g), TableOf(dgMatrix[..], c.k + c.g, c.k), c.k);
    hide MatMul;
    ghost var start := TableOf(m[..], rows, c.k);
    CopyRows(mix, m, c.g, rows, c.k);
    StackedRows(start, TableOf(m[..], rows, c.k), GlobalRows(c, lib), mix);
  }
}

/**
 The coding steps on buffers: submatrix selection, partial encoding, addition and decoding. Matrices
 are flat arrays stored row by row; a block is the sequence of its words, and a coding buffer holds one
 block per slot.
 */
module ErasureCode {
  import opened Listing
  import opened Fields
  import opened Sums
  import opened Matrices
  import opened RepairAlgebra
  import opened RowMajor

  type Block<E> = seq<E>

  // A matrix is stored row by row.

  /** The matrix stored in the first rows * cols entries. */
  function TableOf<E>(flat: seq<E>, rows: nat, cols: nat): (r: seq<seq<E>>)
    requires rows * cols <= |flat|
    ensures IsTable(r, rows, cols)
    ensures forall i, j :: 0 <= i < rows && 0 <= j < cols ==> Pos(i, j, cols) < |flat| && r[i][j] == flat[Pos(i, j, cols)]
  {
    hide Pos;
    forall i: nat, j: nat | i < rows && j < cols { PosBound(i, j, cols, rows); }
    seq(rows, i requires 0 <= i < rows => seq(cols, j requires 0 <= j < cols => flat[Pos(i, j, cols)]))
  }

  /** Writing entry (i, j) changes that entry of the stored matrix and nothing else. */
  lemma WriteEntry<E>(flat: seq<E>, i: nat, j: nat, x: E, rows: nat, cols: nat)
    requires i < rows && j < cols && rows * cols <= |flat|
    ensures Pos(i, j, cols) < |flat|
    ensures var t, t' := TableOf(flat, rows, cols), TableOf(flat[Pos(i, j, cols) := x], rows, cols);
            forall a, b :: 0 <= a < rows && 0 <= b < cols ==> t'[a][b] == if a == i && b == j then x else t[a][b]
  {
    hide Pos;
    PosBound(i, j, cols, rows);
    var t, t' := TableOf(flat, rows, cols), TableOf(flat[Pos(i, j, cols) := x], rows, cols);
    forall a: nat, b: nat | a < rows && b < cols
      ensures t'[a][b] == if a == i && b == j then x else t[a][b]
    {
      if a != i || b != j {
        PosApart(i, j, a, b, cols);
      }
    }
  }

  /** Stores one entry of a matrix. */
  method StoreEntry<E>(m: array<E>, i: nat, j: nat, x: E, ghost rows: nat, cols: nat)
    requires i < rows && j < cols && rows * cols <= m.Length
    modifies m
    ensures forall a, b :: 0 <= a < rows && 0 <= b < cols ==>
              TableOf(m[..], rows, cols)[a][b]
              == if a == i && b == j then x else old(TableOf(m[..], rows, cols))[a][b]
    ensures forall t :: rows * cols <= t < m.Length ==> m[t] == old(m[t])
  {
    hide Pos;
    WriteEntry(m[..], i, j, x, rows, cols);
    PosBound(i, j, cols, rows);
    ghost var before := m[..];
    m[Pos(i, j, cols)] := x;
    assert m[..] == before[Pos(i, j, cols) := x];
  }

  /** Copies the listed rows of `matrix`, entry by entry, into `newMatrix`. */
  method MakeSubmatrixByRows<E>(cols: nat, matrix: seq<E>, newMatrix: array<E>, blockIdxs: seq<nat>, ghost n: nat)
    requires n * cols <= |matrix| && |blockIdxs| * cols <= newMatrix.Length
    requires InRange(blockIdxs, n)
    modifies newMatrix
    ensures TableOf(newMatrix[..], |blockIdxs|, cols) == Pick(TableOf(matrix, n, cols), blockIdxs)
  {
    hide Pos;
    ghost var rows, m := |blockIdxs|, TableOf(matrix, n, cols);
    for i := 0 to |blockIdxs|
      invariant forall a, b :: 0 <= a < i && 0 <= b < cols ==>
                  TableOf(newMatrix[..], rows, cols)[a][b] == m[blockIdxs[a]][b]
    {
      var j := blockIdxs[i];
      for c := 0 to cols
        invariant forall a, b :: 0 <= a < i && 0 <= b < cols ==>
                    TableOf(newMatrix[..], rows, cols)[a][b] == m[blockIdxs[a]][b]
        invariant forall b :: 0 <= b < c ==> TableOf(newMatrix[..], rows, cols)[i][b] == m[j][b]
      {
        PosBound(j, c, cols, n);
        StoreEntry(newMatrix, i, c, matrix[Pos(j, c, cols)], rows, cols);
      }
    }
    forall a | 0 <= a < rows
      ensures TableOf(newMatrix[..], rows, cols)[a] == m[blockIdxs[a]]
    {
    }
  }

  /** Copies the listed columns of the first `rows` rows of `matrix` into `newMatrix`. */
  method MakeSubmatrixByCols<E>(cols: nat, rows: nat, matrix: seq<E>, newMatrix: array<E>, blockIdxs: seq<nat>)
    requires rows * cols <= |matrix| && rows * |blockIdxs| <= newMatrix.Length
    requires InRange(blockIdxs, cols)
    modifies newMatrix
    ensures TableOf(newMatrix[..], rows, |blockIdxs|)
            == SubMatrix(TableOf(matrix, rows, cols), UpTo(rows), blockIdxs, cols)
  {
    hide Pos;
    ghost var m := TableOf(matrix, rows, cols);
    var num := |blockIdxs|;
    for i := 0 to num
      invariant forall u, a :: 0 <= u < rows && 0 <= a < i ==>
                  TableOf(newMatrix[..], rows, num)[u][a] == m[u][blockIdxs[a]]
    {
      var j := blockIdxs[i];
      for u := 0 to rows
        invariant forall v, a :: 0 <= v < rows && 0 <= a < i ==>
                    TableOf(newMatrix[..], rows, num)[v][a] == m[v][blockIdxs[a]]
        invariant forall v :: 0 <= v < u ==> TableOf(newMatrix[..], rows, num)[v][i] == m[v][j]
      {
        PosBound(u, j, cols, rows);
        StoreEntry(newMatrix, u, i, matrix[Pos(u, j, cols)], rows, num);
      }
    }
    forall u | 0 <= u < rows
      ensures TableOf(newMatrix[..], rows, num)[u] == Pick(m[u], blockIdxs)
    {
    }
  }

  // Blocks.

  /** One coding block: the row applied to the data blocks, word by word. */
  function CodingBlock<E>(f: Field<E>, row: seq<E>, data: seq<Block<E>>, size: nat): (r: Block<E>)
    requires |row| == |data| && IsTable(data, |data|, size)
    ensures |r| == size && forall p :: 0 <= p < size ==> r[p] == Dot(f, row, Column(data, p))
  {
    seq(size, p requires 0 <= p < size => Dot(f, row, Column(data, p)))
  }

  function EncodeBlocks<E>(f: Field<E>, m: seq<seq<E>>, data: seq<Block<E>>, size: nat): (r: seq<Block<E>>)
    requires IsTable(m, |m|, |data|) && IsTable(data, |data|, size)
    ensures IsTable(r, |m|, size) && forall i :: 0 <= i < |m| ==> r[i] == CodingBlock(f, m[i], data, size)
  {
    seq(|m|, i requires 0 <= i < |m| => CodingBlock(f, m[i], data, size))
  }

  /** Encoding works on each word position separately. */
  lemma EncodeByWord<E>(f: Field<E>, m: seq<seq<E>>, data: seq<Block<E>>, size: nat, p: nat)
    requires IsTable(m, |m|, |data|) && IsTable(data, |data|, size) && p < size
    ensures Column(EncodeBlocks(f, m, data, size), p) == MatVec(f, m, Column(data, p))
  {
  }

  /** The matrix-times-blocks primitive of the coding library, writing its m output blocks in place. */
  method MatrixEncode<E>(f: Field<E>, k: nat, m: nat, matrix: seq<E>, data: seq<Block<E>>,
                         coding: array<Block<E>>, blockSize: nat)
    requires m * k <= |matrix| && |data| == k && IsTable(data, k, blockSize) && coding.Length == m
    modifies coding
    ensures coding[..] == EncodeBlocks(f, TableOf(matrix, m, k), data, blockSize)
  {
    for i := 0 to m
      invariant forall a :: 0 <= a < i ==> coding[a] == CodingBlock(f, TableOf(matrix, m, k)[a], data, blockSize)
    {
      coding[i] := CodingBlock(f, TableOf(matrix, m, k)[i], data, blockSize);
    }
  }

  /** The blocks listed under `key`, in the order in which they are stored. */
  function Selected<E>(blocks: seq<Block<E>>, idxs: seq<nat>, key: nat, ghost size: nat): (r: seq<Block<E>>)
    requires |blocks| == |idxs| && IsTable(blocks, |blocks|, size)
    ensures IsTable(r, |r|, size)
  {
    if blocks == [] then []
    else
      var n := |blocks| - 1;
      Selected(blocks[..n], idxs[..n], key, size) + (if idxs[n] == key then [blocks[n]] else [])
  }

  function Ones<E>(f: Field<E>, n: nat): seq<E> { seq(n, _ => f.one) }

  /** Adds up, for each parity, all the blocks stored under its index. */
  method PerformAddition<E>(f: Field<E>, data: seq<Block<E>>, coding: array<Block<E>>, blockSize: nat,
                            dataIdxs: seq<nat>, parityIdxs: seq<nat>)
    requires |data| == |dataIdxs| && IsTable(data, |data|, blockSize) && coding.Length == |parityIdxs|
    modifies coding
    ensures forall i :: 0 <= i < |parityIdxs| ==>
              var mine := Selected(data, dataIdxs, parityIdxs[i], blockSize);
              coding[i] == CodingBlock(f, Ones(f, |mine|), mine, blockSize)
  {
    for i := 0 to |parityIdxs|
      invariant forall a :: 0 <= a < i ==>
                  var mine := Selected(data, dataIdxs, parityIdxs[a], blockSize);
                  coding[a] == CodingBlock(f, Ones(f, |mine|), mine, blockSize)
    {
      var mine: seq<Block<E>> := [];
      for j := 0 to |data|
        invariant mine == Selected(data[..j], dataIdxs[..j], parityIdxs[i], blockSize)
      {
        assert data[..j + 1][..j] == data[..j] && dataIdxs[..j + 1][..j] == dataIdxs[..j];
        if parityIdxs[i] == dataIdxs[j] {
          mine := mine + [data[j]];
        }
      }
      assert data[..|data|] == data && dataIdxs[..|data|] == dataIdxs;
      var newMatrix := new E[|mine|](_ => f.one);
      assert newMatrix[..] == Ones(f, |mine|);
      coding[i] := CodingBlock(f, newMatrix[..], mine, blockSize);
    }
  }

  /** Partial blocks of the chosen parities, from the data blocks at hand. */
  method EncodePartialBlocksForParities<E(0)>(f: Field<E>, k: nat, fullMatrix: seq<E>, data: seq<Block<E>>,
                                              coding: array<Block<E>>, blockSize: nat,
                                              dataIdxs: seq<nat>, parityIdxs: seq<nat>, ghost n: nat)
    requires n * k <= |fullMatrix| && InRange(parityIdxs, n) && InRange(dataIdxs, k)
    requires |data| == |dataIdxs| && IsTable(data, |data|, blockSize) && coding.Length == |parityIdxs|
    modifies coding
    ensures var h := TableOf(fullMatrix, n, k);
            coding[..] == EncodeBlocks(f, SubMatrix(h, parityIdxs, dataIdxs, k), data, blockSize)
  {
    var blockNum, parityNum := |dataIdxs|, |parityIdxs|;
    var matrix := new E[parityNum * k](_ => f.zero);
    MakeSubmatrixByRows(k, fullMatrix, matrix, parityIdxs, n);
    var newMatrix := new E[parityNum * blockNum](_ => f.zero);
    MakeSubmatrixByCols(k, parityNum, matrix[..], newMatrix, dataIdxs);
    SubMatrixInTwoSteps(TableOf(fullMatrix, n, k), parityIdxs, dataIdxs, k);
    MatrixEncode(f, blockNum, parityNum, newMatrix[..], data, coding, blockSize);
  }

  lemma SubMatrixInTwoSteps<E>(h: seq<seq<E>>, rows: seq<nat>, cols: seq<nat>, n: nat)
    requires IsTable(h, |h|, n) && InRange(rows, |h|) && InRange(cols, n)
    ensures IsTable(Pick(h, rows), |rows|, n)
    ensures SubMatrix(Pick(h, rows), UpTo(|rows|), cols, n) == SubMatrix(h, rows, cols, n)
  {
    forall u | 0 <= u < |rows|
      ensures SubMatrix(Pick(h, rows), UpTo(|rows|), cols, n)[u] == SubMatrix(h, rows, cols, n)[u]
    {
    }
  }

  /** Stores a square matrix at the front of a flat array. */
  method StoreMatrix<E>(m: seq<seq<E>>, flat: array<E>, n: nat)
    requires IsTable(m, n, n) && n * n <= flat.Length
    modifies flat
    ensures TableOf(flat[..], n, n) == m && forall t :: n * n <= t < flat.Length ==> flat[t] == old(flat[t])
  {
    hide Pos;
    for i := 0 to n
      invariant forall a, b :: 0 <= a < i && 0 <= b < n ==> TableOf(flat[..], n, n)[a][b] == m[a][b]
      invariant forall t :: n * n <= t < flat.Length ==> flat[t] == old(flat[t])
    {
      for j := 0 to n
        invariant forall a, b :: 0 <= a < i && 0 <= b < n ==> TableOf(flat[..], n, n)[a][b] == m[a][b]
        invariant forall b :: 0 <= b < j ==> TableOf(flat[..], n, n)[i][b] == m[i][b]
        invariant forall t :: n * n <= t < flat.Length ==> flat[t] == old(flat[t])
      {
        StoreEntry(flat, i, j, m[i][j], n, n);
      }
    }
    forall a | 0 <= a < n
      ensures TableOf(flat[..], n, n)[a] == m[a]
    {
    }
  }

  /** Entry t of an array of zeros after the n-by-n matrix has been stored at its front. */
  function StoredEntry<E>(f: Field<E>, m: seq<seq<E>>, n: nat, t: nat): E
    requires IsTable(m, n, n)
  {
    if n > 0 && RowOf(t, n) < n then
      hide RowOf, ColOf;
      PosOfRowCol(t, n);
      m[RowOf(t, n)][ColOf(t, n)]
    else f.zero
  }

  /** The array of an n-by-n matrix, followed by zeros, read as n rows of `wide` entries. */
  function Reread<E>(f: Field<E>, m: seq<seq<E>>, n: nat, wide: nat): (r: seq<seq<E>>)
    requires IsTable(m, n, n)
    ensures IsTable(r, n, wide)
    ensures forall i, j :: 0 <= i < n && 0 <= j < wide ==> r[i][j] == StoredEntry(f, m, n, Pos(i, j, wide))
  {
    seq(n, i requires 0 <= i < n => seq(wide, j requires 0 <= j < wide => StoredEntry(f, m, n, Pos(i, j, wide))))
  }

  lemma StoredAt<E>(f: Field<E>, m: seq<seq<E>>, n: nat, flat: seq<E>, t: nat)
    requires IsTable(m, n, n) && n * n <= |flat| && TableOf(flat, n, n) == m && t < |flat|
    requires forall t :: n * n <= t < |flat| ==> flat[t] == f.zero
    ensures flat[t] == StoredEntry(f, m, n, t)
  {
    hide Pos, RowOf, ColOf;
    if n > 0 {
      PosOfRowCol(t, n);
      if RowOf(t, n) < n {
        assert TableOf(flat, n, n)[RowOf(t, n)][ColOf(t, n)] == flat[t];
      } else {
        PastTheEnd(t, n);
      }
    }
  }

  lemma PastTheEnd(t: nat, n: nat)
    requires n > 0
    ensures RowOf(t, n) >= n ==> t >= n * n
  {
    hide RowOf;
    PosOfRowCol(t, n);
    if RowOf(t, n) >= n {
      Monotone(n, RowOf(t, n), n);
    }
  }

  lemma StoredIsReread<E>(f: Field<E>, m: seq<seq<E>>, n: nat, wide: nat, flat: seq<E>)
    requires IsTable(m, n, n) && n <= wide && n * n <= |flat| && n * wide <= |flat| && TableOf(flat, n, n) == m
    requires forall t :: n * n <= t < |flat| ==> flat[t] == f.zero
    ensures TableOf(flat, n, wide) == Reread(f, m, n, wide)
  {
    hide Pos, StoredEntry;
    forall i, j | 0 <= i < n && 0 <= j < wide
      ensures TableOf(flat, n, wide)[i][j] == Reread(f, m, n, wide)[i][j]
    {
      PosBound(i, j, wide, n);
      StoredAt(f, m, n, flat, Pos(i, j, wide));
    }
    forall i | 0 <= i < n
      ensures TableOf(flat, n, wide)[i] == Reread(f, m, n, wide)[i]
    {
    }
  }

  lemma FirstRows<E>(flat: seq<E>, rows: nat, all: nat, cols: nat)
    requires rows <= all && all * cols <= |flat|
    ensures rows * cols <= |flat| && TableOf(flat, rows, cols) == TableOf(flat, all, cols)[..rows]
  {
    hide Pos;
    Monotone(rows, all, cols);
    forall i | 0 <= i < rows
      ensures TableOf(flat, rows, cols)[i] == TableOf(flat, all, cols)[i]
    {
    }
  }

  /** The square matrix to invert: the lost blocks' columns of the first equations, as many as there are lost blocks. */
  function LostColumns<E>(h: seq<seq<E>>, parityIdxs: seq<nat>, failureIdxs: seq<nat>, k: nat): (r: seq<seq<E>>)
    requires IsTable(h, |h|, k) && InRange(parityIdxs, |h|) && InRange(failureIdxs, k) && |failureIdxs| <= |parityIdxs|
    ensures IsTable(r, |failureIdxs|, |failureIdxs|)
  {
    SubMatrix(h, parityIdxs[..|failureIdxs|], failureIdxs, k)
  }

  lemma LostColumnsFound<E>(h: seq<seq<E>>, parityIdxs: seq<nat>, failureIdxs: seq<nat>, k: nat, first: seq<seq<E>>)
    requires IsTable(h, |h|, k) && InRange(parityIdxs, |h|) && InRange(failureIdxs, k) && |failureIdxs| <= |parityIdxs|
    requires first == Pick(h, parityIdxs)[..|failureIdxs|] && IsTable(first, |failureIdxs|, k)
    ensures SubMatrix(first, UpTo(|failureIdxs|), failureIdxs, k) == LostColumns(h, parityIdxs, failureIdxs, k)
  {
    assert first == Pick(h, parityIdxs[..|failureIdxs|]);
    SubMatrixInTwoSteps(h, parityIdxs[..|failureIdxs|], failureIdxs, k);
  }

  /**
   Recovers the lost blocks from the summed partial parities. `invert` stands for the library's matrix
   inversion. The inverse is stored with one column per lost block and read with one column per parity.
   */
  method DecodeWithPartialBlocks<E(0)>(f: Field<E>, k: nat, fullMatrix: seq<E>, data: array<Block<E>>,
                                       coding: seq<Block<E>>, blockSize: nat,
                                       failureIdxs: seq<nat>, parityIdxs: seq<nat>, n: nat,
                                       invert: seq<seq<E>> -> seq<seq<E>>)
    requires n * k <= |fullMatrix| && InRange(parityIdxs, n) && InRange(failureIdxs, k)
    requires |failureIdxs| == data.Length <= |parityIdxs| == |coding| && IsTable(coding, |coding|, blockSize)
    requires IsTable(invert(LostColumns(TableOf(fullMatrix, n, k), parityIdxs, failureIdxs, k)), |failureIdxs|, |failureIdxs|)
    modifies data
    ensures var inv := invert(LostColumns(TableOf(fullMatrix, n, k), parityIdxs, failureIdxs, k));
            data[..] == EncodeBlocks(f, Reread(f, inv, |failureIdxs|, |parityIdxs|), coding, blockSize)
  {
    hide TableOf, LostColumns, Reread;
    var failuresNum, parityNum := |failureIdxs|, |parityIdxs|;
    Monotone(failuresNum, parityNum, failuresNum);
    assert failuresNum * parityNum == parityNum * failuresNum;
    var matrix := new E[parityNum * k](_ => f.zero);
    MakeSubmatrixByRows(k, fullMatrix, matrix, parityIdxs, n);
    FirstRows(matrix[..], failuresNum, parityNum, k);
    var newMatrix := new E[parityNum * failuresNum](_ => f.zero);
    MakeSubmatrixByCols(k, failuresNum, matrix[..], newMatrix, failureIdxs);
    LostColumnsFound(TableOf(fullMatrix, n, k), parityIdxs, failureIdxs, k, TableOf(matrix[..], failuresNum, k));
    var inverseMatrix := new E[parityNum * failuresNum](_ => f.zero);
    var inverse := invert(TableOf(newMatrix[..], failuresNum, failuresNum));
    StoreMatrix(inverse, inverseMatrix, failuresNum);
    StoredIsReread(f, inverse, failuresNum, parityNum, inverseMatrix[..]);
    MatrixEncode(f, parityNum, failuresNum, inverseMatrix[..], coding, data, blockSize);
  }

  /** Partial blocks of the lost blocks themselves: the cluster multiplies by the inverse first. */
  method EncodePartialBlocksForFailures<E(0)>(f: Field<E>, k: nat, fullMatrix: seq<E>, data: seq<Block<E>>,
                                              coding: array<Block<E>>, blockSize: nat, dataIdxs: seq<nat>,
                                              parityIdxs: seq<nat>, failureIdxs: seq<nat>, n: nat,
                                              invert: seq<seq<E>> -> seq<seq<E>>)
    requires n * k <= |fullMatrix| && InRange(parityIdxs, n) && InRange(failureIdxs, k) && InRange(dataIdxs, k)
    requires |failureIdxs| == |parityIdxs| == coding.Length
    requires |data| == |dataIdxs| && IsTable(data, |data|, blockSize)
    requires IsTable(invert(SubMatrix(TableOf(fullMatrix, n, k), parityIdxs, failureIdxs, k)), |failureIdxs|, |failureIdxs|)
    modifies coding
    ensures var h := TableOf(fullMatrix, n, k);
            coding[..] == EncodeBlocks(f, MatMul(f, invert(SubMatrix(h, parityIdxs, failureIdxs, k)),
                                                 SubMatrix(h, parityIdxs, dataIdxs, k), |dataIdxs|), data, blockSize)
  {
    var failuresNum, parityNum, datasNum := |failureIdxs|, |parityIdxs|, |dataIdxs|;
    ghost var h := TableOf(fullMatrix, n, k);
    var matrix := new E[parityNum * k](_ => f.zero);
    MakeSubmatrixByRows(k, fullMatrix, matrix, parityIdxs, n);
    var newMatrix := new E[parityNum * failuresNum](_ => f.zero);
    MakeSubmatrixByCols(k, parityNum, matrix[..], newMatrix, failureIdxs);
    SubMatrixInTwoSteps(h, parityIdxs, failureIdxs, k);
    var datasMatrix := new E[parityNum * datasNum](_ => f.zero);
    MakeSubmatrixByCols(k, parityNum, matrix[..], datasMatrix, dataIdxs);
    SubMatrixInTwoSteps(h, parityIdxs, dataIdxs, k);
    var encoding := MatMul(f, invert(TableOf(newMatrix[..], parityNum, failuresNum)),
                           TableOf(datasMatrix[..], parityNum, datasNum), datasNum);
    forall i | 0 <= i < coding.Length {
      coding[i] := CodingBlock(f, encoding[i], data, blockSize);
    }
  }

  /** The same from k surviving blocks: the lost generator rows times the inverse of the survivors' rows. */
  method EncodePartialBlocksForFailuresV2<E(0)>(f: Field<E>, k: nat, fullMatrix: seq<E>, data: seq<Block<E>>,
                                                coding: array<Block<E>>, blockSize: nat, dataIdxs: seq<nat>,
                                                failureIdxs: seq<nat>, liveIdxs: seq<nat>, n: nat,
                                                invert: seq<seq<E>> -> seq<seq<E>>)
    requires n * k <= |fullMatrix| && InRange(failureIdxs, n) && InRange(liveIdxs, n) && k == |liveIdxs|
    requires |failureIdxs| == coding.Length && forall i :: 0 <= i < |dataIdxs| ==> dataIdxs[i] in liveIdxs
    requires |data| == |dataIdxs| && IsTable(data, |data|, blockSize)
    requires IsTable(invert(Pick(TableOf(fullMatrix, n, k), liveIdxs)), k, k)
    modifies coding
    ensures var g := TableOf(fullMatrix, n, k);
            var d := MatMul(f, Pick(g, failureIdxs), invert(Pick(g, liveIdxs)), k);
            coding[..] == EncodeBlocks(f, SubMatrix(d, UpTo(|d|), Positions(liveIdxs, dataIdxs), k), data, blockSize)
  {
    var datasNum, failuresNum := |dataIdxs|, |failureIdxs|;
    var failuresMatrix := new E[failuresNum * k](_ => f.zero);
    MakeSubmatrixByRows(k, fullMatrix, failuresMatrix, failureIdxs, n);
    var survivorsMatrix := new E[k * k](_ => f.zero);
    MakeSubmatrixByRows(k, fullMatrix, survivorsMatrix, liveIdxs, n);
    var decoding := MatMul(f, TableOf(failuresMatrix[..], failuresNum, k), invert(TableOf(survivorsMatrix[..], k, k)), k);
    var encoding := new E[failuresNum * datasNum](_ => f.zero);
    ChooseColumns(decoding, encoding, failuresNum, k, dataIdxs, liveIdxs);
    MatrixEncode(f, datasNum, failuresNum, encoding[..], data, coding, blockSize);
  }

  /** Copies, for each data block, the column of its position among the survivors. */
  method ChooseColumns<E>(decoding: seq<seq<E>>, encoding: array<E>, failuresNum: nat, k: nat,
                          dataIdxs: seq<nat>, liveIdxs: seq<nat>)
    requires IsTable(decoding, failuresNum, k) && k == |liveIdxs| && failuresNum * |dataIdxs| <= encoding.Length
    requires forall i :: 0 <= i < |dataIdxs| ==> dataIdxs[i] in liveIdxs
    modifies encoding
    ensures TableOf(encoding[..], failuresNum, |dataIdxs|)
            == SubMatrix(decoding, UpTo(failuresNum), Positions(liveIdxs, dataIdxs), k)
  {
    hide Pos;
    var num := |dataIdxs|;
    ghost var at := Positions(liveIdxs, dataIdxs);
    for i := 0 to num
      invariant forall u, a :: 0 <= u < failuresNum && 0 <= a < i ==>
                  TableOf(encoding[..], failuresNum, num)[u][a] == decoding[u][at[a]]
    {
      var idx := 0;
      while idx < |liveIdxs| && dataIdxs[i] != liveIdxs[idx]
        invariant 0 <= idx <= |liveIdxs| && dataIdxs[i] !in liveIdxs[..idx]
      {
        idx := idx + 1;
      }
      assert idx == at[i];
      for u := 0 to failuresNum
        invariant forall v, a :: 0 <= v < failuresNum && 0 <= a < i ==>
                    TableOf(encoding[..], failuresNum, num)[v][a] == decoding[v][at[a]]
        invariant forall v :: 0 <= v < u ==> TableOf(encoding[..], failuresNum, num)[v][i] == decoding[v][idx]
      {
        StoreEntry(encoding, u, i, decoding[u][idx], failuresNum, num);
      }
    }
    forall u | 0 <= u < failuresNum
      ensures TableOf(encoding[..], failuresNum, num)[u] == Pick(decoding[u], at)
    {
    }
  }
}
